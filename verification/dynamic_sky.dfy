/** The animated sky (`DynamicSky`): the page background and gradient stops
    from the theme of the current phase, the star field, and the layer
    opacities taken from the celestial state. */
module DynamicSky {
  import RealArith
  import Celestial
  import SkyTheme

  /** Offset, in percent, of the `i`-th of `n` evenly spread gradient stops. */
  function StopOffset(i: nat, n: nat): (o: real)
    requires i < n && n >= 2
    ensures 0.0 <= o <= 100.0
    ensures i == 0 ==> o == 0.0
    ensures i == n - 1 ==> o == 100.0
  {
    RealArith.DivUnit(i as real, (n - 1) as real);
    (i as real / (n - 1) as real) * 100.0
  }

  /** Later stops sit strictly lower in the gradient. */
  lemma {:induction false} StopOffsetIncreasing(i: nat, j: nat, n: nat)
    requires i < j < n && n >= 2
    ensures StopOffset(i, n) < StopOffset(j, n)
  {
    RealArith.DivStrictMonotone(i as real, j as real, (n - 1) as real);
  }

  /** The stops of a gradient: one per colour, from 0 % to 100 %. */
  function StopOffsets(grad: seq<string>): (o: seq<real>)
    requires |grad| >= 2
    ensures |o| == |grad|
    ensures o[0] == 0.0 && o[|o| - 1] == 100.0
    ensures forall i, j :: 0 <= i < j < |o| ==> o[i] < o[j]
  {
    var o := seq(|grad|, i requires 0 <= i < |grad| => StopOffset(i, |grad|));
    forall i, j | 0 <= i < j < |o|
      ensures o[i] < o[j]
    {
      StopOffsetIncreasing(i, j, |grad|);
    }
    o
  }

  /** The plain page background behind the gradient: its last colour. */
  function Background(p: Celestial.Phase): (c: string)
    ensures c in SkyTheme.ThemeOf(p).grad
  {
    var g := SkyTheme.ThemeOf(p).grad;
    g[|g| - 1]
  }

  /** The background is the colour at the bottom (100 %) stop of the gradient. */
  lemma BackgroundIsBottomStop(p: Celestial.Phase)
    ensures var g := SkyTheme.ThemeOf(p).grad;
            var o := StopOffsets(g);
            exists i :: 0 <= i < |g| && o[i] == 100.0 && g[i] == Background(p)
  {
    var g := SkyTheme.ThemeOf(p).grad;
    var o := StopOffsets(g);
    assert o[|g| - 1] == 100.0 && g[|g| - 1] == Background(p);
  }

  /** Number of stars in the star field. */
  const StarCount: nat := 150

  predicate Unit(r: real)
  {
    0.0 <= r < 1.0
  }

  /** The four draws shaping one star. */
  datatype StarDraw = StarDraw(cx: real, cy: real, r: real, delay: real)

  predicate ValidStarDraw(s: StarDraw)
  {
    Unit(s.cx) && Unit(s.cy) && Unit(s.r) && Unit(s.delay)
  }

  /** A star: centre in percent of the sky, radius, twinkle delay in seconds. */
  datatype Star = Star(cx: real, cy: real, radius: real, delay: real)

  predicate StarInSky(s: Star)
  {
    0.0 <= s.cx < 100.0 && 0.0 <= s.cy < 80.0 && 0.5 <= s.radius < 1.5 && 0.0 <= s.delay < 5.0
  }

  function MakeStar(d: StarDraw): (s: Star)
    requires ValidStarDraw(d)
    ensures StarInSky(s)
  {
    Star(d.cx * 100.0, d.cy * 80.0, d.r * 1.0 + 0.5, d.delay * 5.0)
  }

  /** The star field, generated once per mount. */
  method GenerateStars(draws: seq<StarDraw>) returns (stars: seq<Star>)
    requires |draws| == StarCount
    requires forall i :: 0 <= i < |draws| ==> ValidStarDraw(draws[i])
    ensures |stars| == StarCount
    ensures forall i :: 0 <= i < |stars| ==> StarInSky(stars[i])
    ensures forall i :: 0 <= i < |stars| ==> stars[i] == MakeStar(draws[i])
  {
    stars := [];
    var k := 0;
    while k < StarCount
      invariant 0 <= k <= StarCount
      invariant |stars| == k
      invariant forall i :: 0 <= i < k ==> stars[i] == MakeStar(draws[i])
      invariant forall i :: 0 <= i < k ==> StarInSky(stars[i])
    {
      stars := stars + [MakeStar(draws[k])];
      k := k + 1;
    }
  }

  /** What the sky shows at a moment: background, gradient, glow, star layer
      opacity and the glow's horizontal position in percent (if any). */
  datatype SkyView = SkyView(background: string, grad: seq<string>, stops: seq<real>,
                             glow: string, starOpacity: real, sunX: real)

  function Render(s: Celestial.CelestialState): (v: SkyView)
    ensures v.grad == SkyTheme.ThemeOf(s.timeOfDay).grad
    ensures |v.stops| == |v.grad| && v.stops[|v.stops| - 1] == 100.0
    ensures v.background == v.grad[|v.grad| - 1]
    ensures v.glow == SkyTheme.ThemeOf(s.timeOfDay).glow
    ensures v.starOpacity == s.stars
    ensures s.x.Some? ==> v.sunX == s.x.value
  {
    var t := SkyTheme.ThemeOf(s.timeOfDay);
    SkyView(Background(s.timeOfDay), t.grad, StopOffsets(t.grad), t.glow, s.stars,
            s.x.GetOr(0.0))
  }

  /** At night every star is fully shown; in the bright phases none is. */
  lemma StarLayerFollowsPhase(now: int, y: Celestial.SolarDay, d: Celestial.SolarDay, t: Celestial.SolarDay)
    ensures var v := Render(Celestial.Update(now, y, d, t));
            (Celestial.Classify(now, d) == Celestial.Night ==> v.starOpacity == 1.0) &&
            (Celestial.Classify(now, d) in {Celestial.Morning, Celestial.Day, Celestial.Afternoon} ==>
               v.starOpacity == 0.0)
  {
  }
}
