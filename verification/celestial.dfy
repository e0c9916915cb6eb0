/** The `update` step of `useCelestialPosition`: the solar phase of an instant,
    the star opacity, the arc anchors and the clamped arc progress.

    Instants are integer milliseconds since the epoch. Sunrise and sunset of
    yesterday, today and tomorrow come from the astronomical library and are
    parameters here; the wall clock is the parameter `now`. */
module Celestial {
  import opened Wrappers
  import RealArith

  /** The six phases of the solar day (`TimeOfDay` in the source). */
  datatype Phase = Dawn | Morning | Day | Afternoon | Dusk | Night

  /** Sunrise and sunset of one calendar day, in epoch milliseconds. */
  datatype SolarDay = SolarDay(sunrise: int, sunset: int)

  /** One hour in milliseconds. Both transition pads are exactly one hour:
      the value is `60*60e3`, although a comment next to it speaks of 1½ h. */
  const Hour: int := 60 * 60 * 1000
  const DawnPad: int := Hour
  const DuskPad: int := Hour

  /** The padded transition windows around sunrise and sunset. */
  datatype Windows = Windows(dawnStart: int, dawnEnd: int, duskStart: int, duskEnd: int)

  function WindowsOf(d: SolarDay): (w: Windows)
    ensures w.dawnEnd - w.dawnStart == 2 * Hour
    ensures w.duskEnd - w.duskStart == w.dawnEnd - w.dawnStart
    ensures d.sunrise - w.dawnStart == w.dawnEnd - d.sunrise == Hour
    ensures d.sunset - w.duskStart == w.duskEnd - d.sunset == Hour
  {
    Windows(d.sunrise - DawnPad, d.sunrise + DawnPad, d.sunset - DuskPad, d.sunset + DuskPad)
  }

  /** Position of a phase in the nominal order dawn, morning, day, afternoon, dusk, night. */
  function Rank(p: Phase): nat
  {
    match p
    case Dawn => 0
    case Morning => 1
    case Day => 2
    case Afternoon => 3
    case Dusk => 4
    case Night => 5
  }

  /** The nominal half-open band [lo, hi) of each daylight phase, stated
      directly from sunrise and sunset. Night has no band of its own: it is
      whatever no daylight band claims. */
  function BandLo(p: Phase, d: SolarDay): int
    requires p != Night
  {
    match p
    case Dawn => d.sunrise - Hour
    case Morning => d.sunrise + Hour
    case Day => d.sunrise + 3 * Hour
    case Afternoon => d.sunset - 3 * Hour
    case Dusk => d.sunset - Hour
  }

  function BandHi(p: Phase, d: SolarDay): int
    requires p != Night
  {
    match p
    case Dawn => d.sunrise + Hour
    case Morning => d.sunrise + 3 * Hour
    case Day => d.sunset - 3 * Hour
    case Afternoon => d.sunset - Hour
    case Dusk => d.sunset + Hour
  }

  predicate InBand(p: Phase, now: int, d: SolarDay)
  {
    p != Night && BandLo(p, d) <= now < BandHi(p, d)
  }

  /** First-match classification of `now`: the earliest phase (in rank order)
      whose band holds `now`, and night when no band does. */
  function Classify(now: int, d: SolarDay): (p: Phase)
    ensures p != Night ==> InBand(p, now, d)
    ensures forall q :: Rank(q) < Rank(p) ==> !InBand(q, now, d)
    ensures p == Night ==> forall q :: !InBand(q, now, d)
  {
    var w := WindowsOf(d);
    if w.dawnStart <= now < w.dawnEnd then Dawn
    else if w.dawnEnd <= now < d.sunrise + 3 * Hour then Morning
    else if d.sunrise + 3 * Hour <= now < d.sunset - 3 * Hour then Day
    else if d.sunset - 3 * Hour <= now < w.duskStart then Afternoon
    else if w.duskStart <= now < w.duskEnd then Dusk
    else Night
  }

  /** Daylight long enough (at least six hours) for the five daylight bands to be
      laid end to end without overlap. */
  predicate LongDaylight(d: SolarDay)
  {
    d.sunset - d.sunrise >= 6 * Hour
  }

  /** With long daylight the bands partition [dawnStart, duskEnd): the phase of
      an instant is exactly the band that holds it, and night is everything outside. */
  lemma ClassifyIsBand(now: int, d: SolarDay, p: Phase)
    requires LongDaylight(d)
    ensures Classify(now, d) == p <==>
              (if p == Night then !(WindowsOf(d).dawnStart <= now < WindowsOf(d).duskEnd)
               else InBand(p, now, d))
  {
  }

  /** With long daylight the phases occur in order dawn → morning → day →
      afternoon → dusk as `now` rises across [dawnStart, duskEnd), and never night there. */
  lemma PhasesInOrder(t1: int, t2: int, d: SolarDay)
    requires LongDaylight(d)
    requires WindowsOf(d).dawnStart <= t1 <= t2 < WindowsOf(d).duskEnd
    ensures Classify(t1, d) != Night && Classify(t2, d) != Night
    ensures Rank(Classify(t1, d)) <= Rank(Classify(t2, d))
  {
  }

  /** With daylight shorter than six hours the `day` band is empty, yet every
      instant still gets a phase. */
  lemma ShortDaylightHasNoDay(now: int, d: SolarDay)
    requires d.sunset - d.sunrise < 6 * Hour
    ensures Classify(now, d) != Day
  {
  }

  /** Star opacity at `now`: 1 at night, 0 in morning, day and afternoon, a linear
      fade-out across the dawn window and a linear fade-in across the dusk window. */
  function StarOpacity(now: int, d: SolarDay): (s: real)
    ensures 0.0 <= s <= 1.0
    ensures Classify(now, d) in {Morning, Day, Afternoon} ==> s == 0.0
    ensures Classify(now, d) == Night ==> s == 1.0
    ensures Classify(now, d) == Dawn ==>
              0.0 < s && s == (WindowsOf(d).dawnEnd - now) as real / (2 * Hour) as real
    ensures Classify(now, d) == Dusk ==>
              s < 1.0 && s == (now - WindowsOf(d).duskStart) as real / (2 * Hour) as real
  {
    var w := WindowsOf(d);
    match Classify(now, d)
    case Dawn => 1.0 - (now - w.dawnStart) as real / (w.dawnEnd - w.dawnStart) as real
    case Dusk => (now - w.duskStart) as real / (w.duskEnd - w.duskStart) as real
    case Night => 1.0
    case _ => 0.0
  }

  /** Stars fade out (never brighten) while dawn lasts. */
  lemma {:induction false} DawnStarsNonIncreasing(t1: int, t2: int, d: SolarDay)
    requires Classify(t1, d) == Dawn && Classify(t2, d) == Dawn && t1 <= t2
    ensures StarOpacity(t1, d) >= StarOpacity(t2, d)
  {
    var e := WindowsOf(d).dawnEnd;
    RealArith.DivMonotone((e - t2) as real, (e - t1) as real, (2 * Hour) as real);
  }

  /** Stars fade in (never dim) while dusk lasts. */
  lemma {:induction false} DuskStarsNonDecreasing(t1: int, t2: int, d: SolarDay)
    requires Classify(t1, d) == Dusk && Classify(t2, d) == Dusk && t1 <= t2
    ensures StarOpacity(t1, d) <= StarOpacity(t2, d)
  {
    var s := WindowsOf(d).duskStart;
    RealArith.DivMonotone((t1 - s) as real, (t2 - s) as real, (2 * Hour) as real);
  }

  /** The two ends of the current arc. */
  datatype Arc = Arc(start: int, end: int)

  /** Arc anchors: sunrise → sunset for every daylight phase; at night the arc
      runs from the end of the previous dusk window to the start of the next dawn
      window, whichever side of today's dusk window `now` lies on. */
  function ArcAnchors(now: int, yesterday: SolarDay, today: SolarDay, tomorrow: SolarDay): (a: Arc)
    ensures Classify(now, today) != Night ==> a == Arc(today.sunrise, today.sunset)
    ensures Classify(now, today) == Night && now >= WindowsOf(today).duskEnd ==>
              a == Arc(WindowsOf(today).duskEnd, WindowsOf(tomorrow).dawnStart)
    ensures Classify(now, today) == Night && now < WindowsOf(today).duskEnd ==>
              a == Arc(WindowsOf(yesterday).duskEnd, WindowsOf(today).dawnStart)
  {
    var w := WindowsOf(today);
    if Classify(now, today) == Night then
      if now >= w.duskEnd then Arc(w.duskEnd, tomorrow.sunrise - DawnPad)
      else Arc(yesterday.sunset + DuskPad, w.dawnStart)
    else Arc(today.sunrise, today.sunset)
  }

  /** Consecutive solar days whose transition windows do not overlap. */
  predicate WellOrdered(yesterday: SolarDay, today: SolarDay, tomorrow: SolarDay)
  {
    && today.sunrise < today.sunset
    && WindowsOf(yesterday).duskEnd < WindowsOf(today).dawnStart
    && WindowsOf(today).duskEnd < WindowsOf(tomorrow).dawnStart
  }

  /** The night arc does not reset at midnight: an instant after today's dusk
      window and an instant before tomorrow's dawn window (seen from tomorrow)
      share one arc, which ends exactly where tomorrow's dawn begins. */
  lemma NightArcSpansMidnight(t1: int, t2: int, d0: SolarDay, d1: SolarDay, d2: SolarDay, d3: SolarDay)
    requires Classify(t1, d1) == Night && t1 >= WindowsOf(d1).duskEnd
    requires Classify(t2, d2) == Night && t2 < WindowsOf(d2).duskEnd
    ensures ArcAnchors(t1, d0, d1, d2) == ArcAnchors(t2, d1, d2, d3)
    ensures Classify(ArcAnchors(t2, d1, d2, d3).end, d2) == Dawn
  {
  }

  /** JavaScript's `Math.min(1, Math.max(0, v))` on a finite `v`. */
  function Clamp01(v: real): (c: real)
    ensures 0.0 <= c <= 1.0
    ensures 0.0 <= v <= 1.0 ==> c == v
  {
    if v < 0.0 then 0.0 else if v > 1.0 then 1.0 else v
  }

  /** Arc progress `(now - start) / (end - start)` clamped to [0,1]. When the
      arc is degenerate JavaScript divides by zero: a nonzero numerator gives
      ±Infinity, which the clamp turns into 1 or 0, and 0/0 gives NaN, which
      `Math.min`/`Math.max` pass through; `None` stands for that NaN. */
  function Progress(now: int, a: Arc): (p: Option<real>)
    ensures p.None? <==> a.start == a.end == now
    ensures p.Some? ==> 0.0 <= p.value <= 1.0
    ensures a.start < a.end && a.start <= now <= a.end ==>
              p == Some((now - a.start) as real / (a.end - a.start) as real)
    ensures a.start < a.end && now <= a.start ==> p == Some(0.0)
    ensures a.start < a.end && now >= a.end ==> p == Some(1.0)
  {
    if a.end == a.start then
      if now == a.start then None
      else if now > a.start then Some(1.0)
      else Some(0.0)
    else
      var ratio := (now - a.start) as real / (a.end - a.start) as real;
      assert a.start < a.end && a.start <= now <= a.end ==> 0.0 <= ratio <= 1.0 by {
        if a.start < a.end && a.start <= now <= a.end {
          RealArith.DivUnit((now - a.start) as real, (a.end - a.start) as real);
        }
      }
      assert a.start < a.end && now >= a.end ==> ratio >= 1.0 by {
        if a.start < a.end && now >= a.end {
          RealArith.DivMonotone((a.end - a.start) as real, (now - a.start) as real, (a.end - a.start) as real);
        }
      }
      Some(Clamp01(ratio))
  }

  /** Along a proper arc, progress never decreases as time moves forward. */
  lemma {:induction false} ProgressMonotone(t1: int, t2: int, a: Arc)
    requires a.start < a.end && t1 <= t2
    ensures Progress(t1, a).value <= Progress(t2, a).value
  {
    var len := (a.end - a.start) as real;
    RealArith.DivMonotone((t1 - a.start) as real, (t2 - a.start) as real, len);
  }

  /** The published state of the hook. The vertical position `y` is left out (it
      is a sine of the progress); `x` is `None` when the progress is NaN. */
  datatype CelestialState = CelestialState(timeOfDay: Phase, x: Option<real>, stars: real)

  /** The state the hook holds before its first update. */
  const InitialState := CelestialState(Day, Some(50.0), 0.0)

  /** One `update()` call. */
  function Update(now: int, yesterday: SolarDay, today: SolarDay, tomorrow: SolarDay): (s: CelestialState)
    ensures s.timeOfDay == Classify(now, today)
    ensures 0.0 <= s.stars <= 1.0
    ensures s.x.Some? ==> 0.0 <= s.x.value <= 100.0
    ensures WellOrdered(yesterday, today, tomorrow) ==> s.x.Some?
    ensures s.stars == StarOpacity(now, today)
    ensures var a := ArcAnchors(now, yesterday, today, tomorrow);
            a.start < a.end ==>
              s.x == Some(100.0 * Clamp01((now - a.start) as real / (a.end - a.start) as real))
    ensures Classify(now, today) != Night && today.sunrise < today.sunset ==>
              s.x == Some(100.0 * Clamp01((now - today.sunrise) as real / (today.sunset - today.sunrise) as real))
  {
    var phase := Classify(now, today);
    var prog := Progress(now, ArcAnchors(now, yesterday, today, tomorrow));
    var x := if prog.Some? then Some(prog.value * 100.0) else None;
    CelestialState(phase, x, StarOpacity(now, today))
  }

  /** Through the daylight phases the sun moves left to right only: it stands
      at the left edge at sunrise, at the right edge at sunset, and its `x`
      never decreases in between. */
  lemma {:induction false} SunCrossesSky(t1: int, t2: int, y: SolarDay, d: SolarDay, m: SolarDay)
    requires d.sunrise < d.sunset
    requires t1 <= t2 && Classify(t1, d) != Night && Classify(t2, d) != Night
    ensures Update(t1, y, d, m).x.Some? && Update(t2, y, d, m).x.Some?
    ensures Update(t1, y, d, m).x.value <= Update(t2, y, d, m).x.value
    ensures Update(d.sunrise, y, d, m).x == Some(0.0)
    ensures Update(d.sunset, y, d, m).x == Some(100.0)
  {
    ProgressMonotone(t1, t2, Arc(d.sunrise, d.sunset));
    assert Classify(d.sunrise, d) != Night;
    assert Classify(d.sunset, d) != Night;
  }

  /** Only the `day` phase counts as daytime. */
  predicate IsDaytime(p: Phase)
  {
    p == Day
  }

  /** The hook's `overrideHour` argument: omitted (`undefined`), explicitly
      `null`, or an hour of the day. */
  datatype Override = Omitted | Null | AtHour(hour: real)

  /** `overrideHour != null`: the loose test that decides whether the clock is
      replaced by the override hour. */
  predicate UsesOverride(o: Override)
  {
    o.AtHour?
  }

  /** `overrideHour === null`: the strict test that decides whether the
      60-second refresh is scheduled. */
  predicate SchedulesRefresh(o: Override)
  {
    o == Null
  }

  /** Refresh period of the hook, in milliseconds. */
  const RefreshPeriod: nat := 60_000

  /** Milliseconds after the effect ran at which the most recent `update()` was
      made, `elapsed` milliseconds after the effect ran (as written: only an
      explicit `null` schedules the refresh). */
  function LastUpdate(o: Override, elapsed: nat): (t: nat)
    ensures t <= elapsed
    ensures SchedulesRefresh(o) ==> elapsed - t < RefreshPeriod && t % RefreshPeriod == 0
    ensures !SchedulesRefresh(o) ==> t == 0
  {
    if SchedulesRefresh(o) then elapsed - elapsed % RefreshPeriod else 0
  }

  /** An omitted override neither replaces the clock nor refreshes: two minutes
      after mounting, the published phase is still the one computed at mount. */
  lemma OmittedOverrideGoesStale()
    ensures !UsesOverride(Omitted)
    ensures LastUpdate(Omitted, 2 * RefreshPeriod) == 0
  {
  }

  /** The refresh as evidently intended: whenever no override hour replaces the
      clock, using the same loose test as the clock replacement. */
  function LastUpdateIntended(o: Override, elapsed: nat): (t: nat)
    ensures t <= elapsed
    ensures !UsesOverride(o) ==> elapsed - t < RefreshPeriod
    ensures UsesOverride(o) ==> t == 0
  {
    if !UsesOverride(o) then elapsed - elapsed % RefreshPeriod else 0
  }

  /** With the intended guard the state is never more than one period stale
      while the clock drives it, and `undefined` and `null` behave alike. */
  lemma {:induction false} IntendedRefreshTreatsOmittedAsNull(elapsed: nat)
    ensures LastUpdateIntended(Omitted, elapsed) == LastUpdateIntended(Null, elapsed)
    ensures LastUpdateIntended(Null, elapsed) == LastUpdate(Null, elapsed)
  {
  }
}
