/** The falling-leaves overlay (`FallingLeaves`): the season from the month,
    the season's leaf palette, the five generated leaves, and the strength of
    the wind blast a click applies. The physics engine itself is outside the
    model; each `Math.random()` draw is a parameter. */
module Leaf {
  import RealArith

  /** The overlay's own seasons (a monsoon calendar, unlike the weather's). */
  datatype LeafSeason = Summer | Monsoon | Autumn | Winter

  /** Season of a calendar month (0 = January … 11 = December). */
  function SeasonOfMonth(month: int): (s: LeafSeason)
    ensures 0 <= month < 12 ==> (s == Summer <==> month in {2, 3, 4})
    ensures 0 <= month < 12 ==> (s == Monsoon <==> month in {5, 6, 7, 8})
    ensures 0 <= month < 12 ==> (s == Autumn <==> month in {9, 10})
    ensures 0 <= month < 12 ==> (s == Winter <==> month in {11, 0, 1})
  {
    if 2 <= month <= 4 then Summer
    else if 5 <= month <= 8 then Monsoon
    else if 9 <= month <= 10 then Autumn
    else Winter
  }

  /** Leaf colours of each season (`SEASONAL_COLORS`). */
  function Palette(s: LeafSeason): (p: seq<string>)
    ensures |p| >= 2
  {
    match s
    case Monsoon => ["linear-gradient(to bottom right, #1e8449, #196F3D)",
                     "linear-gradient(to bottom right, #0a5e2eff, #1E8449)"]
    case Summer => ["linear-gradient(to bottom right, #1E8449, #145A32)",
                    "linear-gradient(to bottom right, #7DCEA0, #1E8449)"]
    case Autumn => ["#d35400", "#c0392b", "#f1c40f", "#e67e22", "#d4ac0d"]
    case Winter => ["#e74c3c", "#f39c12", "#d35400"]
  }

  predicate Unit(r: real)
  {
    0.0 <= r < 1.0
  }

  /** `floor(r * n)` for a draw in [0,1) is a valid index into `n` items. */
  function ScaledIndex(r: real, n: nat): (i: nat)
    requires Unit(r) && n > 0
    ensures i < n
  {
    RealArith.MulFractionBelow(n as real, r);
    assert r * n as real == n as real * r;
    (r * n as real).Floor as nat
  }

  /** The colour a draw picks from the season's palette. */
  function PickColour(s: LeafSeason, r: real): (c: string)
    requires Unit(r)
    ensures c in Palette(s)
  {
    Palette(s)[ScaledIndex(r, |Palette(s)|)]
  }

  /** Number of leaves generated. */
  const LeafCount: nat := 5

  /** The draws that shape one leaf: its size and its colour. (The draws for its
      start position and angle feed the physics engine only.) */
  datatype LeafDraw = LeafDraw(size: real, colour: real)

  /** One leaf as drawn: width `size`, height `height`, colour. */
  datatype LeafShape = LeafShape(size: real, height: real, colour: string)

  function MakeLeaf(s: LeafSeason, r: LeafDraw): (l: LeafShape)
    requires Unit(r.size) && Unit(r.colour)
    ensures 15.0 <= l.size < 35.0
    ensures l.height == 0.8 * l.size && 12.0 <= l.height < 28.0
    ensures l.colour in Palette(s)
  {
    var size := 15.0 + r.size * 20.0;
    LeafShape(size, size * 0.8, PickColour(s, r.colour))
  }

  /** The five leaves of the current season. */
  function GenerateLeaves(month: int, draws: seq<LeafDraw>): (leaves: seq<LeafShape>)
    requires |draws| == LeafCount
    requires forall i :: 0 <= i < |draws| ==> Unit(draws[i].size) && Unit(draws[i].colour)
    ensures |leaves| == LeafCount
    ensures forall i :: 0 <= i < |leaves| ==>
              15.0 <= leaves[i].size < 35.0 && leaves[i].colour in Palette(SeasonOfMonth(month))
    ensures forall i :: 0 <= i < |leaves| ==> leaves[i].height == 0.8 * leaves[i].size
    ensures forall i :: 0 <= i < |leaves| ==> leaves[i] == MakeLeaf(SeasonOfMonth(month), draws[i])
  {
    seq(LeafCount, i requires 0 <= i < LeafCount => MakeLeaf(SeasonOfMonth(month), draws[i]))
  }

  /** Radius of the wind blast, in pixels. */
  const BlastRadius: real := 250.0

  /** Strongest push the blast gives. */
  const MaxForce: real := 0.1

  /** Force a click applies to a leaf `distance` pixels away: none outside the
      radius, otherwise a push that weakens linearly with distance. */
  function BlastForce(distance: real): (f: real)
    requires distance >= 0.0
    ensures distance >= BlastRadius ==> f == 0.0
    ensures distance < BlastRadius ==> 0.0 < f <= MaxForce
  {
    if distance < BlastRadius then
      (1.0 - distance / BlastRadius) * MaxForce
    else 0.0
  }

  /** Closer leaves are pushed at least as hard. */
  lemma {:induction false} BlastWeakensWithDistance(d1: real, d2: real)
    requires 0.0 <= d1 <= d2
    ensures BlastForce(d1) >= BlastForce(d2)
  {
    if d2 < BlastRadius {
      RealArith.DivMonotone(d1, d2, BlastRadius);
    }
  }
}
