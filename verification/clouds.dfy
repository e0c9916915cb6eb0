/** The cloud layer (`CloudLayer`): a hundred drifting clouds when, and only
    when, the live weather is cloudy. Each cloud's seven `Math.random()` draws
    are a parameter. */
module Clouds {
  import opened Wrappers
  import Weather
  import RealArith

  /** Number of clouds generated for a cloudy sky. */
  const CloudCount: nat := 100

  /** Number of pre-drawn cloud outlines (`CLOUD_PRESETS`). */
  const PresetCount: nat := 3

  /** The draws one cloud consumes, in the order the source takes them. */
  datatype CloudDraw = CloudDraw(start: real, dur: real, delay: real, y: real,
                                 scale: real, opacity: real, preset: real)

  predicate Unit(r: real)
  {
    0.0 <= r < 1.0
  }

  /** Every draw lies in [0,1), as `Math.random()` guarantees. */
  predicate ValidDraw(r: CloudDraw)
  {
    Unit(r.start) && Unit(r.dur) && Unit(r.delay) && Unit(r.y)
    && Unit(r.scale) && Unit(r.opacity) && Unit(r.preset)
  }

  /** One cloud: outline index, horizontal drift from `start` to `end` (vw),
      animation duration and delay (s), vertical offset, scale and opacity. */
  datatype Cloud = Cloud(preset: nat, start: real, end: real, dur: real, delay: real,
                         yPos: real, scale: real, opacity: real)

  /** The ranges a generated cloud keeps to. */
  predicate WellFormed(c: Cloud)
  {
    && c.preset < PresetCount
    && 0.0 <= c.start < 120.0
    && c.end in {-20.0, 120.0}
    && (c.start > 50.0 ==> c.end < c.start)
    && (c.start <= 50.0 ==> c.end > c.start)
    && 2500.0 <= c.dur < 3000.0
    && -c.dur < c.delay <= 0.0
    && -7.0 <= c.yPos < -1.0
    && 5.0 <= c.scale < 9.0
    && 0.2 <= c.opacity < 0.3
  }

  /** One cloud from its draws. A cloud starting right of 50 vw drifts off to the
      left edge, any other to the right edge, so none stands still. */
  function MakeCloud(r: CloudDraw): (c: Cloud)
    requires ValidDraw(r)
    ensures WellFormed(c)
    ensures c.end != c.start
  {
    var start := r.start * 120.0;
    var end := if start > 50.0 then -20.0 else 120.0;
    var dur := 2500.0 + r.dur * 500.0;
    RealArith.MulFractionBelow(dur, r.delay);
    var delay := -(r.delay * dur);
    var preset := (r.preset * PresetCount as real).Floor;
    Cloud(preset as nat, start, end, dur, delay, -7.0 + r.y * 6.0, 5.0 + r.scale * 4.0,
          0.2 + r.opacity * 0.1)
  }

  /** The memoised cloud list: empty unless the weather is known and cloudy,
      then one cloud per draw, a hundred in all. */
  method GenerateClouds(weather: Option<Weather.WeatherInfo>, draws: seq<CloudDraw>)
    returns (clouds: seq<Cloud>)
    requires |draws| == CloudCount
    requires forall i :: 0 <= i < |draws| ==> ValidDraw(draws[i])
    ensures !(weather.Some? && weather.value.kind == Weather.Clouds) ==> clouds == []
    ensures weather.Some? && weather.value.kind == Weather.Clouds ==>
              |clouds| == CloudCount
              && forall i :: 0 <= i < |clouds| ==> clouds[i] == MakeCloud(draws[i])
    ensures forall i :: 0 <= i < |clouds| ==> WellFormed(clouds[i])
  {
    clouds := [];
    if !(weather.Some? && weather.value.kind == Weather.Clouds) {
      return;
    }
    var i := 0;
    while i < CloudCount
      invariant 0 <= i <= CloudCount
      invariant |clouds| == i
      invariant forall j :: 0 <= j < i ==> clouds[j] == MakeCloud(draws[j])
      invariant forall j :: 0 <= j < i ==> WellFormed(clouds[j])
    {
      clouds := clouds + [MakeCloud(draws[i])];
      i := i + 1;
    }
  }

  /** The layer renders only when there are clouds. */
  predicate Renders(clouds: seq<Cloud>)
  {
    |clouds| != 0
  }

  /** The layer is drawn exactly when the live weather is cloudy. */
  method RendersOnlyWhenCloudy(weather: Option<Weather.WeatherInfo>, draws: seq<CloudDraw>)
    returns (shown: bool)
    requires |draws| == CloudCount
    requires forall i :: 0 <= i < |draws| ==> ValidDraw(draws[i])
    ensures shown <==> weather.Some? && weather.value.kind == Weather.Clouds
  {
    var clouds := GenerateClouds(weather, draws);
    shown := Renders(clouds);
  }
}
