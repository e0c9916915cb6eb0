/** The scene decisions made in `App`: the rain/leaves flags driven by the
    weather, the coarse time of day, and the text colours chosen from it.
    Each `Math.random()` draw is a real parameter in [0,1). */
module App {
  import opened Wrappers
  import Weather
  import Celestial

  /** The two weather-driven flags held in `App`'s state. */
  datatype SceneFlags = SceneFlags(isRaining: bool, showLeaves: bool)

  const InitialFlags := SceneFlags(false, false)

  /** Chance that a cloudy sky is shown as rain. */
  const RainChance: real := 0.5

  /** Chance that a dry sky starts the falling leaves. */
  const LeafChance: real := 0.4

  /** Whether the weather effect decides it is raining; `rainDraw` is the draw
      taken for a cloudy sky. */
  function Raining(kind: Weather.Kind, rainDraw: real): (b: bool)
    ensures b <==> kind == Weather.Rain || (kind == Weather.Clouds && rainDraw < RainChance)
    ensures kind in {Weather.Snow, Weather.Clear} ==> !b
  {
    match kind
    case Rain => true
    case Clouds => rainDraw < RainChance
    case _ => false
  }

  /** From the reported condition text: it rains when the text mentions rain or
      drizzle and not snow, or when it only mentions clouds and the draw falls
      under the chance. */
  lemma RainFollowsCondition(condition: string, rainDraw: real)
    ensures Raining(Weather.KindOf(condition), rainDraw) <==>
              !Weather.Mentions(condition, "snow")
              && ((Weather.Mentions(condition, "rain") || Weather.Mentions(condition, "drizzle"))
                  || (Weather.Mentions(condition, "cloud") && rainDraw < RainChance))
  {
  }

  /** One run of the weather effect. A `null` weather leaves both flags alone;
      otherwise rain hides the leaves, and a dry sky shows them when the leaf
      draw falls under the chance and otherwise keeps them as they were. */
  function OnWeather(f: SceneFlags, weather: Option<Weather.WeatherInfo>, rainDraw: real, leafDraw: real): (g: SceneFlags)
    ensures weather.None? ==> g == f
    ensures weather.Some? ==> g.isRaining == Raining(weather.value.kind, rainDraw)
    ensures weather.Some? && g.isRaining ==> !g.showLeaves
    ensures weather.Some? && !g.isRaining && leafDraw < LeafChance ==> g.showLeaves
    ensures weather.Some? && !g.isRaining && leafDraw >= LeafChance ==> g.showLeaves == f.showLeaves
  {
    match weather
    case None => f
    case Some(w) =>
      var raining := Raining(w.kind, rainDraw);
      var leaves := if !raining then (if leafDraw < LeafChance then true else f.showLeaves) else false;
      SceneFlags(raining, leaves)
  }

  /** Rain and falling leaves are never shown together. */
  predicate Exclusive(f: SceneFlags)
  {
    !(f.isRaining && f.showLeaves)
  }

  /** One firing of the weather effect, with the draws it used. */
  datatype WeatherEvent = WeatherEvent(weather: Option<Weather.WeatherInfo>, rainDraw: real, leafDraw: real)

  /** The flags after the effect has fired once per event, in order. */
  function Run(f: SceneFlags, events: seq<WeatherEvent>): (r: SceneFlags)
    ensures (forall i :: 0 <= i < |events| ==> events[i].weather.None?) ==> r == f
    decreases |events|
  {
    if |events| == 0 then f
    else
      var e := events[0];
      assert forall i :: 0 <= i < |events[1..]| ==> events[1..][i] == events[i + 1];
      Run(OnWeather(f, e.weather, e.rainDraw, e.leafDraw), events[1..])
  }

  /** The rain flag follows the latest report: `null` replies after it change
      nothing, whatever was shown before. */
  lemma {:induction false} RainFollowsLatestReport(f: SceneFlags, events: seq<WeatherEvent>, i: nat)
    requires i < |events| && events[i].weather.Some?
    requires forall j :: i < j < |events| ==> events[j].weather.None?
    ensures Run(f, events).isRaining == Raining(events[i].weather.value.kind, events[i].rainDraw)
    decreases |events|
  {
    var e := events[0];
    var g := OnWeather(f, e.weather, e.rainDraw, e.leafDraw);
    assert forall k :: 0 <= k < |events[1..]| ==> events[1..][k] == events[k + 1];
    if i == 0 {
      assert Run(g, events[1..]) == g;
    } else {
      RainFollowsLatestReport(g, events[1..], i - 1);
    }
  }

  /** Starting from both flags off, rain and leaves are never both on, whatever
      weather arrives and whatever the draws are. */
  lemma {:induction false} RunStaysExclusive(f: SceneFlags, events: seq<WeatherEvent>)
    requires Exclusive(f)
    ensures Exclusive(Run(f, events))
    decreases |events|
  {
    if |events| > 0 {
      var e := events[0];
      RunStaysExclusive(OnWeather(f, e.weather, e.rainDraw, e.leafDraw), events[1..]);
    }
  }

  lemma InitialRunStaysExclusive(events: seq<WeatherEvent>)
    ensures Exclusive(Run(InitialFlags, events))
  {
    RunStaysExclusive(InitialFlags, events);
  }

  /** Leaves are sticky: once shown they stay shown through any run of events
      that never reports rain. */
  lemma {:induction false} LeavesStickWithoutRain(f: SceneFlags, events: seq<WeatherEvent>)
    requires f.showLeaves
    requires forall i :: 0 <= i < |events| && events[i].weather.Some? ==>
               !Raining(events[i].weather.value.kind, events[i].rainDraw)
    ensures Run(f, events).showLeaves
    decreases |events|
  {
    if |events| > 0 {
      var e := events[0];
      assert forall i :: 0 <= i < |events[1..]| ==> events[1..][i] == events[i + 1];
      LeavesStickWithoutRain(OnWeather(f, e.weather, e.rainDraw, e.leafDraw), events[1..]);
    }
  }

  /** The coarse time of day `App` uses for colours. */
  datatype Coarse = DayTime | NightTime

  /** `celestial.visible === 'sun' ? 'day' : 'night'`, for the value read from
      the hook's `visible` property. */
  function TimeOfDayFromVisible(visible: Option<string>): (t: Coarse)
    ensures t == DayTime <==> visible == Some("sun")
  {
    if visible == Some("sun") then DayTime else NightTime
  }

  /** The hook's state type declares a `visible` field, but the states it
      builds (the initial one and each update) never set it, so reading it
      yields `undefined`. */
  function VisibleOf(c: Celestial.CelestialState): (v: Option<string>)
    ensures v != Some("sun")
  {
    None
  }

  /** As written, `App`'s time of day is night for every state the hook can
      publish, including its initial `day` state. */
  lemma AppTimeOfDayAlwaysNight(c: Celestial.CelestialState)
    ensures TimeOfDayFromVisible(VisibleOf(c)) == NightTime
    ensures TimeOfDayFromVisible(VisibleOf(Celestial.InitialState)) == NightTime
  {
  }

  /** The time of day as evidently intended: derived from the hook's phase,
      daytime exactly in the `day` phase. */
  function CoarseTimeOfDay(p: Celestial.Phase): (t: Coarse)
    ensures t == DayTime <==> Celestial.IsDaytime(p)
  {
    if Celestial.IsDaytime(p) then DayTime else NightTime
  }

  /** With the intended derivation both values occur over one solar day: mid
      morning-to-afternoon is daytime, the dusk window is night. */
  lemma IntendedTimeOfDayVaries(y: Celestial.SolarDay, d: Celestial.SolarDay, m: Celestial.SolarDay)
    requires d.sunset - d.sunrise > 6 * Celestial.Hour
    ensures CoarseTimeOfDay(Celestial.Update(d.sunrise + 3 * Celestial.Hour, y, d, m).timeOfDay) == DayTime
    ensures CoarseTimeOfDay(Celestial.Update(d.sunset, y, d, m).timeOfDay) == NightTime
  {
  }

  /** Page background and the three text colours. */
  datatype Palette = Palette(background: string, text: string, subtext: string, tertiary: string)

  /** The body background and text colours for a time of day; every text
      colour stands apart from its background. */
  function PaletteOf(t: Coarse): (c: Palette)
    ensures c.text != c.background && c.subtext != c.background && c.tertiary != c.background
    ensures c.text != c.subtext && c.subtext != c.tertiary && c.text != c.tertiary
  {
    match t
    case DayTime => Palette("#fbf8f5", "#3c3834", "#4a4540", "#9ca3af")
    case NightTime => Palette("#0c0c2c", "#f8fafc", "#cbd5e1", "#94a3b8")
  }

  /** The colours are a function of the time of day alone, and each of the four
      differs between day and night, so the palette tells the time of day apart. */
  lemma PaletteDistinguishesTime(a: Coarse, b: Coarse)
    ensures a != b ==>
              && PaletteOf(a).background != PaletteOf(b).background
              && PaletteOf(a).text != PaletteOf(b).text
              && PaletteOf(a).subtext != PaletteOf(b).subtext
              && PaletteOf(a).tertiary != PaletteOf(b).tertiary
    ensures PaletteOf(a) == PaletteOf(b) <==> a == b
  {
  }
}
