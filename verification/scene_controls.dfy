/** The scene-settings panel (`DevControls`): which weather chip is active,
    how a chip click toggles the weather override, the Reset / Auto buttons,
    and whether the panel is open. */
module SceneControls {
  import opened Wrappers

  /** The weather a visitor can pick (`WeatherPick`). */
  datatype WeatherPick = PickRain | PickSnow | PickClouds | PickFall | PickClear

  /** The chips, in the order they are shown. */
  const Options: seq<WeatherPick> := [PickRain, PickSnow, PickClouds, PickFall, PickClear]

  /** The panel's state: the manual hour, the weather override, and `open`. */
  datatype Controls = Controls(manual: Option<real>, weatherOverride: Option<WeatherPick>, open: bool)

  /** The panel on first render: `open` starts false; the manual hour and the
      override, which the parent holds, are taken as unset. */
  const Initial := Controls(None, None, false)

  /** The pick shown as selected: the override when set, else the live weather. */
  function Selected(c: Controls, current: WeatherPick): (s: WeatherPick)
    ensures c.weatherOverride.Some? ==> s == c.weatherOverride.value
    ensures c.weatherOverride.None? ==> s == current
  {
    c.weatherOverride.GetOr(current)
  }

  /** The selection ignores the live weather exactly when an override is set. */
  lemma OverrideBeatsLiveWeather(c: Controls)
    ensures (forall a, b :: Selected(c, a) == Selected(c, b)) <==> c.weatherOverride.Some?
  {
    if c.weatherOverride.None? {
      assert Selected(c, PickRain) != Selected(c, PickSnow);
    }
  }

  /** Positions of the chips drawn as active. */
  function ActiveChips(c: Controls, current: WeatherPick): (chips: set<nat>)
    ensures forall i: nat :: i in chips <==> i < |Options| && Options[i] == Selected(c, current)
  {
    set i: nat | i < |Options| && Options[i] == Selected(c, current)
  }

  /** Position of a pick among the chips. */
  function ChipIndex(w: WeatherPick): (i: nat)
    ensures i < |Options| && Options[i] == w
    ensures forall j :: 0 <= j < |Options| && Options[j] == w ==> j == i
  {
    match w
    case PickRain => 0
    case PickSnow => 1
    case PickClouds => 2
    case PickFall => 3
    case PickClear => 4
  }

  /** Every pick has a chip and the chips are distinct, so exactly one chip is
      active whatever the override and the live weather are. */
  lemma {:induction false} ExactlyOneChipActive(c: Controls, current: WeatherPick)
    ensures ActiveChips(c, current) == {ChipIndex(Selected(c, current))}
    ensures |ActiveChips(c, current)| == 1
  {
    var k := ChipIndex(Selected(c, current));
    assert k in ActiveChips(c, current);
    assert forall i :: i in ActiveChips(c, current) ==> i == k;
  }

  /** Clicking a chip: clicking the current override clears it, any other chip
      becomes the override. Nothing else changes. */
  function ClickChip(c: Controls, w: WeatherPick): (r: Controls)
    ensures r.weatherOverride == Some(w) <==> c.weatherOverride != Some(w)
    ensures r.weatherOverride.None? <==> c.weatherOverride == Some(w)
    ensures c.weatherOverride != Some(w) ==> forall cur :: ActiveChips(r, cur) == {ChipIndex(w)}
    ensures c.weatherOverride == Some(w) ==> forall cur :: Selected(r, cur) == cur
    ensures forall live :: DialValue(r, live) == DialValue(c, live)
    ensures r.open == c.open
  {
    if c.weatherOverride == Some(w) then c.(weatherOverride := None)
    else c.(weatherOverride := Some(w))
  }

  /** After a click, either the clicked chip is selected or the override is cleared
      and the live weather shows again. */
  lemma ClickSelectsOrClears(c: Controls, w: WeatherPick, current: WeatherPick)
    ensures Selected(ClickChip(c, w), current) == w
            || (c.weatherOverride == Some(w) && Selected(ClickChip(c, w), current) == current)
  {
  }

  /** Clicking the same chip twice restores the panel exactly when the override
      was unset or already that chip; from another override it ends unset. */
  lemma ClickTwice(c: Controls, w: WeatherPick)
    ensures ClickChip(ClickChip(c, w), w) == c <==> c.weatherOverride in {None, Some(w)}
    ensures ClickChip(ClickChip(c, w), w).weatherOverride.None? <==> c.weatherOverride != Some(w)
  {
  }

  /** "Auto time": back to the clock. */
  function AutoTime(c: Controls): (r: Controls)
    ensures forall live :: DialValue(r, live) == live
    ensures forall cur :: Selected(r, cur) == Selected(c, cur)
    ensures r.open == c.open
  {
    c.(manual := None)
  }

  /** "Auto weather": back to the live weather. */
  function AutoWeather(c: Controls): (r: Controls)
    ensures forall cur :: Selected(r, cur) == cur
    ensures forall live :: DialValue(r, live) == DialValue(c, live)
    ensures r.open == c.open
  {
    c.(weatherOverride := None)
  }

  /** "Reset": both at once. */
  function Reset(c: Controls): (r: Controls)
    ensures forall cur :: Selected(r, cur) == cur
    ensures forall live :: DialValue(r, live) == live
    ensures r.open == c.open
  {
    AutoWeather(AutoTime(c))
  }

  /** Reset is the two Auto buttons in either order, and pressing it again does nothing. */
  lemma ResetIsBothAutos(c: Controls)
    ensures Reset(c) == AutoTime(AutoWeather(c)) == AutoWeather(AutoTime(c))
    ensures Reset(Reset(c)) == Reset(c)
  {
  }

  /** Moving the dial sets the manual hour. */
  function SetManual(c: Controls, hour: real): (r: Controls)
    ensures forall live :: DialValue(r, live) == hour
    ensures forall cur :: Selected(r, cur) == Selected(c, cur)
    ensures r.open == c.open
  {
    c.(manual := Some(hour))
  }

  /** The dial shows the manual hour, or the live clock's hour when none is set. */
  function DialValue(c: Controls, liveHour: real): (v: real)
    ensures c.manual.Some? ==> v == c.manual.value
    ensures c.manual.None? ==> v == liveHour
  {
    c.manual.GetOr(liveHour)
  }

  /** The dial shows the last hour the visitor chose until "Auto time" or
      "Reset" hands it back to the clock; a manual hour followed by "Auto time"
      leaves no trace. */
  lemma DialShowsLastChoice(c: Controls, h: real, live: real)
    ensures DialValue(SetManual(c, h), live) == h
    ensures DialValue(AutoTime(c), live) == live && DialValue(Reset(c), live) == live
    ensures AutoTime(SetManual(c, h)) == AutoTime(c)
    ensures (forall l :: DialValue(c, l) == l) <==> c.manual.None?
  {
    if c.manual.Some? {
      assert DialValue(c, c.manual.value + 1.0) != c.manual.value + 1.0;
    }
  }

  /** Mouse-enter or focus on the dock opens the panel. */
  function OpenPanel(c: Controls): (r: Controls)
    ensures r.open
    ensures forall cur :: Selected(r, cur) == Selected(c, cur)
    ensures forall live :: DialValue(r, live) == DialValue(c, live)
  {
    c.(open := true)
  }

  /** The close button closes it. */
  function ClosePanel(c: Controls): (r: Controls)
    ensures !r.open
    ensures forall cur :: Selected(r, cur) == Selected(c, cur)
    ensures forall live :: DialValue(r, live) == DialValue(c, live)
  {
    c.(open := false)
  }

  /** Opening and closing only toggle the panel: closing an opened panel gives
      back a panel that was closed, with the same overrides. */
  lemma OpenCloseRoundTrip(c: Controls)
    requires !c.open
    ensures ClosePanel(OpenPanel(c)) == c
  {
  }

  /** The first render shows the live scene with the panel closed. */
  lemma InitialShowsLiveScene(cur: WeatherPick, live: real)
    ensures Selected(Initial, cur) == cur && DialValue(Initial, live) == live
    ensures ActiveChips(Initial, cur) == {ChipIndex(cur)}
    ensures !Initial.open
  {
    ExactlyOneChipActive(Initial, cur);
  }
}
