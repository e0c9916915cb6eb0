/** The pure part of `fetchWeather`: the weather category chosen from the
    provider's condition text, and the season chosen from the calendar month.
    The network request and JSON decoding are outside the model; the decoded
    response (or its absence) is the parameter. */
module Weather {
  import opened Wrappers

  datatype Kind = Clear | Clouds | Rain | Snow

  datatype Season = Spring | Summer | Autumn | Winter

  datatype WeatherInfo = WeatherInfo(kind: Kind, tempC: real, season: Season)

  /** Lower-casing of one character (ASCII letters only). */
  function LowerChar(c: char): char
  {
    if 'A' <= c <= 'Z' then (c as int + 32) as char else c
  }

  function Lower(s: string): (r: string)
    ensures |r| == |s|
    ensures forall i :: 0 <= i < |s| ==> r[i] == LowerChar(s[i])
  {
    seq(|s|, i requires 0 <= i < |s| => LowerChar(s[i]))
  }

  /** `p` occurs in `s` starting at position `i`. */
  ghost predicate OccursAt(s: string, p: string, i: int)
  {
    0 <= i && i + |p| <= |s| && s[i..i + |p|] == p
  }

  /** Substring search, the test a one-word regular expression performs. */
  function Contains(s: string, p: string): (b: bool)
    ensures b <==> exists i :: OccursAt(s, p, i)
    decreases |s|
  {
    if |p| > |s| then
      false
    else if s[..|p|] == p then
      assert OccursAt(s, p, 0);
      true
    else
      var r := Contains(s[1..], p);
      assert r ==> exists i :: OccursAt(s, p, i) by {
        if r {
          var i :| OccursAt(s[1..], p, i);
          assert s[1..][i..i + |p|] == s[i + 1..i + 1 + |p|];
          assert OccursAt(s, p, i + 1);
        }
      }
      assert (exists i :: OccursAt(s, p, i)) ==> r by {
        if exists i :: OccursAt(s, p, i) {
          var i :| OccursAt(s, p, i);
          assert i != 0;
          assert s[1..][i - 1..i - 1 + |p|] == s[i..i + |p|];
          assert OccursAt(s[1..], p, i - 1);
        }
      }
      r
  }

  /** The condition text mentions `word`, ignoring case. */
  ghost predicate Mentions(condition: string, word: string)
  {
    exists i :: OccursAt(Lower(condition), word, i)
  }

  /** `json.weather?.[0]?.main || ''`: a missing condition reads as empty text. */
  function ConditionText(main: Option<string>): string
  {
    main.GetOr("")
  }

  /** The category of a condition text, by priority: snow, then rain or
      drizzle, then clouds, otherwise clear. */
  function KindOf(condition: string): (k: Kind)
    ensures k == Snow <==> Mentions(condition, "snow")
    ensures k == Rain <==>
              !Mentions(condition, "snow")
              && (Mentions(condition, "rain") || Mentions(condition, "drizzle"))
    ensures k == Clouds <==>
              !Mentions(condition, "snow") && !Mentions(condition, "rain")
              && !Mentions(condition, "drizzle") && Mentions(condition, "cloud")
    ensures k == Clear <==>
              !Mentions(condition, "snow") && !Mentions(condition, "rain")
              && !Mentions(condition, "drizzle") && !Mentions(condition, "cloud")
  {
    var main := Lower(condition);
    if Contains(main, "snow") then Snow
    else if Contains(main, "rain") || Contains(main, "drizzle") then Rain
    else if Contains(main, "cloud") then Clouds
    else Clear
  }

  /** A missing or empty condition is clear weather. */
  lemma {:induction false} MissingConditionIsClear()
    ensures KindOf(ConditionText(None)) == Clear
    ensures KindOf("") == Clear
  {
    assert !Contains("", "snow") && !Contains("", "rain");
    assert !Contains("", "drizzle") && !Contains("", "cloud");
  }

  /** Lower-casing twice is lower-casing once. */
  lemma {:induction false} LowerIdempotent(s: string)
    ensures Lower(Lower(s)) == Lower(s)
  {
    assert forall i :: 0 <= i < |s| ==> LowerChar(LowerChar(s[i])) == LowerChar(s[i]);
  }

  /** Matching ignores case: a condition and its lower-cased form get the same category. */
  lemma {:induction false} KindIgnoresCase(condition: string)
    ensures KindOf(Lower(condition)) == KindOf(condition)
  {
    LowerIdempotent(condition);
  }

  /** A text lacking one of the pattern's characters does not contain the pattern. */
  lemma {:induction false} MissingCharNotContained(s: string, p: string, k: int)
    requires 0 <= k < |p| && p[k] !in s
    ensures !Contains(s, p)
  {
    forall i | 0 <= i
      ensures !OccursAt(s, p, i)
    {
      if i + |p| <= |s| {
        assert s[i..i + |p|][k] == s[i + k];
        assert s[i + k] in s;
      }
    }
  }

  /** Rain wins over clouds. */
  lemma {:induction false} RainBeatsClouds()
    ensures KindOf("light rain and clouds") == Rain
  {
    var t := "light rain and clouds";
    assert Lower(t) == t;
    assert OccursAt(t, "rain", 6);
    MissingCharNotContained(t, "snow", 3);
  }

  /** Snow wins over rain, whatever the letter case. */
  lemma {:induction false} SnowBeatsRain()
    ensures KindOf("Snow and Rain") == Snow
  {
    assert Lower("Snow and Rain") == "snow and rain";
    assert OccursAt("snow and rain", "snow", 0);
  }

  /** Drizzle counts as rain. */
  lemma {:induction false} DrizzleIsRain()
    ensures KindOf("Drizzle") == Rain
  {
    assert Lower("Drizzle") == "drizzle";
    assert OccursAt("drizzle", "drizzle", 0);
    MissingCharNotContained("drizzle", "snow", 0);
  }

  /** A bare "Clouds" condition is cloudy. */
  lemma {:induction false} CloudsIsClouds()
    ensures KindOf("Clouds") == Clouds
  {
    assert Lower("Clouds") == "clouds";
    assert OccursAt("clouds", "cloud", 0);
    MissingCharNotContained("clouds", "snow", 3);
    MissingCharNotContained("clouds", "rain", 0);
    MissingCharNotContained("clouds", "drizzle", 1);
  }

  /** Season of a calendar month (0 = January … 11 = December), with fixed
      Northern-hemisphere boundaries. */
  function SeasonOf(month: int): (s: Season)
    ensures 0 <= month < 12 ==> (s == Winter <==> month in {11, 0, 1})
    ensures 0 <= month < 12 ==> (s == Spring <==> month in {2, 3, 4})
    ensures 0 <= month < 12 ==> (s == Summer <==> month in {5, 6, 7})
    ensures 0 <= month < 12 ==> (s == Autumn <==> month in {8, 9, 10})
  {
    if month < 2 || month == 11 then Winter
    else if month < 5 then Spring
    else if month < 8 then Summer
    else Autumn
  }

  /** The part of the provider's JSON reply the source reads: the condition
      text of the first weather entry, and the `main` block's temperature
      (`None` when the reply has no `main` block, which makes reading
      `json.main.temp` throw). */
  datatype Payload = Payload(condition: Option<string>, temp: Option<real>)

  /** `fetchWeather` after the request: `reply` is `None` when the request or the
      JSON decoding failed; `month` is the current calendar month. */
  function Interpret(reply: Option<Payload>, month: int): (r: Option<WeatherInfo>)
    ensures r.Some? <==> reply.Some? && reply.value.temp.Some?
    ensures r.Some? ==> r.value.tempC == reply.value.temp.value
    ensures r.Some? ==> r.value.kind == KindOf(ConditionText(reply.value.condition))
    ensures r.Some? ==> r.value.season == SeasonOf(month)
  {
    match reply
    case None => None
    case Some(p) =>
      if p.temp.None? then None
      else
        var kind := KindOf(ConditionText(p.condition));
        var season := SeasonOf(month);
        Some(WeatherInfo(kind, p.temp.value, season))
  }

  /** The season depends on the month alone, never on the reply or its category. */
  lemma SeasonIgnoresReply(a: Payload, b: Payload, month: int)
    requires a.temp.Some? && b.temp.Some?
    ensures Interpret(Some(a), month).value.season == Interpret(Some(b), month).value.season
  {
  }
}
