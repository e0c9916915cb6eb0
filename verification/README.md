# Scene state of the portfolio site, in Dafny

The site paints an animated sky, ambient sounds and weather effects behind
its pages. How it looks at any moment comes from a small body of
deterministic logic:

- the solar phase of the current instant;
- the weather class of a condition string and the season of a month;
- the flags, channels and overlays those feed.

This project models that logic as pure Dafny functions over immutable
datatypes and proves what it promises. Three inputs that the site takes from
its environment are passed in as parameters:

- the wall-clock time, as integer milliseconds;
- the sunrise and sunset instants of yesterday, today and tomorrow, which the
  site gets from the SunCalc library;
- every `Math.random()` draw, as a real in [0,1).

Arithmetic on reals is exact; where double rounding could matter, "## Left out" says so.

Modules follow the site's files:

| module | file | what it holds |
|---|---|---|
| `Celestial` | hooks/celestialPosition.ts | phase classification, star opacity, arc anchors and progress, the refresh schedule |
| `Weather` | utils/weather.ts | case-insensitive substring classification of the condition text, month → season |
| `App` | App.tsx | the rain/leaves flags, the coarse time of day, the text colours |
| `AmbientSounds` | components/AmbientSounds.tsx | the two audio channels (birds, crickets), the stop/fade/play transitions, the easing curve |
| `SceneControls` | components/SceneControls.tsx | the manual time and weather overrides, the chips, the panel |
| `Clouds` | components/Clouds.tsx | the cloud generator |
| `Leaf` | components/Leaf.tsx | the leaf season, palette, generator and blast force |
| `SkyTheme` | constants/dynamicSky.ts | the colour theme of each phase |
| `DynamicSky` | components/DynamicSky.tsx | gradient stops, background, star field |
| `SkillsSection` | components/SkillsSection.tsx | scroll arrows, panning, hover scroll, the active group, accents |
| `DaySplit` | App.tsx, components/AmbientSounds.tsx, components/SkillsSection.tsx | how the day/night tests of the page, the sounds and the skills section agree |

`Wrappers` supplies `Option`, which stands for JavaScript's `null`,
`undefined` and NaN. `RealArith` holds small lemmas about real arithmetic
that the other proofs share.

Three facts about the code shape the model:

- `App.tsx` draws a fresh random number on every weather update: clouds mean
  rain below 0.5, and leaves show below 0.4 whatever the season.
  `App.OnWeather` models this.
- `App.tsx` reads the coarse day/night from a `visible` field that the
  position hook never sets (see Findings).
- For an arc of zero length, the code's progress at the arc's own instant is
  0/0, which is NaN, and `Celestial.Progress` returns `None` for it. At any
  other instant it is ±Infinity, which the clamp turns into 0 or 1.

## Model

| member | source | states |
|---|---|---|
| Celestial.WindowsOf | hooks/celestialPosition.ts:43-48 | the dawn and dusk windows are each 2 h wide and centred on sunrise and sunset (both pads are 1 h) |
| Celestial.Classify | hooks/celestialPosition.ts:50-59 | the phase is the first band, in the order dawn, morning, day, afternoon, dusk, that contains the instant; no earlier band contains it; night means no band contains it |
| Celestial.ClassifyIsBand | hooks/celestialPosition.ts:54-59 | when daylight lasts at least 6 h, the phase is p exactly when the instant lies in p's band; night is outside every band |
| Celestial.PhasesInOrder | hooks/celestialPosition.ts:54-59 | between dawn start and dusk end the phase is never night, and it only moves forward through dawn → morning → day → afternoon → dusk as time rises |
| Celestial.ShortDaylightHasNoDay | hooks/celestialPosition.ts:56-57 | with less than 6 h of daylight no instant is classified as day |
| Celestial.StarOpacity | hooks/celestialPosition.ts:51-59 | opacity lies in [0,1]: 0 in morning, day and afternoon; 1 at night; at dawn the remaining share of the dawn window, which is above 0; at dusk the elapsed share of the dusk window, which is below 1 |
| Celestial.DawnStarsNonIncreasing | hooks/celestialPosition.ts:54 | stars fade out during dawn: a later dawn instant never has more |
| Celestial.DuskStarsNonDecreasing | hooks/celestialPosition.ts:59 | stars fade in during dusk: a later dusk instant never has fewer |
| Celestial.ArcAnchors | hooks/celestialPosition.ts:61-73 | daylight phases use sunrise → sunset; night after dusk end uses dusk end → tomorrow's dawn start; night before it uses yesterday's dusk end → today's dawn start |
| Celestial.NightArcSpansMidnight | hooks/celestialPosition.ts:64-68 | the evening part of a night and the morning part of the next night pick the same arc, and that arc ends at an instant classified as dawn |
| Celestial.Clamp01 | hooks/celestialPosition.ts:75 | the clamp lands in [0,1] and leaves values already in [0,1] unchanged |
| Celestial.Progress | hooks/celestialPosition.ts:75-76 | progress is NaN (None) exactly for a zero-length arc at its own instant; otherwise it lies in [0,1], is the elapsed share inside a proper arc, and is 0 before and 1 after it |
| Celestial.ProgressMonotone | hooks/celestialPosition.ts:75-76 | along a proper arc, progress never decreases as time rises |
| Celestial.Update | hooks/celestialPosition.ts:50-84 | the published state has the phase of the instant and its star opacity; x is 100 times the clamped elapsed share of the instant's arc (sunrise → sunset in every daylight phase), so it lies in [0,100]; x is a number whenever the three days' sunrises and sunsets are in order |
| Celestial.SunCrossesSky | hooks/celestialPosition.ts:61-79 | through the daylight phases the sun never moves back: x is 0 at sunrise, 100 at sunset, and never decreases in between |
| Celestial.LastUpdate | hooks/celestialPosition.ts:87-91 | the state is refreshed every 60 s only when the override is exactly null; with an omitted or a numeric override it is computed once each time the effect runs (at mount, or when the override changes) |
| Celestial.OmittedOverrideGoesStale | hooks/celestialPosition.ts:88 | an omitted override is not an override, yet after two minutes its state still dates from mount |
| Celestial.LastUpdateIntended | hooks/celestialPosition.ts:29 | corrected schedule: every instant without a numeric override is at most 60 s stale; a numeric override is computed once |
| Celestial.IntendedRefreshTreatsOmittedAsNull | hooks/celestialPosition.ts:20 | under the corrected schedule an omitted override behaves exactly like null, and null behaves as it does in the code |
| Weather.Lower | utils/weather.ts:21 | lower-casing keeps the length and maps each character on its own |
| Weather.LowerIdempotent | utils/weather.ts:21 | lower-casing twice is lower-casing once |
| Weather.Contains | utils/weather.ts:23-25 | the substring test holds exactly when the pattern occurs at some position |
| Weather.MissingCharNotContained | utils/weather.ts:23-25 | a pattern with a character the text lacks does not occur in it |
| Weather.KindOf | utils/weather.ts:22-25 | snow exactly when the text mentions "snow"; rain exactly when it mentions "rain" or "drizzle" but not "snow"; clouds exactly when it mentions "cloud" and none of those; clear otherwise, matching case-insensitively |
| Weather.MissingConditionIsClear | utils/weather.ts:21 | a missing or empty condition is classified clear |
| Weather.KindIgnoresCase | utils/weather.ts:21 | classifying the lower-cased text gives the same kind as classifying the text |
| Weather.RainBeatsClouds | utils/weather.ts:24 | "light rain and clouds" is rain: rain outranks clouds |
| Weather.SnowBeatsRain | utils/weather.ts:23 | "Snow and Rain" is snow: snow outranks rain |
| Weather.DrizzleIsRain | utils/weather.ts:24 | "Drizzle" is rain |
| Weather.CloudsIsClouds | utils/weather.ts:25 | "Clouds" is clouds |
| Weather.SeasonOf | utils/weather.ts:27-31 | every month 0–11 has one season: winter {11,0,1}, spring {2,3,4}, summer {5,6,7}, autumn {8,9,10} |
| Weather.Interpret | utils/weather.ts:21-35 | a reply yields weather exactly when it carries a temperature; the weather has that temperature, the kind of its condition and the month's season; a failed request yields null |
| Weather.SeasonIgnoresReply | utils/weather.ts:27-32 | the season depends only on the month, never on the reply |
| App.Raining | App.tsx:82-89 | it rains exactly for rain, or for clouds with a draw below 0.5; App.RainFollowsCondition states it in terms of the reported condition text |
| App.RainFollowsCondition | App.tsx:82-89 | from the condition text: it rains exactly when the text mentions rain or drizzle and not snow, or mentions clouds and not snow with a draw below 0.5 |
| App.OnWeather | App.tsx:79-100 | null weather changes nothing; otherwise rain follows the weather; rain hides the leaves; without rain a draw below 0.4 shows them, and any other draw keeps the previous value |
| App.Run | App.tsx:79-100 | a run of `null` weather replies leaves both flags as they were |
| App.RainFollowsLatestReport | App.tsx:79-91 | after any run of updates the rain flag is the one the latest non-null report decided; `null` replies after it do not touch it |
| App.RunStaysExclusive | App.tsx:91-99 | from a state without both flags, no sequence of weather updates ever both rains and shows leaves |
| App.InitialRunStaysExclusive | App.tsx:76-77 | from the initial state (both flags off) rain and leaves are never on together |
| App.LeavesStickWithoutRain | App.tsx:93-96 | once shown, leaves stay through any sequence of updates in which it does not rain |
| App.TimeOfDayFromVisible | App.tsx:73 | the app's time of day is day exactly when `visible` is "sun"; with App.VisibleOf, App.AppTimeOfDayAlwaysNight shows it is never day |
| App.VisibleOf | App.tsx:73 | the position hook's state never reads as "sun": its declared `visible` field is never set |
| App.AppTimeOfDayAlwaysNight | App.tsx:73 | the hook never sets its declared `visible` field, so the app's time of day is night for every state, the initial one included |
| App.CoarseTimeOfDay | App.tsx:73 | corrected derivation: day exactly in the day phase; App.IntendedTimeOfDayVaries and DaySplit.DayTestsAgree relate it to the hook and to the site's other day tests |
| App.IntendedTimeOfDayVaries | App.tsx:73 | with more than 6 h of daylight, the corrected derivation gives day three hours after sunrise and night at sunset |
| App.PaletteOf | App.tsx:103-113 | the body background and the three text colours for a time of day; every text colour stands apart from the background and from the other two |
| App.PaletteDistinguishesTime | App.tsx:22 | the body background differs between day and night, and so does each text colour of App.PaletteOf, so the palette determines the time of day and vice versa |
| AmbientSounds.IsNightPhases | components/AmbientSounds.tsx:14 | every phase other than day, including dawn, morning and afternoon, counts as night |
| AmbientSounds.DesiredKey | components/AmbientSounds.tsx:112-116 | night wins whatever the snow; mute exactly on a snowy day; birds exactly on a day without snow; AmbientSounds.DesiredKeyFollowsPhase states it from the phase |
| AmbientSounds.DesiredKeyFollowsPhase | components/AmbientSounds.tsx:14 | from the phase: crickets in every phase but day, birds exactly on a snowless day, silence exactly on a snowy day |
| AmbientSounds.StopNow | components/AmbientSounds.tsx:37-51 | a stopped channel is paused, muted, silent and rewound; no later animation tick or ready event changes it |
| AmbientSounds.FadeTo | components/AmbientSounds.tsx:53-79 | a fade replaces any earlier one and changes nothing else at once; its first tick keeps the current volume, every later tick stays between that volume and the target, and the fade ends exactly after 350 ms (targets outside [0,1] are under Left out) |
| AmbientSounds.EnsurePlay | components/AmbientSounds.tsx:81-110 | the channel becomes audible; a ready channel starts fading to the target at once; otherwise a listener waits to start that fade |
| AmbientSounds.OnReady | components/AmbientSounds.tsx:101-105 | a pending listener, when the audio is ready, plays, starts its fade and removes itself; with none pending nothing happens |
| AmbientSounds.ReadyListenerCompletesPlay | components/AmbientSounds.tsx:91-108 | a play request that waits for the element ends, on the ready event, in the same state as one that found the element ready |
| AmbientSounds.FadeProgress | components/AmbientSounds.tsx:64 | fade progress lies in [0,1] and reaches 1 exactly when 350 ms have elapsed |
| AmbientSounds.Eased | components/AmbientSounds.tsx:65 | the easing as written stays in [0,1] for progress in [0,1] |
| AmbientSounds.FadeVolume | components/AmbientSounds.tsx:66 | each tick's volume lies between the fade's start and target volumes |
| AmbientSounds.Tick | components/AmbientSounds.tsx:63-76 | without a fade nothing changes; the volume stays between start and target; the fade ends exactly after 350 ms; a finished fade to 0 pauses, mutes and rewinds (volumes outside [0,1] are under Left out) |
| AmbientSounds.FadeEndsHalfway | components/AmbientSounds.tsx:65-66 | as written, a finished fade stops at the midpoint of start and target, never at the target when they differ: the easing is 1 at half time and 0.5 at the end |
| AmbientSounds.EasedIntended | components/AmbientSounds.tsx:65 | corrected easing: in [0,1], 0 at the start and 1 at the end |
| AmbientSounds.EasedIntendedMonotone | components/AmbientSounds.tsx:65 | the corrected easing never decreases |
| AmbientSounds.FadeVolumeIntended | components/AmbientSounds.tsx:66 | with the corrected easing each volume lies between start and target, and a finished fade lands on the target |
| AmbientSounds.MountedIsSilent | components/AmbientSounds.tsx:145-153 | freshly mounted elements are muted, so nothing is audible, no key is applied and audio is not started |
| AmbientSounds.ApplyDesired | components/AmbientSounds.tsx:118-139 | the current key becomes the desired key; birds play and crickets stop for day, the reverse for night, both stop for mute; the played channel fades to `volume` at once when ready, or leaves a listener that will; at most one channel is audible |
| AmbientSounds.Unlock | components/AmbientSounds.tsx:179-181 | as written, the first interaction marks audio started and applies the key of the first render, whose phase is always day: birds heading to the mount-time volume, or silence for a snowy mount, never crickets; at most one channel is audible |
| AmbientSounds.NightVisitUnlocksBirds | components/AmbientSounds.tsx:179-181 | in every phase but day the scene asks for crickets, yet after a blocked autoplay the first click starts the birds and stops the crickets |
| AmbientSounds.UnlockIntended | components/AmbientSounds.tsx:179-181 | corrected unlock: marks audio started and applies the key of the current phase and props, the played channel heading to the current volume, with at most one channel audible |
| AmbientSounds.IntendedUnlockFollowsPhase | components/AmbientSounds.tsx:221-225 | the corrected unlock leaves crickets audible exactly when the phase is not day and birds exactly on a snowless day, and it agrees with the code while the phase is still the mount-time one |
| AmbientSounds.Reapply | components/AmbientSounds.tsx:221-225 | before start nothing changes; an unchanged key changes nothing; otherwise the new key is applied as AmbientSounds.ApplyDesired applies it, with at most one channel audible |
| AmbientSounds.ReapplyIdempotent | components/AmbientSounds.tsx:221-225 | re-applying twice is re-applying once |
| AmbientSounds.OnVolume | components/AmbientSounds.tsx:227-234 | a volume change re-fades only the channel of the current key, only after start, and leaves the other channel alone |
| AmbientSounds.OnVolumeKeepsStopped | components/AmbientSounds.tsx:227-234 | while muted for snow, a volume change changes nothing |
| AmbientSounds.Unmount | components/AmbientSounds.tsx:209-218 | unmounting pauses both channels and cancels their fades and ready listeners |
| AmbientSounds.NothingFiresAfterUnmount | components/AmbientSounds.tsx:209-218 | after unmount no tick and no ready event changes either channel |
| SceneControls.Selected | components/SceneControls.tsx:167 | the selected weather is the override when set, the live weather otherwise; SceneControls.OverrideBeatsLiveWeather states when the live weather matters |
| SceneControls.OverrideBeatsLiveWeather | components/SceneControls.tsx:167 | the selection ignores the live weather exactly when an override is set |
| SceneControls.ChipIndex | components/SceneControls.tsx:160-166 | every weather pick has exactly one chip in the options list |
| SceneControls.ActiveChips | components/SceneControls.tsx:199 | a chip is active exactly when its pick is the selected weather; SceneControls.ExactlyOneChipActive shows only one is |
| SceneControls.ExactlyOneChipActive | components/SceneControls.tsx:199 | exactly one chip is active, the one of the selected weather |
| SceneControls.ClickChip | components/SceneControls.tsx:200 | clicking a chip other than the current override makes it the only active chip whatever the live weather; clicking the current override hands the selection back to the live weather; the dial and the panel are untouched |
| SceneControls.ClickSelectsOrClears | components/SceneControls.tsx:200 | after a click the clicked weather is selected, unless the click cleared the override and the live weather shows |
| SceneControls.ClickTwice | components/SceneControls.tsx:200 | two clicks on one chip restore the controls exactly when the override was unset or that chip |
| SceneControls.AutoTime | components/SceneControls.tsx:156 | after "Auto time" the dial follows the live clock; the weather selection and the panel are unchanged |
| SceneControls.AutoWeather | components/SceneControls.tsx:157 | after "Auto weather" the live weather is selected; the dial and the panel are unchanged |
| SceneControls.Reset | components/SceneControls.tsx:176 | after Reset the live weather is selected and the dial follows the clock; the panel is kept as it was |
| SceneControls.ResetIsBothAutos | components/SceneControls.tsx:176 | Reset is "Auto time" and "Auto weather" in either order, and resetting twice is resetting once |
| SceneControls.SetManual | components/SceneControls.tsx:187 | after moving the dial it shows the chosen hour whatever the clock says; the weather selection and the panel are unchanged |
| SceneControls.DialValue | components/SceneControls.tsx:186 | the dial shows the manual hour when set, the live hour otherwise; SceneControls.DialShowsLastChoice relates it to the dial's buttons |
| SceneControls.DialShowsLastChoice | components/SceneControls.tsx:186-190 | the dial shows the last hour chosen until "Auto time" or Reset hands it back to the clock; a manual hour followed by "Auto time" leaves no trace; the dial follows the clock for every hour exactly when no manual hour is set |
| SceneControls.OpenPanel | components/SceneControls.tsx:170 | entering or focusing the dock opens the panel; the selected weather and the dial are unchanged |
| SceneControls.ClosePanel | components/SceneControls.tsx:177 | the close button closes the panel; the selected weather and the dial are unchanged |
| SceneControls.OpenCloseRoundTrip | components/SceneControls.tsx:170-177 | opening and then closing a closed panel restores the controls |
| SceneControls.InitialShowsLiveScene | components/SceneControls.tsx:141 | the panel starts closed; without overrides the live weather's chip is the only active one and the dial follows the clock |
| Clouds.MakeCloud | components/Clouds.tsx:49-59 | a cloud starts in [0,120) and drifts to −20 or 120, never where it started, towards the far edge; it lasts [2500,3000) s, is delayed by (−dur,0], sits at [−7,−1), is scaled [5,9), has opacity [0.2,0.3) and a valid preset index |
| Clouds.GenerateClouds | components/Clouds.tsx:45-63 | the generator yields no clouds unless the weather is non-null with kind clouds, and then exactly 100 well-formed ones, one per draw |
| Clouds.RendersOnlyWhenCloudy | components/Clouds.tsx:65 | the layer renders exactly when the weather is cloudy |
| Leaf.SeasonOfMonth | components/Leaf.tsx:28-34 | every month 0–11 has one leaf season: Summer {2,3,4}, Monsoon {5..8}, Autumn {9,10}, Winter {11,0,1} |
| Leaf.Palette | components/Leaf.tsx:9-25 | every season's palette has at least two colours |
| Leaf.ScaledIndex | components/Leaf.tsx:107 | floor(r · n) for a draw r in [0,1) is a valid index into n items |
| Leaf.PickColour | components/Leaf.tsx:107 | the picked colour belongs to the season's palette |
| Leaf.MakeLeaf | components/Leaf.tsx:90-107 | a leaf's size lies in [15,35), its height is 0.8 of it and lies in [12,28), and its colour comes from the palette |
| Leaf.GenerateLeaves | components/Leaf.tsx:87-109 | exactly 5 leaves, the i-th made by Leaf.MakeLeaf from the i-th draw in the current month's season: each sized in [15,35) with a height of 0.8 of its size, coloured from the season's palette |
| Leaf.BlastForce | components/Leaf.tsx:140-141 | no force at 250 px or farther; closer, a push in (0, 0.1] |
| Leaf.BlastWeakensWithDistance | components/Leaf.tsx:141 | a nearer leaf is pushed at least as hard as a farther one |
| SkyTheme.ThemeOf | constants/dynamicSky.ts:3-34 | every phase has a theme; gradients have 4 or 5 colours, 5 exactly at dawn and dusk; text is white exactly at dawn, dusk and night and `#2c3e50` exactly in morning, day and afternoon |
| SkyTheme.StarsOnlyUnderWhiteText | constants/dynamicSky.ts:7-32 | whenever any star shows, the theme's text is white |
| DynamicSky.StopOffset | components/DynamicSky.tsx:86 | each stop offset lies in [0,100]; the first is 0 and the last is 100 |
| DynamicSky.StopOffsetIncreasing | components/DynamicSky.tsx:86 | a later stop has a strictly larger offset |
| DynamicSky.StopOffsets | components/DynamicSky.tsx:85-87 | one stop per colour, from 0 to 100, strictly increasing |
| DynamicSky.Background | components/DynamicSky.tsx:81 | the background is a colour of the phase's gradient |
| DynamicSky.BackgroundIsBottomStop | components/DynamicSky.tsx:81 | the background is the gradient's colour at offset 100 |
| DynamicSky.MakeStar | components/DynamicSky.tsx:56-59 | a star has cx in [0,100), cy in [0,80), radius in [0.5,1.5) and twinkle delay in [0,5) s |
| DynamicSky.GenerateStars | components/DynamicSky.tsx:53-62 | exactly 150 stars, each made from its own draws and inside those bounds |
| DynamicSky.Render | components/DynamicSky.tsx:72-99 | the sky shows the theme's gradient and glow, stops ending at 100, the last colour as background, the hook's star opacity, and the hook's x for the sun whenever it is a number |
| DynamicSky.StarLayerFollowsPhase | components/DynamicSky.tsx:99 | the star layer is fully opaque at night and invisible in morning, day and afternoon |
| SkillsSection.ArrowsOf | components/SkillsSection.tsx:211-217 | an arrow shows only when content is hidden on its side: the left one exactly when the strip overflows and is scrolled more than 5 px, the right one exactly when more than 5 px remain on the right; a strip that fits shows neither |
| SkillsSection.NoOverflowNoArrows | components/SkillsSection.tsx:214-216 | a strip without overflow shows no arrow |
| SkillsSection.OverflowShowsAnArrow | components/SkillsSection.tsx:214-216 | a strip overflowing by more than 10 px shows some arrow wherever it is scrolled; at its left end only the right arrow, at its right end only the left arrow |
| SkillsSection.Pan | components/SkillsSection.tsx:234-243 | an arrow click scrolls by 0.7 of the visible width, leftwards for the left arrow, so it always moves a visible strip and keeps part of the old view in sight |
| SkillsSection.PanIsSymmetric | components/SkillsSection.tsx:237-240 | the two arrows pan by the same distance in opposite directions |
| SkillsSection.HoverScroll | components/SkillsSection.tsx:245-271 | nothing happens once the pointer has left; a chip cut off on the left scrolls to 15 px before it, and the left edge takes precedence; a scroll to the right moves by more than 15 px; a fully visible chip causes no scroll, and only such a chip |
| SkillsSection.HoverRevealsChip | components/SkillsSection.tsx:257-268 | after the hover scroll, a chip that fits in the strip with its 15 px gap is fully visible |
| SkillsSection.Enter | components/SkillsSection.tsx:350 | after entering or focusing a group its title is the only highlighted one |
| SkillsSection.Leave | components/SkillsSection.tsx:351 | after leaving or blurring a group its title is not highlighted, and every other title keeps its state |
| SkillsSection.EnterLeave | components/SkillsSection.tsx:350-355 | entering then leaving a group clears the highlight; a late leave of another group keeps the entered one; at most one title is highlighted |
| SkillsSection.IsDay | components/SkillsSection.tsx:303 | the section is in its day look exactly in the day phase; DaySplit.DayTestsAgree shows the ambient sounds and the corrected page colours use the same split |
| SkillsSection.AccentsOf | components/SkillsSection.tsx:307-323 | the day accents are used exactly in the day look, the night accents otherwise; DaySplit.AccentsMatchScene ties them to the page colours and the ambient channel |
| DaySplit.DayTestsAgree | components/SkillsSection.tsx:303 | the section's day test, the ambient sounds' night test negated and the corrected page time of day all coincide with the day phase |
| DaySplit.AccentsMatchScene | components/SkillsSection.tsx:307-323 | the section shows its day accents exactly when the corrected page palette is the day one and a snowless scene asks for birds, and its night accents exactly when the scene asks for crickets |

## Left out

- SunCalc's solar-position calculation (hooks/celestialPosition.ts:38-40) is a foreign library. Sunrise and sunset for the three days are parameters.
- The location constant (hooks/celestialPosition.ts:17) only feeds SunCalc.
- Three parts of the hook are trigonometry or Date mutation, so they are not modelled:
  - the sine-shaped arc height `y` (hooks/celestialPosition.ts:80-82);
  - the initial `y: 15`;
  - the conversion of a manual hour into an instant with `setHours` (hooks/celestialPosition.ts:29-31).
- The interval timer itself is not modelled; `Celestial.LastUpdate` models only when the last refresh happened.
- Network and geolocation are not modelled:
  - the `fetch` and JSON parsing in utils/weather.ts;
  - all of hooks/weather.ts, which is not part of this model.

  `Weather.Interpret` takes the already extracted condition, temperature and month.
- Weather.Interpret: treats a reply whose `main` block lacks a temperature like one without a `main` block (no weather). The code would instead return weather whose temperature is `undefined`.
- Weather.Lower: lower-cases ASCII letters only. JavaScript's `toLowerCase` also folds non-ASCII letters, which cannot change whether the ASCII words "snow", "rain", "drizzle" or "cloud" occur.
- Audio side effects are browser I/O and timers. Kept are the abstract channel state (volume, muted, paused, position, pending fade, pending listener) and the easing arithmetic. Left out:
  - `play()` promises;
  - the autoplay attempt at mount (`tryImmediate`, components/AmbientSounds.tsx:160-197), beyond its fallback `AmbientSounds.Unlock`; it applies the same mount-time key, so a visit at night whose autoplay succeeds also starts the birds, and the key-change effect, which ran while audio was not yet started, does not repair it;
  - the `visibilitychange` handler, which also applies the mount-time key while audio is not started;
  - `requestAnimationFrame` scheduling.
- utils/audio.ts (the URL lookup) is not part of this model.
- Rainfall.tsx and Snowfall.tsx wrap foreign libraries and are not part of this model.
- Leaf physics is not modelled. This covers the Matter.js world, gravity and the ground, the start position and angle draws, the animation loop, and the direction of the blast push.
- AmbientSounds.FadeTo: accepts any real target. A browser throws when a volume outside [0,1] is set, so a fade towards such a target stops at its first out-of-range tick and leaves its animation-frame id behind. The site passes no `volume` prop, so the target there is always 0.6.
- AmbientSounds.Tick: completes every fade normally and does not model the browser's throw for a volume outside [0,1].
- Leaf.BlastForce: models the magnitude only. The push direction divides by the distance and is NaN for a leaf exactly under the click.
- Clouds.MakeCloud: computes in exact real arithmetic. In double precision the largest draws below 1 can round up to the excluded upper bounds (a duration of 3000 s, a scale of 9, an opacity of 0.3).
- Leaf.MakeLeaf: computes in exact real arithmetic. In double precision the largest size draw below 1 can round the size up to 35 and the height to 28, which the half-open bounds exclude.
- DynamicSky.MakeStar: computes in exact real arithmetic. In double precision the largest radius draw below 1 can round the radius up to 1.5, which the half-open bound excludes.
- DynamicSky.Render: puts 0 for the sun's x when the hook's x is NaN (a zero-length arc at its own instant). The browser instead discards the `translate(NaNvw, …)` transform.
- DOM plumbing is not modelled: ResizeObserver and scroll listeners, mouse-position CSS variables, `useWindowWidth` and the glow's scaling.
- The `toFixed` label of the time dial (components/SceneControls.tsx:159) is float formatting and is not modelled.
- SkillsSection.HoverScroll: positions are not clamped to the scrollable range as a browser does.
- The 390 ms hover delay is a timer; whether the chip is still hovered when it fires is a parameter.
- Static content and styling are not part of this model: the hero, about, contact, projects, experience and interests sections, the section and reveal wrappers, the scroll hints, the branch header, cursor sprouts, and the skills, projects and contact constants.

## Findings

| source | as written | input that shows it | evidently intended | confidence | as-written member | corrected member |
|---|---|---|---|---|---|---|
| components/AmbientSounds.tsx:65-66 | the second half of the ease-in-out uses `(-2p+1)^2`, so the easing is 1 at p = 0.5 and falls back to 0.5 at p = 1 | a fade from 0 to 0.6: after 350 ms the volume is 0.3 and stays there | `(-2p+2)^2`, so the easing rises from 0 to 1 and the fade ends at its target | high; not executed | AmbientSounds.FadeEndsHalfway | AmbientSounds.FadeVolumeIntended |
| hooks/celestialPosition.ts:88 | the refresh is scheduled only for `overrideHour === null`, but App and AmbientSounds call the hook with no argument, so the override is `undefined` | `useCelestialPosition()` kept open for two minutes: the phase and stars are still those at mount | refresh whenever no numeric override is given (`== null`, as line 29 tests) | medium; not executed | Celestial.OmittedOverrideGoesStale | Celestial.IntendedRefreshTreatsOmittedAsNull |
| components/AmbientSounds.tsx:179-181 | the interaction listener is created by the mount effect, so the key it applies comes from the first render, where the position hook still reports `day` | a visit at night, whether its autoplay is blocked (the first click unlocks audio) or succeeds (the attempt at mount, lines 160-177): the birds start and the crickets stay silent | apply the key of the current phase, as the key-change effect does | medium; not executed | AmbientSounds.NightVisitUnlocksBirds | AmbientSounds.IntendedUnlockFollowsPhase |
| App.tsx:73 | the app's time of day tests `celestial.visible === 'sun'`, a field the hook never sets | any instant, e.g. noon on a long day: the text colours are the night ones | derive day/night from the phase (`timeOfDay === 'day'`) | high; not executed | App.AppTimeOfDayAlwaysNight | App.IntendedTimeOfDayVaries |

The two pads of 1 h (hooks/celestialPosition.ts:18) contradict the comment there, which says 1½ h. The model uses the value in the code.
