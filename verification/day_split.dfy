/** The day/night split shared across the site: the skills section, the
    ambient sounds and the page colours each decide "day" on their own, and
    all three decisions agree with the phase hook's `day` phase. */
module DaySplit {
  import Celestial
  import App
  import AmbientSounds
  import SkillsSection

  /** The three day tests coincide for every phase. */
  lemma DayTestsAgree(p: Celestial.Phase)
    ensures SkillsSection.IsDay(p) <==> !AmbientSounds.IsNight(p)
    ensures SkillsSection.IsDay(p) <==> App.CoarseTimeOfDay(p) == App.DayTime
    ensures SkillsSection.IsDay(p) <==> Celestial.IsDaytime(p)
  {
  }

  /** The skills section shows its day accents exactly when the page takes its
      day colours from the phase and a snowless scene asks for birdsong; in
      every other phase it shows the night accents with the night colours and
      crickets. */
  lemma AccentsMatchScene(p: Celestial.Phase)
    ensures SkillsSection.AccentsOf(p) == SkillsSection.DayAccents <==>
              App.PaletteOf(App.CoarseTimeOfDay(p)) == App.PaletteOf(App.DayTime)
    ensures SkillsSection.AccentsOf(p) == SkillsSection.DayAccents <==>
              AmbientSounds.DesiredKey(AmbientSounds.IsNight(p), false) == AmbientSounds.DayKey
    ensures SkillsSection.AccentsOf(p) == SkillsSection.NightAccents <==>
              AmbientSounds.DesiredKey(AmbientSounds.IsNight(p), false) == AmbientSounds.NightKey
  {
    App.PaletteDistinguishesTime(App.CoarseTimeOfDay(p), App.DayTime);
  }
}
