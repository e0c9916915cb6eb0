/** The sky's colour theme per phase of the day (`THEME`): a top-to-bottom
    gradient, the colour of the sun or moon's glow, and the text colour. */
module SkyTheme {
  import Celestial

  datatype Theme = Theme(grad: seq<string>, glow: string, text: string)

  const White: string := "#FFFFFF"
  const Slate: string := "#2c3e50"

  function ThemeOf(p: Celestial.Phase): (t: Theme)
    ensures 4 <= |t.grad| <= 5
    ensures |t.grad| == 5 <==> p in {Celestial.Dawn, Celestial.Dusk}
    ensures t.text == White <==> p in {Celestial.Dawn, Celestial.Dusk, Celestial.Night}
    ensures t.text == Slate <==> p in {Celestial.Morning, Celestial.Day, Celestial.Afternoon}
  {
    match p
    case Dawn => Theme(["#FFD36E", "#FF6F48", "#A0409B", "#5A2F87", "#352267"], "#FFA52A", White)
    case Morning => Theme(["#FFD700", "#F0E68C", "#87CEFA", "#4682B4"], "#FFD700", Slate)
    case Day => Theme(["#E0F6FF", "#89CFF0", "#007FFF", "#0059B2"], "#FFFFE0", Slate)
    case Afternoon => Theme(["#FFA500", "#FFC700", "#4169E1", "#483D8B"], "#FFCA28", Slate)
    case Dusk => Theme(["#FFB347", "#FF9037", "#E16A34", "#5C2E7F", "#34175A"], "#FF9A3C", White)
    case Night => Theme(["#020824", "#03133D", "#06246A", "#0C338E"], "#F9F5B1", White)
  }

  /** Whenever any star is visible, the theme's text is white. */
  lemma StarsOnlyUnderWhiteText(now: int, d: Celestial.SolarDay)
    requires Celestial.StarOpacity(now, d) > 0.0
    ensures ThemeOf(Celestial.Classify(now, d)).text == White
  {
  }
}
