/** The skills section: scroll arrows and panning of a group's chip strip, the
    scroll a hovered chip triggers, the active-group highlight, and the accent
    colours chosen by the time of day. Lengths are pixels; the browser's own
    clamping of scroll positions is not modelled. */
module SkillsSection {
  import opened Wrappers
  import Celestial

  /** Margin, in pixels, below which the strip counts as scrolled to an end. */
  const EndSlack: real := 5.0

  /** Gap kept between a chip and the strip's edge after a hover scroll. */
  const HoverGap: real := 15.0

  /** Share of the visible width one arrow click pans by. */
  const PanShare: real := 0.7

  /** A chip strip's scroll geometry. */
  datatype Strip = Strip(scrollWidth: real, clientWidth: real, scrollLeft: real)

  predicate Overflows(s: Strip)
  {
    s.scrollWidth > s.clientWidth
  }

  /** Which of the two scroll arrows are shown. */
  datatype Arrows = Arrows(left: bool, right: bool)

  function ArrowsOf(s: Strip): (a: Arrows)
    ensures a.left <==> Overflows(s) && s.scrollLeft > EndSlack
    ensures a.right <==> Overflows(s) && s.scrollLeft + s.clientWidth < s.scrollWidth - EndSlack
    ensures a.left ==> s.scrollLeft > 0.0
    ensures a.right ==> s.scrollLeft + s.clientWidth < s.scrollWidth
    ensures !Overflows(s) ==> !a.left && !a.right
  {
    var overflow := s.scrollWidth > s.clientWidth;
    Arrows(overflow && s.scrollLeft > 5.0, overflow && s.scrollLeft + s.clientWidth < s.scrollWidth - 5.0)
  }

  /** A strip whose content fits shows no arrow. */
  lemma NoOverflowNoArrows(s: Strip)
    requires s.scrollWidth <= s.clientWidth
    ensures ArrowsOf(s) == Arrows(false, false)
  {
  }

  /** A strip overflowing by more than both margins always shows some arrow,
      wherever it is scrolled; at its left end only the right arrow shows, at
      its right end only the left arrow. */
  lemma OverflowShowsAnArrow(s: Strip)
    requires s.scrollWidth - s.clientWidth > 2.0 * EndSlack
    requires 0.0 <= s.scrollLeft <= s.scrollWidth - s.clientWidth
    ensures ArrowsOf(s).left || ArrowsOf(s).right
    ensures s.scrollLeft == 0.0 ==> ArrowsOf(s) == Arrows(false, true)
    ensures s.scrollLeft == s.scrollWidth - s.clientWidth ==> ArrowsOf(s) == Arrows(true, false)
  {
  }

  datatype Direction = PanLeft | PanRight

  /** Horizontal distance one arrow click scrolls by. */
  function Pan(dir: Direction, clientWidth: real): (dx: real)
    requires clientWidth >= 0.0
    ensures dir == PanRight ==> dx >= 0.0
    ensures dir == PanLeft ==> dx <= 0.0
    ensures dx == PanShare * clientWidth || dx == -(PanShare * clientWidth)
    ensures clientWidth > 0.0 ==> dx != 0.0 && -clientWidth < dx < clientWidth
  {
    var amount := clientWidth * 0.7;
    if dir == PanLeft then -amount else amount
  }

  /** The two arrows pan by the same distance in opposite directions. */
  lemma PanIsSymmetric(clientWidth: real)
    requires clientWidth >= 0.0
    ensures Pan(PanLeft, clientWidth) == -Pan(PanRight, clientWidth)
    ensures Pan(PanRight, clientWidth) + Pan(PanLeft, clientWidth) == 0.0
  {
  }

  /** What the strip does once a chip has stayed hovered. */
  datatype HoverAction = NoScroll | ScrollTo(left: real) | ScrollBy(dx: real)

  /** A chip `[chipLeft, chipLeft + chipWidth]` inside the visible window. */
  predicate FullyVisible(chipLeft: real, chipWidth: real, scrollLeft: real, clientWidth: real)
  {
    scrollLeft <= chipLeft && chipLeft + chipWidth <= scrollLeft + clientWidth
  }

  /** The scroll a hovered chip triggers after the hover delay; nothing when the
      pointer has left the chip by then. The left edge takes precedence. */
  function HoverScroll(stillHovered: bool, chipLeft: real, chipWidth: real,
                       scrollLeft: real, clientWidth: real): (a: HoverAction)
    ensures !stillHovered ==> a == NoScroll
    ensures stillHovered && chipLeft < scrollLeft ==> a == ScrollTo(chipLeft - HoverGap)
    ensures a.ScrollBy? ==> a.dx > HoverGap
    ensures stillHovered && chipWidth >= 0.0 ==>
              (a == NoScroll <==> FullyVisible(chipLeft, chipWidth, scrollLeft, clientWidth))
  {
    if !stillHovered then NoScroll
    else
      var chipRight := chipLeft + chipWidth;
      var visibleRight := scrollLeft + clientWidth;
      if chipLeft < scrollLeft then ScrollTo(chipLeft - 15.0)
      else if chipRight > visibleRight then ScrollBy(chipRight - visibleRight + 15.0)
      else NoScroll
  }

  /** Scroll position after a hover action. */
  function Apply(a: HoverAction, scrollLeft: real): (s: real)
  {
    match a
    case NoScroll => scrollLeft
    case ScrollTo(x) => x
    case ScrollBy(dx) => scrollLeft + dx
  }

  /** After the hover scroll, a chip that fits with its gap is fully visible. */
  lemma HoverRevealsChip(chipLeft: real, chipWidth: real, scrollLeft: real, clientWidth: real)
    requires 0.0 <= chipWidth && chipWidth + HoverGap <= clientWidth
    ensures var a := HoverScroll(true, chipLeft, chipWidth, scrollLeft, clientWidth);
            FullyVisible(chipLeft, chipWidth, Apply(a, scrollLeft), clientWidth)
  {
  }

  /** The highlighted skill group, if any. */
  type ActiveGroup = Option<nat>

  /** A group's title is highlighted. */
  predicate TitleActive(g: ActiveGroup, i: nat)
  {
    g == Some(i)
  }

  /** Pointer enters, or focus moves into, group `i`. */
  function Enter(g: ActiveGroup, i: nat): (r: ActiveGroup)
    ensures forall j :: TitleActive(r, j) <==> j == i
  {
    Some(i)
  }

  /** Pointer or focus leaves group `i`: the highlight clears only if it is `i`'s. */
  function Leave(g: ActiveGroup, i: nat): (r: ActiveGroup)
    ensures g == Some(i) ==> r == None
    ensures g != Some(i) ==> r == g
    ensures forall j :: TitleActive(r, j) <==> TitleActive(g, j) && j != i
  {
    if g == Some(i) then None else g
  }

  /** Entering and leaving the same group clears the highlight; a late leave
      of the previous group keeps the newly entered one; at most one title is
      ever highlighted. */
  lemma {:induction false} EnterLeave(g: ActiveGroup, i: nat, j: nat)
    ensures Leave(Enter(g, i), i) == None
    ensures i != j ==> Leave(Enter(g, j), i) == Some(j)
    ensures TitleActive(g, i) && TitleActive(g, j) ==> i == j
  {
  }

  /** Accent colours of the section. */
  datatype Accents = Accents(accentStart: string, accentEnd: string, glow: string, chipGlow: string)

  const DayAccents := Accents("#ffdd80", "#ff9f43", "rgba(255,221,128,.18)", "rgba(255,221,128,.30)")
  const NightAccents := Accents("#7c3aed", "#6ee7ff", "rgba(124,58,237,.22)", "rgba(124,58,237,.28)")

  /** The section is in its day look only in the `Day` phase. */
  function IsDay(p: Celestial.Phase): (b: bool)
    ensures b <==> p == Celestial.Day
    ensures b == Celestial.IsDaytime(p)
  {
    p == Celestial.Day
  }

  function AccentsOf(p: Celestial.Phase): (a: Accents)
    ensures a == DayAccents <==> IsDay(p)
    ensures a == NightAccents <==> !IsDay(p)
  {
    if IsDay(p) then DayAccents else NightAccents
  }
}
