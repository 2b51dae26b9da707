/** The single-slot "expanded card" state shared by both self-sense screens:
    at most one card is expanded, and tapping a card's footer expands it or,
    if it already is, collapses it. */
module Accordion {
  import opened Wrappers

  /** The expanded card's id, or none (`null`). */
  type Expanded = Option<string>

  const Collapsed: Expanded := None

  predicate IsOpen(expanded: Expanded, cardId: string) {
    expanded == Some(cardId)
  }

  /** `toggleCard(id)`. */
  function ToggleCard(expanded: Expanded, id: string): (r: Expanded)
    ensures IsOpen(r, id) <==> !IsOpen(expanded, id)
    ensures forall other :: other != id ==> !IsOpen(r, other)
    ensures r.None? <==> IsOpen(expanded, id)
  {
    if expanded == Some(id) then None else Some(id)
  }

  /** No two different cards are open at once. */
  lemma AtMostOneOpen(expanded: Expanded, a: string, b: string)
    requires IsOpen(expanded, a) && IsOpen(expanded, b)
    ensures a == b
  {
  }

  /** The footer's label for an open or closed card. */
  function FooterLabel(open: bool): (s: string)
    ensures s == "Close Checks" <==> open
    ensures s == "Explore Checks" <==> !open
  {
    if open then "Close Checks" else "Explore Checks"
  }
}
