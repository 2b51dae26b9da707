/** The earlier self-sense screen: the same four expandable cards, with
    display-only grid items (no hand-off) and a chevron that points up on an
    open card and down on a closed one. */
module LegacySelfSenseScreen {
  import opened Accordion

  datatype Card = Card(id: string, title: string, captions: seq<string>)

  /** What one card renders: its grid captions (none when closed), footer
      label and chevron icon name. */
  datatype CardView = CardView(grid: seq<string>, footer: string, chevron: string)

  const Cards: seq<Card> := [
    Card("chronic", "Chronic Conditions", ["Diabetes", "Hypertension", "PCOS", "Thyroid", "Heart", "Obesity"]),
    Card("cancer", "Cancer Awareness", ["Breast", "Lung", "Oral"]),
    Card("mental", "Mental Wellbeing", ["Stress", "Sleep", "Mood"]),
    Card("sensory", "Hearing & Sensory Health", ["Hearing", "Tinnitus", "Vision"])]

  /** The chevron icon for an open or closed card. */
  function Chevron(open: bool): (name: string)
    ensures name == "chevron-up" <==> open
    ensures name == "chevron-down" <==> !open
  {
    if open then "chevron-up" else "chevron-down"
  }

  /** `HealthCard`: open exactly when it is the expanded card; the grid is
      rendered only then, and footer and chevron follow the same state. */
  function RenderCard(card: Card, expanded: Expanded): (v: CardView)
    ensures v.grid == (if IsOpen(expanded, card.id) then card.captions else [])
    ensures IsOpen(expanded, card.id) ==> v.footer == "Close Checks" && v.chevron == "chevron-up"
    ensures !IsOpen(expanded, card.id) ==> v.footer == "Explore Checks" && v.chevron == "chevron-down"
  {
    var open := IsOpen(expanded, card.id);
    CardView(if open then card.captions else [], FooterLabel(open), Chevron(open))
  }

  /** Whatever card is expanded, at most one of the four cards renders its grid. */
  lemma AtMostOneGridRendered(expanded: Expanded)
    ensures forall i, j :: 0 <= i < |Cards| && 0 <= j < |Cards| && i != j ==>
              |RenderCard(Cards[i], expanded).grid| == 0 || |RenderCard(Cards[j], expanded).grid| == 0
  {
    forall i, j | 0 <= i < |Cards| && 0 <= j < |Cards| && i != j
      ensures |RenderCard(Cards[i], expanded).grid| == 0 || |RenderCard(Cards[j], expanded).grid| == 0
    {
      assert Cards[i].id != Cards[j].id;
    }
  }

  /** Tapping a card's footer flips that card's grid, footer and chevron
      together and closes every other card. */
  lemma TapFlipsOnlyThatCard(expanded: Expanded, k: int)
    requires 0 <= k < |Cards|
    ensures var after := ToggleCard(expanded, Cards[k].id);
            && (RenderCard(Cards[k], after).footer == "Close Checks" <==> RenderCard(Cards[k], expanded).footer != "Close Checks")
            && (RenderCard(Cards[k], after).chevron == "chevron-up" <==> RenderCard(Cards[k], expanded).chevron != "chevron-up")
            && forall j :: 0 <= j < |Cards| && j != k ==> RenderCard(Cards[j], after).grid == []
  {
    forall j | 0 <= j < |Cards| && j != k ensures Cards[j].id != Cards[k].id {
    }
  }
}
