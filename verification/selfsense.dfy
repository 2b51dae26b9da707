/** The condition-selection screen: four expandable health cards, each with
    a grid of conditions; tapping a condition hands its id and label on to
    the personal-details screen, which passes them on to the questionnaire. */
module SelfSenseScreen {
  import opened Wrappers
  import opened Accordion
  import HealthCatalog
  import QuestionnaireSession

  datatype GridItem = GridItem(id: string, caption: string, icon: string)

  datatype Card = Card(id: string, title: string, items: seq<GridItem>)

  /** What one card renders: its grid (empty when closed), footer label,
      arrow rotation in degrees, and whether the active styling applies. */
  datatype CardView = CardView(grid: seq<GridItem>, footer: string, arrowDegrees: int, active: bool)

  /** The parameters the personal-details screen is opened with. */
  datatype DetailsParams = DetailsParams(conditionId: string, conditionName: string)

  const Cards: seq<Card> := [
    Card("chronic", "Chronic Conditions", [
      GridItem("diabetes", "Diabetes", "water"),
      GridItem("hypertension", "Hypertension", "heart-pulse"),
      GridItem("pcos", "PCOS", "record-circle-outline"),
      GridItem("thyroid", "Thyroid", "butterfly"),
      GridItem("heart", "Heart", "heart"),
      GridItem("obesity", "Obesity", "scale-bathroom")]),
    Card("cancer", "Cancer Awareness", [
      GridItem("breast_cancer", "Breast", "ribbon"),
      GridItem("lung_cancer", "Lung", "lungs"),
      GridItem("oral_cancer", "Oral", "emoticon-open-mouth"),
      GridItem("skin_cancer", "Skin", "theme-light-dark"),
      GridItem("prostate_cancer", "Prostate", "gender-male"),
      GridItem("colon_cancer", "Colon", "record-circle")]),
    Card("mental", "Mental Wellbeing", [
      GridItem("stress", "Stress", "brain"),
      GridItem("anxiety", "Anxiety", "weather-windy"),
      GridItem("sleep", "Sleep", "bed"),
      GridItem("burnout", "Burnout", "battery-alert"),
      GridItem("mood", "Mood", "emoticon-happy"),
      GridItem("focus", "Focus", "target")]),
    Card("sensory", "Sensory Health", [
      GridItem("hearing", "Hearing", "ear-hearing"),
      GridItem("tinnitus", "Tinnitus", "bell-off"),
      GridItem("vision", "Vision", "eye"),
      GridItem("smell", "Smell", "scent"),
      GridItem("taste", "Taste", "silverware-fork-knife"),
      GridItem("touch", "Touch", "fingerprint")])]

  /** `HealthCard`: a card is open exactly when it is the expanded one, and
      only an open card renders its grid. */
  function RenderCard(card: Card, expanded: Expanded): (v: CardView)
    ensures v.active <==> IsOpen(expanded, card.id)
    ensures v.grid == (if IsOpen(expanded, card.id) then card.items else [])
    ensures v.footer == FooterLabel(IsOpen(expanded, card.id))
    ensures v.arrowDegrees == (if IsOpen(expanded, card.id) then 180 else 0)
  {
    var open := IsOpen(expanded, card.id);
    CardView(if open then card.items else [], FooterLabel(open), if open then 180 else 0, open)
  }

  /** Every grid item rendered on the screen, card by card. */
  function RenderedItems(cards: seq<Card>, expanded: Expanded): seq<GridItem> {
    if |cards| == 0 then [] else RenderCard(cards[0], expanded).grid + RenderedItems(cards[1..], expanded)
  }

  /** `handleConditionSelect`: the tapped item's id and label (its caption), unchanged. */
  function HandleConditionSelect(item: GridItem): (p: DetailsParams)
    ensures p.conditionId == item.id && p.conditionName == item.caption
  {
    DetailsParams(item.id, item.caption)
  }

  /** Only the expanded card's items can be tapped: with distinct card ids,
      the rendered items are exactly that card's items, or none. */
  lemma {:induction false} OnlyExpandedCardRendersGrid(cards: seq<Card>, expanded: Expanded, k: int)
    requires forall i, j :: 0 <= i < j < |cards| ==> cards[i].id != cards[j].id
    requires 0 <= k < |cards| && IsOpen(expanded, cards[k].id)
    ensures RenderedItems(cards, expanded) == cards[k].items
  {
    if k == 0 {
      NoOtherCardRenders(cards[1..], expanded);
    } else {
      assert !IsOpen(expanded, cards[0].id);
      assert cards[1..][k - 1] == cards[k];
      OnlyExpandedCardRendersGrid(cards[1..], expanded, k - 1);
    }
  }

  /** On the shipped screen, an expanded card's items are the only ones rendered. */
  lemma ShippedCardsRenderOnlyExpanded(expanded: Expanded, k: int)
    requires 0 <= k < |Cards| && IsOpen(expanded, Cards[k].id)
    ensures RenderedItems(Cards, expanded) == Cards[k].items
  {
    assert forall i, j :: 0 <= i < j < |Cards| ==> Cards[i].id != Cards[j].id;
    OnlyExpandedCardRendersGrid(Cards, expanded, k);
  }

  lemma {:induction false} NoOtherCardRenders(cards: seq<Card>, expanded: Expanded)
    requires forall i :: 0 <= i < |cards| ==> !IsOpen(expanded, cards[i].id)
    ensures RenderedItems(cards, expanded) == []
  {
    if |cards| > 0 {
      NoOtherCardRenders(cards[1..], expanded);
    }
  }

  /** Every condition the screen offers, card by card. */
  function OfferedItems(cards: seq<Card>): seq<GridItem> {
    if |cards| == 0 then [] else cards[0].items + OfferedItems(cards[1..])
  }

  /** Handing a condition on to the questionnaire finds questions exactly
      when its id is one of the five catalog ids. */
  lemma HandOffFindsQuestionsIffCatalog(item: GridItem)
    ensures var params := HandleConditionSelect(item);
            var s := QuestionnaireSession.Mount(Some(QuestionnaireSession.RouteParams(params.conditionId, params.conditionName)));
            s.params.conditionId == item.id && s.params.conditionName == item.caption
            && (QuestionnaireSession.LoadQuestions(s).Loaded? <==> item.id in HealthCatalog.CatalogIds)
  {
  }

  /** The screen offers 24 conditions, and of them exactly the five at
      positions 0, 1, 7, 12 and 20 (diabetes, hypertension, lung_cancer,
      stress, vision) have questions in the catalog; every catalog id is offered. */
  lemma {:induction false} OfferedConditionsAndCatalog()
    ensures |OfferedItems(Cards)| == 24
    ensures forall i :: 0 <= i < |OfferedItems(Cards)| ==>
              (OfferedItems(Cards)[i].id in HealthCatalog.CatalogIds <==> i in {0, 1, 7, 12, 20})
    ensures forall id :: id in HealthCatalog.CatalogIds ==>
              exists i :: 0 <= i < |OfferedItems(Cards)| && OfferedItems(Cards)[i].id == id
  {
    var offered := OfferedItems(Cards);
    var c0, c1, c2, c3 := Cards[0], Cards[1], Cards[2], Cards[3];
    assert Cards[1..][1..][1..][1..] == [];
    assert OfferedItems(Cards[1..][1..][1..]) == c3.items;
    assert OfferedItems(Cards[1..][1..]) == c2.items + c3.items;
    assert OfferedItems(Cards[1..]) == c1.items + (c2.items + c3.items);
    assert offered == c0.items + (c1.items + (c2.items + c3.items));
    assert offered[0].id == "diabetes" && offered[1].id == "hypertension";
    assert offered[7].id == "lung_cancer" && offered[12].id == "stress" && offered[20].id == "vision";
  }
}
