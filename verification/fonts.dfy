/** The text component's font-weight lookup: a weight name selects one of
    the nine Outfit families, with the regular (400) family as the default
    and the fallback. */
module FontWeights {
  import opened Wrappers

  const FontMap: map<string, string> := map[
    "100" := "Outfit_100Thin",
    "200" := "Outfit_200ExtraLight",
    "300" := "Outfit_300Light",
    "400" := "Outfit_400Regular",
    "500" := "Outfit_500Medium",
    "600" := "Outfit_600SemiBold",
    "700" := "Outfit_700Bold",
    "800" := "Outfit_800ExtraBold",
    "900" := "Outfit_900Black"]

  /** The weight used when the prop is omitted. */
  const DefaultWeight: string := "400"

  const Prefix: string := "Outfit_"

  /** The font family for the `weight` prop (None when it is omitted). */
  function FontFamily(weight: Option<string>): (r: string)
    ensures r in FontMap.Values
    ensures |r| > |Prefix| + 3 && r[..|Prefix|] == Prefix
    ensures weight.Some? && weight.value in FontMap ==> r[|Prefix|..|Prefix| + 3] == weight.value
    ensures weight.None? || weight.value !in FontMap ==> r == "Outfit_400Regular"
  {
    var w := weight.GetOr(DefaultWeight);
    if w in FontMap then FontMap[w] else FontMap["400"]
  }

  /** Each of the weights 100..900 selects its own Outfit family, and
      different weights select different families. */
  lemma WeightsSelectMatchingFamily()
    ensures FontMap.Keys == {"100", "200", "300", "400", "500", "600", "700", "800", "900"}
    ensures FontFamily(Some("100")) == "Outfit_100Thin"
    ensures FontFamily(Some("200")) == "Outfit_200ExtraLight"
    ensures FontFamily(Some("300")) == "Outfit_300Light"
    ensures FontFamily(Some("400")) == "Outfit_400Regular"
    ensures FontFamily(Some("500")) == "Outfit_500Medium"
    ensures FontFamily(Some("600")) == "Outfit_600SemiBold"
    ensures FontFamily(Some("700")) == "Outfit_700Bold"
    ensures FontFamily(Some("800")) == "Outfit_800ExtraBold"
    ensures FontFamily(Some("900")) == "Outfit_900Black"
    ensures forall a, b :: a in FontMap && b in FontMap && a != b ==> FontFamily(Some(a)) != FontFamily(Some(b))
  {
  }
}
