/** Two concrete records run through the query layer: an Italian place
    (rating 4.6, "$$") and a Thai place (rating 3.9, "$"). */
module WorkedExamples {
  import opened Wrappers
  import opened Seqs
  import opened RestaurantTypes
  import opened Data

  const NoHours := Hours("", "", "", "", "", "", "")

  const Trattoria := Restaurant("t1", "Trattoria", "Italian", "Old Town", 4.6, Tier2,
    "", "", "", NoHours, ["Terrace"], "", [], "Silky pasta", [], [], "")

  const Baan := Restaurant("b1", "Baan", "Thai", "Harbour", 3.9, Tier1,
    "", "", "", NoHours, ["Takeaway"], "", [], "Fiery curries", [], [], "")

  const Both := [Trattoria, Baan]

  /** Cuisine "Italian" with a minimum rating of 4.0 keeps only the Italian place. */
  lemma FilterExample()
    ensures FilterRestaurants(Both, NoFilters.(cuisine := Some("Italian"), rating := Some(4.0))) == [Trattoria]
  {
  }

  /** A minimum rating nobody reaches leaves nothing. */
  lemma MinRatingExample()
    ensures FilterRestaurants(Both, NoFilters.(rating := Some(5.0))) == []
  {
  }

  lemma BaanMatchesThai()
    ensures MatchesSearch(Baan, "thai")
  {
    assert Strings.Lower("thai") == "thai";
    assert Strings.Lower("Thai") == "thai";
    assert "thai" <= "thai";
  }

  /** A text without an 'h' (after lowering) does not contain "thai". */
  lemma NoThaiWithoutH(t: string)
    requires 'h' !in Strings.Lower(t)
    ensures !Strings.Contains(Strings.Lower(t), "thai")
  {
    assert "thai"[1] == 'h';
    Strings.FoundNeedleCharsInHay(Strings.Lower(t), "thai", 'h');
  }

  lemma TrattoriaTextsLackH()
    ensures forall t :: t in SearchableTexts(Trattoria) ==> 'h' !in Strings.Lower(t)
  {
  }

  /** None of the Italian place's texts holds an 'h' or 'H'. */
  lemma TrattoriaMissesThai()
    ensures !MatchesSearch(Trattoria, "thai")
  {
    TrattoriaTextsLackH();
    forall t | t in SearchableTexts(Trattoria) ensures !Strings.Contains(Strings.Lower(t), "thai") {
      NoThaiWithoutH(t);
    }
    assert Strings.Lower("thai") == "thai";
    NoTextMatches(Trattoria, "thai");
  }

  /** Searching "thai" finds the Thai place through its cuisine tag. */
  lemma SearchExample()
    ensures SearchRestaurants(Both, "thai") == [Baan]
  {
    BaanMatchesThai();
    TrattoriaMissesThai();
    var r := SearchRestaurants(Both, "thai");
    assert Baan in r && Trattoria !in r;
    assert r[0] in r;
    assert r[0] == Baan;
    assert Both[1..] == [Baan];
    assert IsSubsequence(r, [Baan]);
    assert IsSubsequence(r[1..], []);
  }

  /** The distinct price tiers, cheapest first. */
  lemma UniquePriceExample()
    ensures GetUniquePriceRanges(Both) == [Tier1, Tier2]
  {
    assert PriceSymbols(Both) == ["$$", "$"];
    assert Sorting.Insert("$", []) == ["$"];
    assert Sorting.Insert("$$", ["$"]) == ["$", "$$"];
    assert Sorting.SortedDistinct(["$$", "$"]) == ["$", "$$"];
    PriceTierRoundTrip(Tier1);
    PriceTierRoundTrip(Tier2);
  }
}
