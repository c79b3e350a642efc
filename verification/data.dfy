/** The query layer over the restaurant list: lookup by id, exact-match
    selection, free-text search, distinct values for the filter menus and the
    multi-criteria filter. The list itself is loaded from a data file by the
    application; here it is the parameter `rs`. */
module Data {
  import opened Wrappers
  import opened Strings
  import opened Seqs
  import opened Sorting
  import opened RestaurantTypes

  // ---------------------------------------------------------------------------
  // Lookup by id

  /** `i` is the position of the first record whose id is `id`. */
  ghost predicate IsFirstWithId(rs: seq<Restaurant>, id: string, i: int) {
    0 <= i < |rs| && rs[i].id == id && forall j :: 0 <= j < i ==> rs[j].id != id
  }

  /** `restaurants.find(r => r.id === id)`. */
  function GetRestaurantById(rs: seq<Restaurant>, id: string): (r: Option<Restaurant>)
    ensures r.None? <==> forall x :: x in rs ==> x.id != id
    ensures r.Some? ==> exists i :: IsFirstWithId(rs, id, i) && rs[i] == r.value
    decreases |rs|
  {
    if |rs| == 0 then None
    else if rs[0].id == id then
      assert IsFirstWithId(rs, id, 0);
      Some(rs[0])
    else
      assert rs == [rs[0]] + rs[1..];
      assert forall i :: IsFirstWithId(rs[1..], id, i) ==> IsFirstWithId(rs, id, i + 1);
      GetRestaurantById(rs[1..], id)
  }

  /** Ids are unique across the collection. */
  ghost predicate UniqueIds(rs: seq<Restaurant>) {
    forall i, j :: 0 <= i < |rs| && 0 <= j < |rs| && rs[i].id == rs[j].id ==> i == j
  }

  /** With unique ids, looking up a record's id finds that very record. */
  lemma GetByIdFindsRecord(rs: seq<Restaurant>, i: int)
    requires UniqueIds(rs) && 0 <= i < |rs|
    ensures GetRestaurantById(rs, rs[i].id) == Some(rs[i])
  {
  }

  // ---------------------------------------------------------------------------
  // Exact-match selection

  function CuisineIs(c: string): Restaurant -> bool {
    (x: Restaurant) => x.cuisine == c
  }

  function LocationIs(l: string): Restaurant -> bool {
    (x: Restaurant) => x.location == l
  }

  function PriceRangeIs(t: PriceTier): Restaurant -> bool {
    (x: Restaurant) => x.priceRange == t
  }

  /** `restaurants.filter(r => r.cuisine === cuisine)`. */
  function GetRestaurantsByCuisine(rs: seq<Restaurant>, c: string): (r: seq<Restaurant>)
    ensures forall x :: x in r <==> x in rs && x.cuisine == c
    ensures SelectionOf(r, rs, CuisineIs(c))
  {
    Filter(rs, CuisineIs(c))
  }

  /** `restaurants.filter(r => r.location === location)`. */
  function GetRestaurantsByLocation(rs: seq<Restaurant>, l: string): (r: seq<Restaurant>)
    ensures forall x :: x in r <==> x in rs && x.location == l
    ensures SelectionOf(r, rs, LocationIs(l))
  {
    Filter(rs, LocationIs(l))
  }

  /** `restaurants.filter(r => r.priceRange === priceRange)`. */
  function GetRestaurantsByPriceRange(rs: seq<Restaurant>, t: PriceTier): (r: seq<Restaurant>)
    ensures forall x :: x in r <==> x in rs && x.priceRange == t
    ensures SelectionOf(r, rs, PriceRangeIs(t))
  {
    Filter(rs, PriceRangeIs(t))
  }

  // ---------------------------------------------------------------------------
  // Free-text search

  /** The search test: the lower-cased query occurs in the lower-cased name,
      cuisine, location, review, some feature or some highlight. */
  predicate MatchesSearch(x: Restaurant, query: string) {
    var q := Lower(query);
    || Contains(Lower(x.name), q)
    || Contains(Lower(x.cuisine), q)
    || Contains(Lower(x.location), q)
    || Contains(Lower(x.review), q)
    || (exists f :: f in x.features && Contains(Lower(f), q))
    || (exists h :: h in x.highlights && Contains(Lower(h), q))
  }

  function MatchesQuery(query: string): Restaurant -> bool {
    x => MatchesSearch(x, query)
  }

  /** Every text the search looks at. */
  function SearchableTexts(x: Restaurant): seq<string> {
    [x.name, x.cuisine, x.location, x.review] + x.features + x.highlights
  }

  /** `searchRestaurants(query)`. A record that is in the collection is in the
      result exactly when it matches, so testing membership of the result by
      value (as the home page does) is the same as testing the match. */
  function SearchRestaurants(rs: seq<Restaurant>, query: string): (r: seq<Restaurant>)
    ensures forall x :: x in r <==> x in rs && MatchesSearch(x, query)
    ensures SelectionOf(r, rs, MatchesQuery(query))
  {
    Filter(rs, MatchesQuery(query))
  }

  /** The query, case folded, is a substring of one of the record's
      searchable texts, case folded. */
  ghost predicate FoundIn(x: Restaurant, query: string) {
    exists t :: t in SearchableTexts(x) && IsSubstring(Lower(query), Lower(t))
  }

  lemma MatchImpliesFound(x: Restaurant, query: string)
    requires MatchesSearch(x, query)
    ensures FoundIn(x, query)
  {
    var q := Lower(query);
    var texts := SearchableTexts(x);
    var t: string;
    if exists f :: f in x.features && Contains(Lower(f), q) {
      t :| t in x.features && Contains(Lower(t), q);
    } else if exists h :: h in x.highlights && Contains(Lower(h), q) {
      t :| t in x.highlights && Contains(Lower(t), q);
    } else if Contains(Lower(x.name), q) {
      t := x.name;
    } else if Contains(Lower(x.cuisine), q) {
      t := x.cuisine;
    } else if Contains(Lower(x.location), q) {
      t := x.location;
    } else {
      t := x.review;
    }
    assert t in texts;
    ContainsIffSubstring(Lower(t), q);
  }

  lemma FoundImpliesMatch(x: Restaurant, query: string)
    requires FoundIn(x, query)
    ensures MatchesSearch(x, query)
  {
    var q := Lower(query);
    var texts := SearchableTexts(x);
    var t :| t in texts && IsSubstring(q, Lower(t));
    ContainsIffSubstring(Lower(t), q);
    var i :| 0 <= i < |texts| && texts[i] == t;
    if i >= 4 + |x.features| {
      assert x.highlights[i - 4 - |x.features|] == t;
    } else if i >= 4 {
      assert x.features[i - 4] == t;
    }
  }

  /** A record none of whose searchable texts contains the query does not match. */
  lemma NoTextMatches(x: Restaurant, query: string)
    requires forall t :: t in SearchableTexts(x) ==> !Contains(Lower(t), Lower(query))
    ensures !MatchesSearch(x, query)
  {
  }

  /** A record is found exactly when the query, case folded, is a substring
      of one of its searchable texts, case folded. */
  lemma SearchMeansSubstring(rs: seq<Restaurant>, query: string, x: Restaurant)
    ensures x in SearchRestaurants(rs, query) <==> x in rs && FoundIn(x, query)
  {
    if MatchesSearch(x, query) {
      MatchImpliesFound(x, query);
    }
    if FoundIn(x, query) {
      FoundImpliesMatch(x, query);
    }
  }

  /** The empty query is a substring of everything: it returns the whole
      collection. */
  lemma SearchEmptyIsAll(rs: seq<Restaurant>)
    ensures SearchRestaurants(rs, "") == rs
  {
    FilterAll(rs, MatchesQuery(""));
  }

  /** Only the case-folded query matters. */
  lemma SearchIgnoresCase(rs: seq<Restaurant>, q1: string, q2: string)
    requires Lower(q1) == Lower(q2)
    ensures SearchRestaurants(rs, q1) == SearchRestaurants(rs, q2)
  {
    FilterExtensional(rs, MatchesQuery(q1), MatchesQuery(q2));
  }

  /** In particular, lower-casing the query first changes nothing. */
  lemma SearchLowerQuery(rs: seq<Restaurant>, q: string)
    ensures SearchRestaurants(rs, Lower(q)) == SearchRestaurants(rs, q)
  {
    LowerIdempotent(q);
    SearchIgnoresCase(rs, Lower(q), q);
  }

  // ---------------------------------------------------------------------------
  // Distinct values for the filter menus

  function CuisineTags(rs: seq<Restaurant>): (r: seq<string>)
    ensures forall c :: c in r <==> exists x :: x in rs && x.cuisine == c
  {
    var r := seq(|rs|, i requires 0 <= i < |rs| => rs[i].cuisine);
    assert forall i :: 0 <= i < |rs| ==> r[i] == rs[i].cuisine;
    r
  }

  function LocationTags(rs: seq<Restaurant>): (r: seq<string>)
    ensures forall l :: l in r <==> exists x :: x in rs && x.location == l
  {
    var r := seq(|rs|, i requires 0 <= i < |rs| => rs[i].location);
    assert forall i :: 0 <= i < |rs| ==> r[i] == rs[i].location;
    r
  }

  function PriceSymbols(rs: seq<Restaurant>): (r: seq<string>)
    ensures forall s :: s in r <==> exists x :: x in rs && x.priceRange.Symbol() == s
  {
    var r := seq(|rs|, i requires 0 <= i < |rs| => rs[i].priceRange.Symbol());
    assert forall i :: 0 <= i < |rs| ==> r[i] == rs[i].priceRange.Symbol();
    r
  }

  /** `[...new Set(restaurants.map(r => r.cuisine))].sort()`. */
  function GetUniqueCuisines(rs: seq<Restaurant>): (r: seq<string>)
    ensures StrictlySorted(r)
    ensures forall i, j :: 0 <= i < j < |r| ==> r[i] != r[j]
    ensures forall c :: c in r <==> exists x :: x in rs && x.cuisine == c
  {
    var r := SortedDistinct(CuisineTags(rs));
    StrictlySortedDistinct(r);
    r
  }

  /** `[...new Set(restaurants.map(r => r.location))].sort()`. */
  function GetUniqueLocations(rs: seq<Restaurant>): (r: seq<string>)
    ensures StrictlySorted(r)
    ensures forall i, j :: 0 <= i < j < |r| ==> r[i] != r[j]
    ensures forall l :: l in r <==> exists x :: x in rs && x.location == l
  {
    var r := SortedDistinct(LocationTags(rs));
    StrictlySortedDistinct(r);
    r
  }

  /** Reads sorted price literals back as tiers. */
  function ToTiers(s: seq<string>): (r: seq<PriceTier>)
    requires forall x :: x in s ==> ParsePriceTier(x).Some?
    ensures |r| == |s|
    ensures forall i :: 0 <= i < |s| ==> r[i].Symbol() == s[i]
  {
    seq(|s|, i requires 0 <= i < |s| => ParsePriceTier(s[i]).value)
  }

  /** `[...new Set(restaurants.map(r => r.priceRange))].sort()`: the literals
      are sorted as strings, which lists the tiers from cheapest up. */
  function GetUniquePriceRanges(rs: seq<Restaurant>): (r: seq<PriceTier>)
    ensures forall i, j :: 0 <= i < j < |r| ==> StrLess(r[i].Symbol(), r[j].Symbol())
    ensures forall i, j :: 0 <= i < j < |r| ==> r[i].Level() < r[j].Level()
    ensures forall t :: t in r <==> exists x :: x in rs && x.priceRange == t
  {
    var s := SortedDistinct(PriceSymbols(rs));
    assert forall y :: y in s ==> ParsePriceTier(y).Some? by {
      forall y | y in s ensures ParsePriceTier(y).Some? {
        var x :| x in rs && x.priceRange.Symbol() == y;
        PriceTierRoundTrip(x.priceRange);
      }
    }
    var r := ToTiers(s);
    TierOrderAll();
    SymbolInjective();
    assert forall t :: t in r <==> t.Symbol() in s by {
      forall t ensures t in r <==> t.Symbol() in s {
        if t.Symbol() in s {
          var i :| 0 <= i < |s| && s[i] == t.Symbol();
          assert r[i] == t;
        }
      }
    }
    r
  }

  lemma TierOrderAll()
    ensures forall a: PriceTier, b: PriceTier :: StrLess(a.Symbol(), b.Symbol()) <==> a.Level() < b.Level()
  {
    forall a: PriceTier, b: PriceTier ensures StrLess(a.Symbol(), b.Symbol()) <==> a.Level() < b.Level() {
      SymbolOrderIsTierOrder(a, b);
    }
  }

  lemma SymbolInjective()
    ensures forall a: PriceTier, b: PriceTier :: a.Symbol() == b.Symbol() ==> a == b
  {
  }

  // ---------------------------------------------------------------------------
  // Multi-criteria filter

  /** Every required feature is, case-insensitively, a substring of one of
      the record's features. */
  predicate HasAllFeatures(x: Restaurant, required: seq<string>) {
    forall f :: f in required ==> exists g :: g in x.features && Contains(Lower(g), Lower(f))
  }

  /** The test `filterRestaurants` applies to each record: a chain of early
      rejections, one per supplied (truthy) criterion. */
  predicate PassesFilters(x: Restaurant, f: RestaurantFilters) {
    if IsSet(f.cuisine) && x.cuisine != f.cuisine.value then false
    else if IsSet(f.location) && x.location != f.location.value then false
    else if IsSet(f.priceRange) && x.priceRange.Symbol() != f.priceRange.value then false
    else if RatingIsSet(f.rating) && x.rating < f.rating.value then false
    else if FeaturesAreSet(f.features) then HasAllFeatures(x, f.features.value)
    else true
  }

  function Passes(f: RestaurantFilters): Restaurant -> bool {
    x => PassesFilters(x, f)
  }

  /** What a record must satisfy to pass the filter, criterion by criterion. */
  ghost predicate MeetsCriteria(x: Restaurant, f: RestaurantFilters) {
    && (IsSet(f.cuisine) ==> x.cuisine == f.cuisine.value)
    && (IsSet(f.location) ==> x.location == f.location.value)
    && (IsSet(f.priceRange) ==> x.priceRange.Symbol() == f.priceRange.value)
    && (RatingIsSet(f.rating) ==> x.rating >= f.rating.value)
    && (FeaturesAreSet(f.features) ==>
          forall req :: req in f.features.value ==>
            exists g :: g in x.features && IsSubstring(Lower(req), Lower(g)))
  }

  lemma ContainsIsSubstringEverywhere()
    ensures forall hay, needle :: Contains(hay, needle) <==> IsSubstring(needle, hay)
  {
    forall hay, needle ensures Contains(hay, needle) <==> IsSubstring(needle, hay) {
      ContainsIffSubstring(hay, needle);
    }
  }

  /** `filterRestaurants(criteria)`: the records meeting every supplied
      criterion, in collection order. */
  function FilterRestaurants(rs: seq<Restaurant>, f: RestaurantFilters): (r: seq<Restaurant>)
    ensures forall x :: x in r <==> x in rs && MeetsCriteria(x, f)
    ensures SelectionOf(r, rs, Passes(f))
  {
    ContainsIsSubstringEverywhere();
    Filter(rs, Passes(f))
  }

  /** With no criterion supplied, or only falsy ones (`""`, a rating of 0, an
      empty feature list), the filter returns the collection unchanged. */
  lemma FilterWithoutCriteriaIsAll(rs: seq<Restaurant>, f: RestaurantFilters)
    requires !IsSet(f.cuisine) && !IsSet(f.location) && !IsSet(f.priceRange)
    requires !RatingIsSet(f.rating) && !FeaturesAreSet(f.features)
    ensures FilterRestaurants(rs, f) == rs
  {
    FilterAll(rs, Passes(f));
  }

  /** A lone non-empty cuisine criterion is `getRestaurantsByCuisine`. */
  lemma FilterByCuisineAlone(rs: seq<Restaurant>, c: string)
    requires c != ""
    ensures FilterRestaurants(rs, NoFilters.(cuisine := Some(c))) == GetRestaurantsByCuisine(rs, c)
  {
    FilterExtensional(rs, Passes(NoFilters.(cuisine := Some(c))), CuisineIs(c));
  }

  /** A lone non-empty location criterion is `getRestaurantsByLocation`. */
  lemma FilterByLocationAlone(rs: seq<Restaurant>, l: string)
    requires l != ""
    ensures FilterRestaurants(rs, NoFilters.(location := Some(l))) == GetRestaurantsByLocation(rs, l)
  {
    FilterExtensional(rs, Passes(NoFilters.(location := Some(l))), LocationIs(l));
  }

  /** A lone price criterion is `getRestaurantsByPriceRange`. */
  lemma FilterByPriceAlone(rs: seq<Restaurant>, t: PriceTier)
    ensures FilterRestaurants(rs, NoFilters.(priceRange := Some(t.Symbol()))) == GetRestaurantsByPriceRange(rs, t)
  {
    SymbolInjective();
    FilterExtensional(rs, Passes(NoFilters.(priceRange := Some(t.Symbol()))), PriceRangeIs(t));
  }
}
