/** The home page's list computation: how the free-text search and the three
    menu filters chosen in the filter bar combine into the restaurants shown. */
module HomePage {
  import opened Wrappers
  import opened Seqs
  import opened RestaurantTypes
  import opened Data
  import FilterBar

  /** The page's filter state; a key the bar did not hand over is absent. */
  datatype PageFilters = PageFilters(
    cuisine: Option<string>,
    location: Option<string>,
    priceRange: Option<string>,
    search: Option<string>)

  const NoPageFilters := PageFilters(None, None, None, None)

  /** Some menu filter is set (truthy). */
  predicate HasMenuFilter(f: PageFilters) {
    IsSet(f.cuisine) || IsSet(f.location) || IsSet(f.priceRange)
  }

  /** The criteria forwarded to `filterRestaurants`: only the three menu
      fields; rating and features are never passed. */
  function MenuCriteria(f: PageFilters): (c: RestaurantFilters)
    ensures c.rating == None && c.features == None
  {
    RestaurantFilters(f.cuisine, f.location, f.priceRange, None, None)
  }

  /** `!filters.search || searchRestaurants(filters.search).includes(r)`, with
      `includes` taken by value. */
  function AlsoFound(rs: seq<Restaurant>, search: Option<string>): Restaurant -> bool {
    x => !IsSet(search) || x in SearchRestaurants(rs, search.value)
  }

  /** The list shown on the page (the `useMemo` body). */
  function ShownRestaurants(rs: seq<Restaurant>, f: PageFilters): (r: seq<Restaurant>)
    ensures forall x :: x in r <==> x in rs && Selected(x, f)
    ensures SelectionOf(r, rs, SelectedBy(f))
  {
    var result := if IsSet(f.search) then SearchRestaurants(rs, f.search.value) else rs;
    if HasMenuFilter(f) then
      var filtered := FilterRestaurants(rs, MenuCriteria(f));
      FilterTwice(rs, Passes(MenuCriteria(f)), AlsoFound(rs, f.search), SelectedBy(f));
      Filter(filtered, AlsoFound(rs, f.search))
    else
      if IsSet(f.search) then
        FilterExtensional(rs, MatchesQuery(f.search.value), SelectedBy(f));
        result
      else
        FilterAll(rs, SelectedBy(f));
        result
  }

  /** A record is shown when it satisfies every set field independently:
      the search test and the three exact matches; nothing else is asked. */
  predicate Selected(x: Restaurant, f: PageFilters) {
    && (IsSet(f.search) ==> MatchesSearch(x, f.search.value))
    && (IsSet(f.cuisine) ==> x.cuisine == f.cuisine.value)
    && (IsSet(f.location) ==> x.location == f.location.value)
    && (IsSet(f.priceRange) ==> x.priceRange.Symbol() == f.priceRange.value)
  }

  function SelectedBy(f: PageFilters): Restaurant -> bool {
    x => Selected(x, f)
  }

  /** Nothing set: the whole collection, in its own order. */
  lemma ShownWithoutFiltersIsAll(rs: seq<Restaurant>, f: PageFilters)
    requires !IsSet(f.search) && !HasMenuFilter(f)
    ensures ShownRestaurants(rs, f) == rs
  {
  }

  /** Only the search set: the search result replaces the collection. */
  lemma ShownSearchOnlyIsSearch(rs: seq<Restaurant>, f: PageFilters)
    requires IsSet(f.search) && !HasMenuFilter(f)
    ensures ShownRestaurants(rs, f) == SearchRestaurants(rs, f.search.value)
  {
  }

  /** With a menu filter set, the list is the intersection of the filter's
      result and the search's result, in the filter's order; it is an
      order-preserving part of both. */
  lemma ShownWithMenuFilterIsIntersection(rs: seq<Restaurant>, f: PageFilters)
    requires HasMenuFilter(f)
    ensures forall x :: x in ShownRestaurants(rs, f) <==>
      x in FilterRestaurants(rs, MenuCriteria(f)) &&
      (IsSet(f.search) ==> x in SearchRestaurants(rs, f.search.value))
    ensures IsSubsequence(ShownRestaurants(rs, f), FilterRestaurants(rs, MenuCriteria(f)))
    ensures IsSet(f.search) ==> IsSubsequence(ShownRestaurants(rs, f), SearchRestaurants(rs, f.search.value))
  {
    var shown := ShownRestaurants(rs, f);
    FilterUnique(shown, rs, SelectedBy(f));
    var filtered := FilterRestaurants(rs, MenuCriteria(f));
    FilterTwice(rs, Passes(MenuCriteria(f)), SelectedBy(f), SelectedBy(f));
    if IsSet(f.search) {
      FilterTwice(rs, MatchesQuery(f.search.value), SelectedBy(f), SelectedBy(f));
    }
  }

  /** Replaces a `""` field by an absent one. */
  function DropEmpty(o: Option<string>): (r: Option<string>)
    ensures r.Some? ==> r.value != ""
    ensures IsSet(r) <==> IsSet(o)
    ensures IsSet(o) ==> r == o
  {
    if o == Some("") then None else o
  }

  /** A `""` field, search included, is the same as an absent one. */
  lemma EmptyStringsAreAbsent(rs: seq<Restaurant>, f: PageFilters)
    ensures ShownRestaurants(rs, f) ==
      ShownRestaurants(rs, PageFilters(DropEmpty(f.cuisine), DropEmpty(f.location), DropEmpty(f.priceRange), DropEmpty(f.search)))
  {
    var g := PageFilters(DropEmpty(f.cuisine), DropEmpty(f.location), DropEmpty(f.priceRange), DropEmpty(f.search));
    FilterUnique(ShownRestaurants(rs, f), rs, SelectedBy(f));
    FilterUnique(ShownRestaurants(rs, g), rs, SelectedBy(g));
    FilterExtensional(rs, SelectedBy(f), SelectedBy(g));
  }

  // ---------------------------------------------------------------------------
  // From the filter bar to the page

  function Lookup(m: map<FilterBar.FilterKey, string>, k: FilterBar.FilterKey): Option<string> {
    if k in m then Some(m[k]) else None
  }

  /** The page's filters after the bar hands over map `m`. */
  function ReceivedFilters(m: map<FilterBar.FilterKey, string>): PageFilters {
    PageFilters(
      Lookup(m, FilterBar.CuisineKey),
      Lookup(m, FilterBar.LocationKey),
      Lookup(m, FilterBar.PriceRangeKey),
      Lookup(m, FilterBar.SearchKey))
  }

  /** After any bar event, a page field is set exactly when the bar's field
      is non-empty, and then holds the bar's value. */
  lemma PageMirrorsBar(s: FilterBar.BarState, e: FilterBar.Event)
    ensures var t := FilterBar.Step(s, e); var f := ReceivedFilters(t.emitted);
      && (IsSet(f.cuisine) <==> t.state.cuisine != "") && (IsSet(f.cuisine) ==> f.cuisine.value == t.state.cuisine)
      && (IsSet(f.location) <==> t.state.location != "") && (IsSet(f.location) ==> f.location.value == t.state.location)
      && (IsSet(f.priceRange) <==> t.state.priceRange != "") && (IsSet(f.priceRange) ==> f.priceRange.value == t.state.priceRange)
      && (IsSet(f.search) <==> t.state.search != "") && (IsSet(f.search) ==> f.search.value == t.state.search)
  {
  }

  /** When the bar shows no active filter the page lists every restaurant;
      in particular right after "Clear all filters". */
  lemma InactiveBarShowsAll(rs: seq<Restaurant>, s: FilterBar.BarState, e: FilterBar.Event)
    requires !FilterBar.HasActiveFilters(FilterBar.Step(s, e).state)
    ensures ShownRestaurants(rs, ReceivedFilters(FilterBar.Step(s, e).emitted)) == rs
  {
  }
}
