/** The filter bar's logic without its markup: four text fields, the
    "change one field" and "clear all" events, the cleaned map handed to the
    page after each event, and the flag that shows the clear button. */
module FilterBar {

  datatype FilterKey = CuisineKey | LocationKey | PriceRangeKey | SearchKey

  /** The bar's state; `""` means "All" (nothing chosen) or an empty search box. */
  datatype BarState = BarState(cuisine: string, location: string, priceRange: string, search: string) {

    function Get(k: FilterKey): string {
      match k
      case CuisineKey => cuisine
      case LocationKey => location
      case PriceRangeKey => priceRange
      case SearchKey => search
    }

    /** `{ ...filters, [key]: value }`: field `k` becomes `v`, the others stay. */
    function Set(k: FilterKey, v: string): (s: BarState)
      ensures s.Get(k) == v
      ensures forall k' :: k' != k ==> s.Get(k') == Get(k')
    {
      match k
      case CuisineKey => this.(cuisine := v)
      case LocationKey => this.(location := v)
      case PriceRangeKey => this.(priceRange := v)
      case SearchKey => this.(search := v)
    }
  }

  /** The state the bar starts in and returns to when cleared. */
  const InitialState := BarState("", "", "", "")

  lemma InitialStateIsEmpty()
    ensures forall k :: InitialState.Get(k) == ""
  {
  }

  /** The entries of the state whose value is not `""`. */
  function Clean(s: BarState): (m: map<FilterKey, string>)
    ensures forall k :: k in m <==> s.Get(k) != ""
    ensures forall k :: k in m ==> m[k] == s.Get(k)
    ensures forall v :: v in m.Values ==> v != ""
  {
    map k | k in {CuisineKey, LocationKey, PriceRangeKey, SearchKey} && s.Get(k) != "" :: s.Get(k)
  }

  /** The new state and the map handed to the page. */
  datatype Transition = Transition(state: BarState, emitted: map<FilterKey, string>)

  /** `handleFilterChange(key, value)`. */
  function HandleFilterChange(s: BarState, k: FilterKey, v: string): (t: Transition)
    ensures t.state.Get(k) == v
    ensures forall k' :: k' != k ==> t.state.Get(k') == s.Get(k')
    ensures k in t.emitted <==> v != ""
    ensures k in t.emitted ==> t.emitted[k] == v
    ensures forall k' :: k' != k ==> (k' in t.emitted <==> s.Get(k') != "")
  {
    var next := s.Set(k, v);
    Transition(next, Clean(next))
  }

  /** `clearFilters()`: every field back to `""` and an empty map to the page. */
  function ClearFilters(s: BarState): (t: Transition)
    ensures forall k :: t.state.Get(k) == ""
    ensures |t.emitted| == 0
  {
    InitialStateIsEmpty();
    Transition(InitialState, map[])
  }

  /** Whether the "Clear all filters" button shows: some field is not `""`. */
  function HasActiveFilters(s: BarState): (b: bool)
    ensures b <==> exists k :: s.Get(k) != ""
  {
    var some := s.cuisine != "" || s.location != "" || s.priceRange != "" || s.search != "";
    assert s.cuisine == s.Get(CuisineKey) && s.location == s.Get(LocationKey);
    assert s.priceRange == s.Get(PriceRangeKey) && s.search == s.Get(SearchKey);
    some
  }

  /** The button shows exactly when the map last handed to the page is non-empty. */
  lemma ActiveIffCleanNonEmpty(s: BarState)
    ensures HasActiveFilters(s) <==> |Clean(s)| > 0
  {
  }

  datatype Event = Change(key: FilterKey, value: string) | Clear

  function Step(s: BarState, e: Event): Transition {
    match e
    case Change(k, v) => HandleFilterChange(s, k, v)
    case Clear => ClearFilters(s)
  }

  /** Whatever the event, the page is handed the cleaned form of the bar's
      new state, so the page's filters always mirror the bar. */
  lemma StepEmitsCleanState(s: BarState, e: Event)
    ensures Step(s, e).emitted == Clean(Step(s, e).state)
  {
  }

  /** The bar's state and the page's filters after a sequence of events. Both
      start empty: the bar at `InitialState`, the page at `{}`. */
  function Run(events: seq<Event>): Transition
    decreases |events|
  {
    if |events| == 0 then Transition(InitialState, map[])
    else Step(Run(events[..|events| - 1]).state, events[|events| - 1])
  }

  /** After any sequence of events the page's filters are the cleaned form of
      the bar's state, so the bar's "Clear all filters" button shows exactly
      when the page shows its row of active-filter chips. */
  lemma RunKeepsPageInSync(events: seq<Event>)
    ensures Run(events).emitted == Clean(Run(events).state)
    ensures HasActiveFilters(Run(events).state) <==> |Run(events).emitted| > 0
  {
  }
}
