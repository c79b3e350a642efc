# Restaurant directory query layer, in Dafny

This project models the logic at the centre of a small restaurant directory. The directory is a fixed list of restaurant records, and the query layer over that list provides:

- lookup by id;
- exact-match selection by cuisine, location or price tier;
- case-insensitive free-text search;
- the sorted distinct values that fill the filter menus;
- a multi-criteria filter.

Two further pieces of UI code are pure logic once React is removed, and they are modelled too:

- the home page's rule for combining the search box with the three menu filters;
- the filter bar's small state machine.

The restaurant list is a parameter `rs: seq<Restaurant>` of every query. The application loads it from a data file, and that loading is not modelled.

Modules, one per source file plus three helper modules:

- `RestaurantTypes` (`src/types/restaurant.ts`): the `Restaurant` record, the four-valued `PriceTier` with its literals `"$"` to `"$$$$"`, the seven-day `Hours`, the `Cuisine`/`Location` metadata and their string-keyed tables `CuisineData`/`LocationData`, and the all-optional `RestaurantFilters` (whose all-absent value is `NoFilters`).
- `Data` (`src/lib/data.ts`): the query functions.
- `HomePage` (`src/app/page.tsx`): the list the page shows for a given filter state, and how the filter bar's output becomes that state.
- `FilterBar` (`src/components/FilterBar.tsx`): the bar's state, its two events, the cleaned map it hands to the page, and the "has active filters" flag.
- `Strings`: ASCII `toLowerCase`, `includes` as a scan (`Contains`) with its specification (`IsSubstring`), and the string order used by `sort()`.
- `Seqs`: `Filter` (the model of `Array.prototype.filter`) and the notion of an order-preserving selection.
- `Sorting`: `SortedDistinct`, the model of `[...new Set(xs)].sort()`.
- `Wrappers`: `Option`, used for `T | undefined` and for optional fields.
- `WorkedExamples`: two concrete records, with the results the filter, the search and the price menu give for them.

Modelling choices:

- JavaScript truthiness is explicit. An optional string criterion is in force only when it is present and not `""` (`IsSet`). A rating criterion is in force only when present and not `0` (`RatingIsSet`). A features criterion is in force only when present and non-empty (`FeaturesAreSet`).
- Ratings are `real`; the source only ever compares them with `<`.
- Records store their price as a `PriceTier`. The filter criteria and the page state store it as the string the caller supplied, which is what a `<select>` produces at run time.
- The page tests membership of the search result with `.includes`, which compares object identity. The model tests membership by value. Every record of the list is in the search result exactly when it matches (`Data.SearchRestaurants`), so the two agree.
- `handleFilterChange` accepts any string key. The model takes one of the four keys the bar actually passes (`FilterKey`).

Four behaviours of the code deserve a word, with the lemma that pins each down:

- `getUniquePriceRanges` sorts the price literals as strings. `RestaurantTypes.SymbolOrderIsTierOrder` proves that this string order is the tier order, from cheapest to dearest.
- The page replaces the list by the search result when only a search is set, and intersects the filter result with the search result when a menu filter is set. The contract of `HomePage.ShownRestaurants` states both cases as one rule: a record is shown iff it satisfies every set field.
- `getRestaurantById` returns the first record with the id. When ids are unique, `Data.GetByIdFindsRecord` proves that this is the one record carrying it.
- `filterRestaurants` ignores a minimum rating of `0`, because `0` is falsy. A record with a negative rating therefore passes it (`Data.FilterWithoutCriteriaIsAll`).

Two behaviours of the code are easy to miss, and the model keeps both:

- An empty search is treated as absent by the page, while `searchRestaurants("")` returns every record (`Data.SearchEmptyIsAll`).
- A required feature must occur in one of the record's feature strings. A record with no features therefore fails every features criterion, even the required feature `""`.

## Model

| member | source | states |
|---|---|---|
| `Data.GetRestaurantById` | src/lib/data.ts:10-12 | absent exactly when no record has the id; otherwise the record at the first position whose id matches |
| `Data.GetByIdFindsRecord` | src/lib/data.ts:10-12 | when ids are unique, looking up any record's id returns that very record |
| `Data.GetRestaurantsByCuisine` | src/lib/data.ts:14-16 | a record is in the result iff it is in the list and its cuisine equals the argument; the result is the order-preserving subsequence of those records, with every occurrence kept |
| `Data.GetRestaurantsByLocation` | src/lib/data.ts:18-20 | the same for location |
| `Data.GetRestaurantsByPriceRange` | src/lib/data.ts:22-24 | the same for the price tier |
| `Data.SearchRestaurants` | src/lib/data.ts:26-36 | a record is in the result iff it is in the list and matches the query; the result keeps source order and every occurrence |
| `Data.SearchMeansSubstring` | src/lib/data.ts:27-35 | a record is found iff the lower-cased query is a substring of the lower-cased name, cuisine, location, review, some feature or some highlight |
| `Data.SearchEmptyIsAll` | src/lib/data.ts:27-34 | searching for `""` returns the whole list unchanged |
| `Data.SearchIgnoresCase` | src/lib/data.ts:27 | two queries with the same lower-case form give the same result |
| `Data.SearchLowerQuery` | src/lib/data.ts:27 | lower-casing the query first changes nothing |
| `Data.GetUniqueCuisines` | src/lib/data.ts:38-40 | strictly ascending, hence duplicate-free; its elements are exactly the cuisines used by some record |
| `Data.GetUniqueLocations` | src/lib/data.ts:42-44 | the same for locations |
| `Data.GetUniquePriceRanges` | src/lib/data.ts:46-48 | the literals ascend in string order, the tiers ascend from cheapest to dearest, and its elements are exactly the tiers used by some record |
| `Data.FilterRestaurants` | src/lib/data.ts:50-77 | a record passes iff each supplied criterion holds: equal cuisine, location and price literal; rating at least the minimum; each required feature a case-insensitive substring of some feature. The result is the order-preserving subsequence of passing records |
| `Data.FilterWithoutCriteriaIsAll` | src/lib/data.ts:63-77 | with every criterion absent or falsy (`""`, rating 0, empty feature list) the list comes back unchanged |
| `Data.FilterByCuisineAlone` | src/lib/data.ts:63-64 | a lone non-empty cuisine criterion gives exactly `getRestaurantsByCuisine` |
| `Data.FilterByLocationAlone` | src/lib/data.ts:63-65 | a lone non-empty location criterion gives exactly `getRestaurantsByLocation` |
| `Data.FilterByPriceAlone` | src/lib/data.ts:63-66 | a lone price criterion gives exactly `getRestaurantsByPriceRange` |
| `HomePage.ShownRestaurants` | src/app/page.tsx:17-35 | a record is shown iff it is in the list and satisfies every set field independently (search match, cuisine, location, price); nothing about rating or features is asked; the list is the order-preserving selection of such records |
| `HomePage.MenuCriteria` | src/app/page.tsx:25-29 | the criteria forwarded to the filter never carry a rating or features |
| `HomePage.ShownWithoutFiltersIsAll` | src/app/page.tsx:18-34 | with no search and no menu filter the whole list is shown, in order |
| `HomePage.ShownSearchOnlyIsSearch` | src/app/page.tsx:20-22 | with only a search set the list is exactly the search result |
| `HomePage.ShownWithMenuFilterIsIntersection` | src/app/page.tsx:24-31 | with a menu filter set, a record is shown iff it is in the filter's result and (when searching) in the search result; the list is an order-preserving part of both |
| `HomePage.EmptyStringsAreAbsent` | src/app/page.tsx:20-30 | replacing any `""` field, including the search, by an absent one does not change the list |
| `HomePage.PageMirrorsBar` | src/components/FilterBar.tsx:30-34 | after any bar event, each page field is set exactly when the bar's field is non-empty, and then holds the bar's value |
| `HomePage.InactiveBarShowsAll` | src/components/FilterBar.tsx:37-43 | when the bar shows no active filter, for instance right after clearing, the page lists every restaurant |
| `FilterBar.InitialStateIsEmpty` | src/components/FilterBar.tsx:19-24 | every field of the initial state is `""` |
| `FilterBar.Clean` | src/components/FilterBar.tsx:30-32 | the cleaned map has exactly the keys whose value is non-empty, mapped to those values; no value is `""` |
| `FilterBar.HandleFilterChange` | src/components/FilterBar.tsx:26-35 | the changed field takes the new value and the others stay; the key is emitted iff the new value is non-empty; every other key is emitted iff its field is non-empty |
| `FilterBar.ClearFilters` | src/components/FilterBar.tsx:37-41 | every field becomes `""` and the emitted map is empty |
| `FilterBar.HasActiveFilters` | src/components/FilterBar.tsx:43 | true iff some field is non-empty |
| `FilterBar.ActiveIffCleanNonEmpty` | src/components/FilterBar.tsx:30-43 | the flag is true iff the cleaned map is non-empty |
| `FilterBar.StepEmitsCleanState` | src/components/FilterBar.tsx:26-41 | for either event, the map handed to the page is the cleaned form of the bar's new state |
| `FilterBar.RunKeepsPageInSync` | src/components/FilterBar.tsx:26-43 | after any sequence of events from the empty start, the page's filters are the cleaned form of the bar's state, and the bar's clear button shows iff the page's filter map is non-empty |
| `RestaurantTypes.ParsePriceTier` | src/types/restaurant.ts:7 | a literal read back as a tier is that tier's literal |
| `RestaurantTypes.PriceTierRoundTrip` | src/types/restaurant.ts:7 | each tier's literal reads back as that tier, and distinct tiers have distinct literals |
| `RestaurantTypes.SymbolOrderIsTierOrder` | src/types/restaurant.ts:7 | the string order of two literals is the order of their tiers |
| `Seqs.Filter` | src/lib/data.ts:15 | `filter` keeps exactly the elements satisfying the predicate, in order, with every occurrence |
| `Seqs.FilterUnique` | src/lib/data.ts:15 | any order-preserving selection that keeps exactly the satisfying elements equals `filter`'s result |
| `Sorting.SortedDistinct` | src/lib/data.ts:39 | strictly ascending, and its elements are exactly the input's values |
| `Sorting.StrictlySortedUnique` | src/lib/data.ts:39 | two strictly ascending lists with the same elements are equal, so deduplicating then sorting has exactly one possible result |
| `Strings.LowerIdempotent` | src/lib/data.ts:27 | lower-casing twice is lower-casing once |
| `Strings.LowerRemovesUpper` | src/lib/data.ts:27 | lower-casing leaves no upper-case ASCII letter and changes no other character |
| `Strings.ContainsIffSubstring` | src/lib/data.ts:29 | `includes` is true iff the needle occurs at some offset of the haystack |
| `WorkedExamples.FilterExample` | src/lib/data.ts:63-77 | on an Italian place rated 4.6 and a Thai place rated 3.9, cuisine "Italian" with minimum rating 4.0 keeps only the Italian place |
| `WorkedExamples.MinRatingExample` | src/lib/data.ts:67 | a minimum rating of 5.0 that no record reaches gives an empty list |
| `WorkedExamples.SearchExample` | src/lib/data.ts:26-35 | searching "thai" finds only the Thai place |
| `WorkedExamples.UniquePriceExample` | src/lib/data.ts:46-48 | the price menu for a "$$" and a "$" place is "$" then "$$" |

## Left out

- Loading the three data files and the casts that type them (src/lib/data.ts:1-8): this is I/O. The restaurant list is a parameter. The `cuisines`/`locations` tables appear only as the types `CuisineData`/`LocationData`, because no function in the modelled code looks them up.
- React state, `useMemo` memoisation and all markup in the home page and the filter bar. Only the computations are modelled. The page's "active filter" chips (src/app/page.tsx:71-94) are presentation.
- `RestaurantCard`, `RestaurantGrid` and the detail page: presentation only.
- `SearchOptions.sortBy`/`sortOrder` (src/types/restaurant.ts:61-66): these are declared but nothing implements them.
- Full Unicode `toLowerCase`: `Strings.Lower` folds only the ASCII letters `A`-`Z`.
- `Sorting.SortedDistinct`, `Data.GetUniqueCuisines`, `Data.GetUniqueLocations`: the model orders characters by code point, while `sort()` orders by UTF-16 code unit. The two differ only between characters above U+FFFF and characters in U+E000-U+FFFF.
- `FilterBar.HandleFilterChange`: keys other than the four the bar passes are not modelled. A stale-closure update (two changes within one render) is not modelled either; events are applied one after another.
- `Data.FilterRestaurants`: a `NaN` rating criterion is falsy in JavaScript and has no counterpart among the reals.
