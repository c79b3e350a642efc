/** The records the directory is made of: restaurants, their price tier and
    weekly hours, the cuisine and location metadata tables, and the optional
    filter criteria accepted by the query layer. */
module RestaurantTypes {
  import opened Wrappers
  import opened Strings

  /** The four price tiers, written `"$"` to `"$$$$"` in the data. */
  datatype PriceTier = Tier1 | Tier2 | Tier3 | Tier4 {

    /** 1 for the cheapest tier up to 4 for the most expensive. */
    function Level(): nat {
      match this
      case Tier1 => 1
      case Tier2 => 2
      case Tier3 => 3
      case Tier4 => 4
    }

    /** The literal the data uses for this tier. */
    function Symbol(): string {
      match this
      case Tier1 => "$"
      case Tier2 => "$$"
      case Tier3 => "$$$"
      case Tier4 => "$$$$"
    }
  }

  /** Reads a price literal back; anything but the four literals is absent. */
  function ParsePriceTier(s: string): (r: Option<PriceTier>)
    ensures r.Some? ==> r.value.Symbol() == s
  {
    if s == "$" then Some(Tier1)
    else if s == "$$" then Some(Tier2)
    else if s == "$$$" then Some(Tier3)
    else if s == "$$$$" then Some(Tier4)
    else None
  }

  /** A price tier is exactly one of the four literals: every tier's symbol
      reads back as that tier, and distinct tiers have distinct symbols. */
  lemma PriceTierRoundTrip(t: PriceTier)
    ensures ParsePriceTier(t.Symbol()) == Some(t)
    ensures forall u: PriceTier :: u.Symbol() == t.Symbol() ==> u == t
  {
  }

  /** A price literal is a run of `Level()` dollar signs. */
  lemma SymbolIsDollars(t: PriceTier)
    ensures t.Symbol() == Dollars(t.Level())
  {
  }

  /** The string order of the literals is the tier order, so sorting the
      distinct literals lists the tiers from cheapest to most expensive. */
  lemma SymbolOrderIsTierOrder(a: PriceTier, b: PriceTier)
    ensures StrLess(a.Symbol(), b.Symbol()) <==> a.Level() < b.Level()
  {
    SymbolIsDollars(a);
    SymbolIsDollars(b);
    DollarsOrder(a.Level(), b.Level());
  }

  /** Opening hours, one description per weekday (possibly a "Closed" text). */
  datatype Hours = Hours(
    monday: string,
    tuesday: string,
    wednesday: string,
    thursday: string,
    friday: string,
    saturday: string,
    sunday: string)

  datatype Restaurant = Restaurant(
    id: string,
    name: string,
    cuisine: string,
    location: string,
    rating: real,
    priceRange: PriceTier,
    phone: string,
    address: string,
    website: string,
    hours: Hours,
    features: seq<string>,
    atmosphere: string,
    bestFor: seq<string>,
    review: string,
    highlights: seq<string>,
    images: seq<string>,
    featuredImage: string)

  datatype Cuisine = Cuisine(
    description: string,
    characteristics: seq<string>,
    typicalPriceRange: string,
    dietaryOptions: seq<string>)

  datatype Location = Location(
    description: string,
    neighborhood: string,
    characteristics: seq<string>,
    transportation: seq<string>,
    parking: string,
    atmosphere: string)

  /** Metadata tables keyed by the tag strings; nothing ties their keys to the
      tags the restaurant records use. */
  type CuisineData = map<string, Cuisine>
  type LocationData = map<string, Location>

  /** The criteria of `filterRestaurants`; every field may be left out. The
      price is kept as the string the caller supplied. */
  datatype RestaurantFilters = RestaurantFilters(
    cuisine: Option<string>,
    location: Option<string>,
    priceRange: Option<string>,
    rating: Option<real>,
    features: Option<seq<string>>)

  const NoFilters := RestaurantFilters(None, None, None, None, None)

  /** JavaScript truthiness of an optional string: present and not `""`. */
  predicate IsSet(o: Option<string>) {
    o.Some? && o.value != ""
  }

  /** JavaScript truthiness of an optional number: present and not `0`. */
  predicate RatingIsSet(o: Option<real>) {
    o.Some? && o.value != 0.0
  }

  /** `features && features.length > 0`. */
  predicate FeaturesAreSet(o: Option<seq<string>>) {
    o.Some? && |o.value| > 0
  }
}
