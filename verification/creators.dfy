/** The creator panel: one hundred synthetic creator records, each tied to
    a platform of the catalog and priced by a category-dependent multiplier
    of that platform's average creator earnings. */
module Creators {
  import opened Catalog
  import opened Draws
  import opened Decimal

  /** Number of records the panel is built with. */
  const PanelSize := 100

  const Categories: seq<string> :=
    ["Fitness", "Cosplay", "Lifestyle", "Adult", "Gaming", "Art", "Music", "Education"]

  const Countries: seq<string> :=
    ["USA", "UK", "Canada", "Australia", "Germany", "France", "Brazil", "Japan"]

  /** One row of the creator table. `activeSince` is a day number: the
      generation day minus the drawn account age. */
  datatype Creator = Creator(
    id: int,
    username: string,
    platform: string,
    category: string,
    country: string,
    monthlyEarnings: real,
    followers: int,
    subscriptionPrice: int,
    engagementRate: real,
    contentQuality: real,
    activeSince: int
  )

  /** The random draws made for one creator, in the order the generator
      makes them: three `random.choice` indices, the unit draw behind the
      earnings multiplier, `randint` followers and price, the unit draws
      behind engagement and quality, and the `randint` account age in days. */
  datatype CreatorDraw = CreatorDraw(
    platformIndex: int,
    categoryIndex: int,
    countryIndex: int,
    multiplierUnit: real,
    followers: int,
    subscriptionPrice: int,
    engagementUnit: real,
    qualityUnit: real,
    activeDays: int
  )

  /** Each draw lies in the range the generator asks for. */
  predicate ValidDraw(d: CreatorDraw, platformCount: int) {
    && 0 <= d.platformIndex < platformCount
    && 0 <= d.categoryIndex < |Categories|
    && 0 <= d.countryIndex < |Countries|
    && IsUnit(d.multiplierUnit)
    && 1000 <= d.followers <= 500000
    && 5 <= d.subscriptionPrice <= 50
    && IsUnit(d.engagementUnit)
    && IsUnit(d.qualityUnit)
    && 30 <= d.activeDays <= 1000
  }

  /** The `uniform` range of the earnings multiplier for a category. */
  datatype Range = Range(lo: real, hi: real)

  /** Every category's range is non-empty and lies within [0.8, 4.0]. */
  function MultiplierRange(category: string): (r: Range)
    ensures 0.8 <= r.lo < r.hi <= 4.0
  {
    if category == "Adult" then Range(1.5, 4.0)
    else if category == "Fitness" then Range(1.2, 2.5)
    else Range(0.8, 2.0)
  }

  /** The average earnings of the platform the draw picks. */
  function BaseEarnings(catalog: seq<Platform>, d: CreatorDraw): real
    requires ValidDraw(d, |catalog|)
  {
    catalog[d.platformIndex].avgCreatorEarnings as real
  }

  /** `f'creator_{id}'`: the prefix, then digits that parse back to `id`. */
  function Username(id: nat): (u: string)
    ensures 8 < |u| && u[..8] == "creator_"
    ensures AllDigits(u[8..]) && ParseDigits(u[8..]) == id
  {
    ParseNatToString(id);
    var digits := NatToString(id);
    assert ("creator_" + digits)[8..] == digits;
    "creator_" + digits
  }

  /** Earnings that are a non-negative `base` times a multiplier of the
      category's range: between `base × lo` and `base × hi`, and, for a
      positive base, with a ratio to the base in [lo, hi). */
  predicate EarningsInRange(earnings: real, base: real, category: string) {
    EarningsWithin(earnings, base, MultiplierRange(category).lo, MultiplierRange(category).hi)
  }

  /** The bounds every freshly generated record satisfies. */
  predicate InitialBounds(c: Creator, today: int) {
    && 1000 <= c.followers <= 500000
    && 5 <= c.subscriptionPrice <= 50
    && 2.0 <= c.engagementRate <= 15.0
    && 3.0 <= c.contentQuality <= 5.0
    && today - 1000 <= c.activeSince <= today - 30
  }

  /** The record generated for the creator numbered `id` from draws `d`. */
  function MakeCreator(catalog: seq<Platform>, id: nat, d: CreatorDraw, today: int): (c: Creator)
    requires ValidDraw(d, |catalog|)
    ensures c.id == id && c.username == Username(id)
    ensures c.platform == catalog[d.platformIndex].name
    ensures c.platform in Names(catalog)
    ensures c.category in Categories && c.country in Countries
  {
    var platform := catalog[d.platformIndex];
    var category := Categories[d.categoryIndex];
    var range := MultiplierRange(category);
    var multiplier := Uniform(range.lo, range.hi, d.multiplierUnit);
    var base := BaseEarnings(catalog, d);
    Creator(
      id,
      Username(id),
      platform.name,
      category,
      Countries[d.countryIndex],
      base * multiplier,
      d.followers,
      d.subscriptionPrice,
      Uniform(2.0, 15.0, d.engagementUnit),
      Uniform(3.0, 5.0, d.qualityUnit),
      today - d.activeDays
    )
  }

  /** A generated record's earnings are its platform's average times a
      multiplier of its category's range, and its other drawn fields lie
      in the ranges the generator draws them from. */
  lemma GeneratedCreatorBounds(catalog: seq<Platform>, id: nat, d: CreatorDraw, today: int)
    requires ValidDraw(d, |catalog|)
    ensures var c := MakeCreator(catalog, id, d, today);
      && EarningsInRange(c.monthlyEarnings, BaseEarnings(catalog, d), c.category)
      && InitialBounds(c, today)
  {
    var category := Categories[d.categoryIndex];
    var range := MultiplierRange(category);
    var multiplier := Uniform(range.lo, range.hi, d.multiplierUnit);
    var base := BaseEarnings(catalog, d);
    ScaledMultiplier(base, multiplier, range.lo, range.hi);
    var c := MakeCreator(catalog, id, d, today);
    assert c.monthlyEarnings == base * multiplier && c.category == category;
  }

  /** Multiplying `lo <= m < hi` by a base keeps the order for a
      non-negative base, and dividing back by a positive base recovers `m`. */
  lemma ScaledMultiplier(base: real, m: real, lo: real, hi: real)
    requires lo <= m < hi
    ensures EarningsWithin(base * m, base, lo, hi)
  {
    if 0.0 <= base {
      MulNonneg(base, m - lo);
      MulNonneg(base, hi - m);
    }
    if 0.0 < base {
      RatioBack(base, m);
    }
  }

  predicate EarningsWithin(earnings: real, base: real, lo: real, hi: real) {
    && (0.0 <= base ==> base * lo <= earnings <= base * hi)
    && (0.0 < base ==> lo <= earnings / base < hi)
  }

  /** `initialize_creators_data`: the panel built from one draw per creator. */
  method InitializeCreatorsData(catalog: seq<Platform>, draws: seq<CreatorDraw>, today: int)
    returns (panel: seq<Creator>)
    requires |draws| == PanelSize
    requires forall i :: 0 <= i < |draws| ==> ValidDraw(draws[i], |catalog|)
    ensures |panel| == PanelSize
    ensures forall i :: 0 <= i < |panel| ==> panel[i] == MakeCreator(catalog, i + 1, draws[i], today)
    ensures WellNumbered(panel)
    ensures forall i :: 0 <= i < |panel| ==> panel[i].platform in Names(catalog)
    ensures forall i :: 0 <= i < |panel| ==> InitialBounds(panel[i], today)
    ensures forall i :: 0 <= i < |draws| ==>
      EarningsInRange(panel[i].monthlyEarnings, BaseEarnings(catalog, draws[i]), panel[i].category)
  {
    panel := [];
    for i := 0 to PanelSize
      invariant |panel| == i
      invariant forall j :: 0 <= j < i ==> panel[j] == MakeCreator(catalog, j + 1, draws[j], today)
    {
      panel := panel + [MakeCreator(catalog, i + 1, draws[i], today)];
    }
    forall i | 0 <= i < |draws|
      ensures panel[i].id == i + 1 && panel[i].username == Username(i + 1)
      ensures panel[i].platform in Names(catalog) && InitialBounds(panel[i], today)
      ensures EarningsInRange(panel[i].monthlyEarnings, BaseEarnings(catalog, draws[i]), panel[i].category)
    {
      GeneratedCreatorBounds(catalog, i + 1, draws[i], today);
    }
  }

  /** A panel as the generator leaves it: records numbered 1, 2, … in
      order and named after their number. */
  predicate WellNumbered(panel: seq<Creator>) {
    forall i :: 0 <= i < |panel| ==> panel[i].id == i + 1 && panel[i].username == Username(i + 1)
  }

  /** Usernames of a well-numbered panel are pairwise distinct, so they
      identify records as well as the ids do. */
  lemma UsernamesDistinct(panel: seq<Creator>, i: int, j: int)
    requires WellNumbered(panel)
    requires 0 <= i < j < |panel|
    ensures panel[i].username != panel[j].username
  {
    NatToStringInjective(i + 1, j + 1);
    assert Username(i + 1)[8..] == NatToString(i + 1);
    assert Username(j + 1)[8..] == NatToString(j + 1);
  }
}
