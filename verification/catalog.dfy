/** The platform catalog: a fixed, ordered table of six subscription
    platforms keyed by name (a Python dict, whose iteration order is the
    order of insertion). */
module Catalog {
  import opened Wrappers

  datatype Platform = Platform(
    name: string,
    color: string,
    founded: int,
    fees: int,                  // percentage kept by the platform
    contentType: string,
    monthlyUsers: int,
    creatorsCount: int,
    avgCreatorEarnings: int
  )

  /** The six platforms, in the order the dashboard iterates them. */
  function Platforms(): (catalog: seq<Platform>)
    ensures |catalog| == 6
  {
    [
      Platform("OnlyFans", "#00A2FF", 2016, 20, "Mixed", 250000000, 3000000, 180),
      Platform("MyM", "#FF6B35", 2018, 20, "Adult", 50000000, 500000, 220),
      Platform("Fansly", "#FF4081", 2020, 20, "Adult", 100000000, 800000, 190),
      Platform("Patreon", "#FF9500", 2013, 5, "Mixed", 80000000, 250000, 150),
      Platform("JustForFans", "#4CAF50", 2019, 20, "Adult", 30000000, 200000, 280),
      Platform("LoyalFans", "#9C27B0", 2020, 15, "Adult", 40000000, 300000, 210)
    ]
  }

  /** The catalog's keys, in order. */
  function Names(catalog: seq<Platform>): (names: seq<string>)
    ensures |names| == |catalog|
    ensures forall i :: 0 <= i < |catalog| ==> names[i] == catalog[i].name
  {
    seq(|catalog|, i requires 0 <= i < |catalog| => catalog[i].name)
  }

  /** No two platforms share a name, so the catalog is a map. */
  predicate UniqueNames(catalog: seq<Platform>) {
    forall i, j :: 0 <= i < j < |catalog| ==> catalog[i].name != catalog[j].name
  }

  /** Business parameters a platform record needs for the growth and
      revenue formulas to describe a real platform. */
  predicate Sensible(p: Platform) {
    && 0 <= p.fees <= 100
    && 0 < p.monthlyUsers
    && 0 < p.creatorsCount
    && 0 < p.avgCreatorEarnings
  }

  predicate WellFormed(catalog: seq<Platform>) {
    && 0 < |catalog|
    && UniqueNames(catalog)
    && forall i :: 0 <= i < |catalog| ==> Sensible(catalog[i])
  }

  /** `platforms[name]`: the record stored under `name`, or `None` where
      Python would raise `KeyError`. */
  function Lookup(catalog: seq<Platform>, name: string): (r: Option<Platform>)
    ensures r.Some? <==> name in Names(catalog)
    ensures r.Some? ==> r.value in catalog && r.value.name == name
    decreases |catalog|
  {
    if |catalog| == 0 then None
    else if catalog[0].name == name then Some(catalog[0])
    else
      var rest := Lookup(catalog[1..], name);
      assert Names(catalog) == [catalog[0].name] + Names(catalog[1..]);
      rest
  }

  /** With unique names, looking up a platform's own name finds exactly
      that platform. */
  lemma {:induction false} LookupFindsEach(catalog: seq<Platform>, i: int)
    requires UniqueNames(catalog)
    requires 0 <= i < |catalog|
    ensures Lookup(catalog, catalog[i].name) == Some(catalog[i])
    decreases i
  {
    if i > 0 {
      assert catalog[0].name != catalog[i].name;
      assert UniqueNames(catalog[1..]) by {
        forall j, k | 0 <= j < k < |catalog[1..]|
          ensures catalog[1..][j].name != catalog[1..][k].name
        {
          assert catalog[1..][j] == catalog[j + 1] && catalog[1..][k] == catalog[k + 1];
        }
      }
      LookupFindsEach(catalog[1..], i - 1);
      assert catalog[1..][i - 1] == catalog[i];
    }
  }

  /** The compiled-in catalog is well formed: six distinct names, fees in
      percent and positive user, creator and earnings bases. */
  lemma PlatformsWellFormed()
    ensures WellFormed(Platforms())
    ensures Names(Platforms()) == ["OnlyFans", "MyM", "Fansly", "Patreon", "JustForFans", "LoyalFans"]
    ensures forall i :: 0 <= i < |Platforms()| ==> Platforms()[i].founded <= 2020
  {
    var c := Platforms();
    assert Names(c) == ["OnlyFans", "MyM", "Fansly", "Patreon", "JustForFans", "LoyalFans"];
  }
}
