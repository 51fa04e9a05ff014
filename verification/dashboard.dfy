/** The dashboard's data state as its constructor builds it (catalog, then
    creator panel, then market history) and as each refresh changes it. */
module Dashboard {
  import opened Wrappers
  import opened Catalog
  import opened Calendar
  import opened Creators
  import opened Market
  import opened Live

  datatype DashboardState = DashboardState(
    platforms: seq<Platform>,
    creators: seq<Creator>,
    market: seq<MarketRow>
  )

  /** Month ends of the history start in 2020, so no catalog platform is
      founded after any of them. */
  lemma HistoryAfterFoundings(today: Date)
    requires ValidDate(today)
    ensures forall d :: 0 <= d < |MonthEnds(today)| ==> ValidMonth(MonthEnds(today)[d]) && 2020 <= MonthEnds(today)[d].year
  {
  }

  /** The constructor. `datetime.now()` appears twice in the code and
      is modelled by two parameters that nothing ties together: `today` is
      the calendar date that ends the month-end range, and `dayNumber` the
      day count that account ages are subtracted from. Before the first
      month end, 2020-01-31, the history is empty and construction fails
      with `KeyError`: that is `None`. Otherwise the history has one row
      per (month end, platform), each with its revenue's share of its
      month's total; the noise draws decide whether those shares lie in
      [0, 100]. Every record earns within its category's range of its own
      platform's average. */
  method Initialize(today: Date, dayNumber: int, creatorDraws: seq<CreatorDraw>, marketDraws: seq<MarketDraw>)
    returns (result: Option<DashboardState>)
    requires ValidDate(today)
    requires |creatorDraws| == PanelSize
    requires forall i :: 0 <= i < |creatorDraws| ==> ValidDraw(creatorDraws[i], 6)
    requires |marketDraws| == |MonthEnds(today)| * 6
    requires DivisibleTotals(GenerateRows(Platforms(), MonthEnds(today), marketDraws))
    ensures result.None? <==> !DateLe(MonthEnd(Start), today)
    ensures result.Some? ==> result.value.platforms == Platforms()
    ensures result.Some? ==> |result.value.creators| == PanelSize && WellNumbered(result.value.creators)
    ensures result.Some? ==> forall i :: 0 <= i < PanelSize ==>
      result.value.creators[i] == MakeCreator(Platforms(), i + 1, creatorDraws[i], dayNumber)
    ensures result.Some? ==> forall i :: 0 <= i < |result.value.creators| ==>
      var c := result.value.creators[i];
      && Lookup(result.value.platforms, c.platform).Some?
      && InitialBounds(c, dayNumber)
      && EarningsInRange(c.monthlyEarnings, Lookup(result.value.platforms, c.platform).value.avgCreatorEarnings as real, c.category)
    ensures result.Some? ==> |result.value.market| == |MonthEnds(today)| * |result.value.platforms|
    ensures result.Some? ==> forall d, p :: 0 <= d < |MonthEnds(today)| && 0 <= p < 6 ==>
      0 <= Cell(d, 6, p) < |result.value.market| &&
      result.value.market[Cell(d, 6, p)].(marketShare := 0.0) == MakeRow(MonthEnds(today)[d], Platforms()[p], marketDraws[Cell(d, 6, p)])
    ensures result.Some? ==> forall i :: 0 <= i < |result.value.market| ==>
      var m := result.value.market;
      DateTotal(m, m[i].date) != 0.0 && m[i].marketShare == ShareOf(m[i].revenueMillions, DateTotal(m, m[i].date))
    ensures result.Some? ==> forall i :: 0 <= i < |result.value.market| ==>
      ShareSum(result.value.market, result.value.market[i].date) == 100.0
    ensures result.Some? && (forall k :: 0 <= k < |marketDraws| ==> -1.0 < marketDraws[k].creatorVariation) ==>
      forall i :: 0 <= i < |result.value.market| ==> 0.0 <= result.value.market[i].marketShare <= 100.0
  {
    var platforms := Platforms();
    PlatformsWellFormed();
    var creators := InitializeCreatorsData(platforms, creatorDraws, dayNumber);
    forall i | 0 <= i < |creators|
      ensures Lookup(platforms, creators[i].platform) == Some(platforms[creatorDraws[i].platformIndex])
    {
      LookupFindsEach(platforms, creatorDraws[i].platformIndex);
    }
    var dates := MonthEnds(today);
    HistoryAfterFoundings(today);
    EmptyHistoryExactly(today);
    var market := InitializeMarketData(platforms, dates, marketDraws);
    if market.None? {
      return None;
    }
    result := Some(DashboardState(platforms, creators, market.value));
  }

  /** A call of `update_live_data`: the panel is updated, the catalog and
      history are not. */
  function Tick(s: DashboardState, draws: seq<JitterDraw>): (next: DashboardState)
    requires |draws| == |s.creators|
    requires forall i :: 0 <= i < |draws| ==> ValidJitter(draws[i])
    ensures next.platforms == s.platforms && next.market == s.market
    ensures |next.creators| == |s.creators|
    ensures forall i :: 0 <= i < |s.creators| ==>
      SameIdentity(s.creators[i], next.creators[i]) && 0.0 <= next.creators[i].engagementRate <= EngagementMax
  {
    s.(creators := UpdateLiveData(s.creators, draws))
  }

  /** Every script run builds a fresh dashboard and updates its panel once,
      or twice when the refresh button is pressed. From a freshly generated
      panel, follower counts therefore stay at or above 950 after one
      update and 900 after two: the missing clamp is never reached. */
  lemma FreshPanelFollowersFloor(s: DashboardState, first: seq<JitterDraw>, second: seq<JitterDraw>, dayNumber: int)
    requires forall i :: 0 <= i < |s.creators| ==> InitialBounds(s.creators[i], dayNumber)
    requires |first| == |s.creators| && forall i :: 0 <= i < |first| ==> ValidJitter(first[i])
    requires |second| == |s.creators| && forall i :: 0 <= i < |second| ==> ValidJitter(second[i])
    ensures forall i :: 0 <= i < |s.creators| ==> 950 <= Tick(s, first).creators[i].followers
    ensures forall i :: 0 <= i < |s.creators| ==> 900 <= Tick(Tick(s, first), second).creators[i].followers
  {
  }
}
