/** The market history: one row per (month end, platform) with users,
    creators and revenue grown from the platform's base figures, then a
    second pass that turns each month's revenues into market shares. */
module Market {
  import opened Wrappers
  import opened Catalog
  import opened Calendar
  import opened Draws

  datatype MarketRow = MarketRow(
    date: YearMonth,
    platform: string,
    monthlyUsers: real,
    creatorsCount: real,
    revenueMillions: real,
    marketShare: real
  )

  /** The two `normalvariate` draws made for one row: relative noise on
      users (σ = 0.05) and on creators (σ = 0.03). Gaussian draws are
      unbounded, so any real is allowed. */
  datatype MarketDraw = MarketDraw(userVariation: real, creatorVariation: real)

  /** The saturation level of the growth factor. */
  const GrowthCap: real := 3.0

  /** The fee fraction the revenue formula applies to every platform. */
  const FeeFraction: real := 0.2

  /** `(date.year - founded) * 12 + date.month`. It is not clamped at
      zero, and it counts January of the founding year as month 1, so it is
      the number of months from the founding year's start, inclusive. It is
      positive exactly when the platform was founded by the date's year. */
  function MonthsSinceFounded(date: YearMonth, founded: int): (m: int)
    ensures m == Index(date) - Index(YearMonth(founded, 1)) + 1
    ensures ValidMonth(date) ==> (0 < m <==> founded <= date.year)
  {
    (date.year - founded) * 12 + date.month
  }

  /** `min(months * 0.1, 3.0)`. */
  function GrowthFactor(months: int): (g: real)
    ensures g <= GrowthCap
    ensures g == GrowthCap <==> 30 <= months
  {
    var linear := months as real * 0.1;
    if GrowthCap < linear then GrowthCap else linear
  }

  /** Below the cap the factor is a tenth of the month count. */
  lemma GrowthBelowCap(months: int)
    requires months < 30
    ensures GrowthFactor(months) * 10.0 == months as real
    ensures GrowthFactor(months) < GrowthCap
  {
  }

  /** More months never mean less growth. */
  lemma GrowthMonotone(m: int, n: int)
    requires m <= n
    ensures GrowthFactor(m) <= GrowthFactor(n)
  {
  }

  /** A platform founded no later than the row's year has grown by a
      positive factor. */
  lemma GrowthPositive(date: YearMonth, founded: int)
    requires ValidMonth(date)
    requires founded <= date.year
    ensures 0.0 < GrowthFactor(MonthsSinceFounded(date, founded))
  {
  }

  /** Pass one for a single (date, platform) pair; the share is left at 0. */
  function MakeRow(date: YearMonth, p: Platform, d: MarketDraw): (row: MarketRow)
    ensures row.date == date && row.platform == p.name
    ensures row.marketShare == 0.0
  {
    var growth := GrowthFactor(MonthsSinceFounded(date, p.founded));
    var users := p.monthlyUsers as real * growth * (1.0 + d.userVariation);
    var creators := p.creatorsCount as real * growth * (1.0 + d.creatorVariation);
    var revenue := creators * p.avgCreatorEarnings as real * FeeFraction;
    MarketRow(date, p.name, users, creators, revenue / 1000000.0, 0.0)
  }

  /** The revenue of a row is a fixed 20 % of its creators' earnings, in
      millions, whatever fee percentage the platform's record holds; with
      creators present it differs from the platform's own fee share unless
      that fee is 20. */
  lemma RevenueIgnoresPlatformFee(date: YearMonth, p: Platform, d: MarketDraw)
    ensures var row := MakeRow(date, p, d);
      row.revenueMillions * 1000000.0 == row.creatorsCount * p.avgCreatorEarnings as real * 0.2
    ensures var row := MakeRow(date, p, d);
      row.creatorsCount * p.avgCreatorEarnings as real != 0.0 && p.fees != 20 ==>
      row.revenueMillions * 1000000.0 != row.creatorsCount * p.avgCreatorEarnings as real * (p.fees as real / 100.0)
  {
    var row := MakeRow(date, p, d);
    var earned := row.creatorsCount * p.avgCreatorEarnings as real;
    assert row.revenueMillions * 1000000.0 == earned * 0.2;
    if earned != 0.0 && p.fees != 20 {
      var feeShare := p.fees as real / 100.0;
      assert feeShare != 0.2;
      DistinctScaling(earned, 0.2, feeShare);
    }
  }

  lemma DistinctScaling(x: real, a: real, b: real)
    requires x != 0.0
    requires a != b
    ensures x * a != x * b
  {
  }

  /** The rows of one date: one per platform, in catalog order, all
      dated `date` and with no share yet. */
  function DateRows(catalog: seq<Platform>, date: YearMonth, draws: seq<MarketDraw>): (rows: seq<MarketRow>)
    requires |draws| == |catalog|
    ensures |rows| == |catalog|
    ensures forall p :: 0 <= p < |catalog| ==>
      rows[p].date == date && rows[p].platform == catalog[p].name && rows[p].marketShare == 0.0
  {
    seq(|catalog|, p requires 0 <= p < |catalog| => MakeRow(date, catalog[p], draws[p]))
  }

  lemma MulSucc(d: int, n: int)
    ensures (d + 1) * n == d * n + n
  {
  }

  /** Pass one: for each date, for each platform, one row; the draws are
      consumed in the same order. */
  function GenerateRows(catalog: seq<Platform>, dates: seq<YearMonth>, draws: seq<MarketDraw>): (rows: seq<MarketRow>)
    requires |draws| == |dates| * |catalog|
    ensures |rows| == |dates| * |catalog|
    decreases |dates|
  {
    if |dates| == 0 then []
    else
      var n := |catalog|;
      MulSucc(|dates| - 1, n);
      DateRows(catalog, dates[0], draws[..n]) + GenerateRows(catalog, dates[1..], draws[n..])
  }

  /** Pass one is date-major: row `d·n + p` is platform `p` of date `d`,
      built from the draws with that index. */
  lemma {:induction false} GenerateRowsAt(catalog: seq<Platform>, dates: seq<YearMonth>, draws: seq<MarketDraw>, d: int, p: int)
    requires |draws| == |dates| * |catalog|
    requires 0 <= d < |dates| && 0 <= p < |catalog|
    ensures 0 <= Cell(d, |catalog|, p) < |dates| * |catalog|
    ensures GenerateRows(catalog, dates, draws)[Cell(d, |catalog|, p)] == MakeRow(dates[d], catalog[p], draws[Cell(d, |catalog|, p)])
    decreases d
  {
    var n := |catalog|;
    CellBelow(d, |dates|, n, p);
    MulSucc(|dates| - 1, n);
    var head := DateRows(catalog, dates[0], draws[..n]);
    var tail := GenerateRows(catalog, dates[1..], draws[n..]);
    assert GenerateRows(catalog, dates, draws) == head + tail;
    if d == 0 {
      assert Cell(d, n, p) == p;
    } else {
      MulSucc(d - 1, n);
      GenerateRowsAt(catalog, dates[1..], draws[n..], d - 1, p);
      assert Cell(d, n, p) == n + Cell(d - 1, n, p);
      assert dates[1..][d - 1] == dates[d];
      assert draws[n..][Cell(d - 1, n, p)] == draws[Cell(d, n, p)];
    }
  }

  /** The position of platform `p` of date `d` in a date-major table of
      `n` platforms per date. */
  function Cell(d: int, n: int, p: int): int {
    d * n + p
  }

  lemma CellBelow(d: int, count: int, n: int, p: int)
    requires 0 <= d < count
    requires 0 <= p < n
    ensures 0 <= Cell(d, n, p) < count * n
  {
    MulMono(d + 1, count, n);
    MulSucc(d, n);
  }

  lemma MulMono(a: int, b: int, n: int)
    requires 0 <= a <= b
    requires 0 <= n
    ensures a * n <= b * n
  {
  }

  // Pass two: market shares.

  /** Total revenue (in millions) of the rows dated `date`; zero for a date
      no row carries. */
  function DateTotal(rows: seq<MarketRow>, date: YearMonth): (total: real)
    ensures (forall i :: 0 <= i < |rows| ==> rows[i].date != date) ==> total == 0.0
    decreases |rows|
  {
    if |rows| == 0 then 0.0
    else (if rows[0].date == date then rows[0].revenueMillions else 0.0) + DateTotal(rows[1..], date)
  }

  /** Sum of the market shares of the rows dated `date`. */
  function ShareSum(rows: seq<MarketRow>, date: YearMonth): real
    decreases |rows|
  {
    if |rows| == 0 then 0.0
    else (if rows[0].date == date then rows[0].marketShare else 0.0) + ShareSum(rows[1..], date)
  }

  /** `revenue / total * 100`: the percentage of `total` that `revenue`
      makes up, so scaling it back by the total gives 100 × revenue. */
  function ShareOf(revenue: real, total: real): (share: real)
    requires total != 0.0
    ensures share * total == revenue * 100.0
  {
    RatioBack(total, revenue / total);
    revenue / total * 100.0
  }

  /** The share column of one date recomputed from that date's total. */
  function ShareForDate(rows: seq<MarketRow>, date: YearMonth): (r: seq<MarketRow>)
    requires DateTotal(rows, date) != 0.0
    ensures |r| == |rows|
    ensures forall i :: 0 <= i < |rows| && rows[i].date != date ==> r[i] == rows[i]
    ensures forall i :: 0 <= i < |rows| ==> r[i].(marketShare := rows[i].marketShare) == rows[i]
  {
    var total := DateTotal(rows, date);
    seq(|rows|, i requires 0 <= i < |rows| =>
      if rows[i].date == date then rows[i].(marketShare := ShareOf(rows[i].revenueMillions, total)) else rows[i])
  }

  /** Two tables that agree row by row on dates and revenues. */
  predicate SameRevenues(a: seq<MarketRow>, b: seq<MarketRow>) {
    |a| == |b| && forall i :: 0 <= i < |a| ==> a[i].date == b[i].date && a[i].revenueMillions == b[i].revenueMillions
  }

  /** Date totals depend on dates and revenues only. */
  lemma {:induction false} TotalIgnoresShares(a: seq<MarketRow>, b: seq<MarketRow>, date: YearMonth)
    requires SameRevenues(a, b)
    ensures DateTotal(a, date) == DateTotal(b, date)
    decreases |a|
  {
    if |a| > 0 {
      TotalIgnoresShares(a[1..], b[1..], date);
    }
  }

  lemma ShareOfAdd(x: real, y: real, total: real)
    requires total != 0.0
    ensures ShareOf(x, total) + ShareOf(y, total) == ShareOf(x + y, total)
  {
  }

  /** When every row of `date` holds its revenue's share of `total`, the
      shares add up to the date's revenue as a share of `total`. */
  lemma {:induction false} ShareSumScaled(rows: seq<MarketRow>, date: YearMonth, total: real)
    requires total != 0.0
    requires forall i :: 0 <= i < |rows| && rows[i].date == date ==>
      rows[i].marketShare == ShareOf(rows[i].revenueMillions, total)
    ensures ShareSum(rows, date) == ShareOf(DateTotal(rows, date), total)
    decreases |rows|
  {
    if |rows| > 0 {
      ShareSumScaled(rows[1..], date, total);
      var own := if rows[0].date == date then rows[0].revenueMillions else 0.0;
      ShareOfAdd(own, DateTotal(rows[1..], date), total);
    }
  }

  /** After the pass for `date`, that date's shares sum to 100. */
  lemma SharesSumTo100(rows: seq<MarketRow>, date: YearMonth)
    requires DateTotal(rows, date) != 0.0
    ensures ShareSum(ShareForDate(rows, date), date) == 100.0
  {
    var total := DateTotal(rows, date);
    var r := ShareForDate(rows, date);
    TotalIgnoresShares(r, rows, date);
    ShareSumScaled(r, date, total);
    ShareOfWhole(total);
  }

  lemma ShareOfWhole(total: real)
    requires total != 0.0
    ensures ShareOf(total, total) == 100.0
  {
  }

  /** With non-negative revenues, every row's revenue is at most its date's
      total. */
  lemma {:induction false} RevenueBelowTotal(rows: seq<MarketRow>, date: YearMonth, i: int)
    requires forall j :: 0 <= j < |rows| && rows[j].date == date ==> 0.0 <= rows[j].revenueMillions
    requires 0 <= i < |rows| && rows[i].date == date
    ensures 0.0 <= rows[i].revenueMillions <= DateTotal(rows, date)
    decreases i
  {
    NonnegTotal(rows[1..], date);
    if i > 0 {
      RevenueBelowTotal(rows[1..], date, i - 1);
    }
  }

  lemma {:induction false} NonnegTotal(rows: seq<MarketRow>, date: YearMonth)
    requires forall j :: 0 <= j < |rows| && rows[j].date == date ==> 0.0 <= rows[j].revenueMillions
    ensures 0.0 <= DateTotal(rows, date)
    decreases |rows|
  {
    if |rows| > 0 {
      NonnegTotal(rows[1..], date);
    }
  }

  lemma ShareOfBounds(revenue: real, total: real)
    requires 0.0 <= revenue <= total
    requires 0.0 < total
    ensures 0.0 <= ShareOf(revenue, total) <= 100.0
  {
    DivBelowOne(revenue, total);
  }

  /** With non-negative revenues and a positive total, each share of the
      date lies in [0, 100]. */
  lemma ShareForDateBounds(rows: seq<MarketRow>, date: YearMonth, i: int)
    requires forall j :: 0 <= j < |rows| && rows[j].date == date ==> 0.0 <= rows[j].revenueMillions
    requires 0.0 < DateTotal(rows, date)
    requires 0 <= i < |rows| && rows[i].date == date
    ensures 0.0 <= ShareForDate(rows, date)[i].marketShare <= 100.0
  {
    RevenueBelowTotal(rows, date, i);
    ShareOfBounds(rows[i].revenueMillions, DateTotal(rows, date));
  }

  // The whole of pass two, and the history as the dashboard builds it.

  function RowDates(rows: seq<MarketRow>): (dates: seq<YearMonth>)
    ensures |dates| == |rows|
    ensures forall i :: 0 <= i < |rows| ==> dates[i] == rows[i].date
  {
    seq(|rows|, i requires 0 <= i < |rows| => rows[i].date)
  }

  /** `unique()`: the distinct elements, in order of first appearance. */
  function Distinct(s: seq<YearMonth>): (r: seq<YearMonth>)
    ensures forall x :: x in r <==> x in s
    ensures forall i, j :: 0 <= i < j < |r| ==> r[i] != r[j]
    decreases |s|
  {
    if |s| == 0 then []
    else
      var prefix := Distinct(s[..|s| - 1]);
      assert s == s[..|s| - 1] + [s[|s| - 1]];
      if s[|s| - 1] in prefix then prefix else prefix + [s[|s| - 1]]
  }

  /** A row with its share of `total`. */
  function WithShare(row: MarketRow, total: real): MarketRow
    requires total != 0.0
  {
    row.(marketShare := ShareOf(row.revenueMillions, total))
  }

  /** Every date present in the table has a non-zero revenue total, so the
      division of pass two is defined. */
  predicate DivisibleTotals(rows: seq<MarketRow>) {
    forall i :: 0 <= i < |rows| ==> DateTotal(rows, rows[i].date) != 0.0
  }

  /** `r` is `rows` with the shares of the dates in `done` computed. */
  predicate SharedFor(rows: seq<MarketRow>, r: seq<MarketRow>, done: seq<YearMonth>)
    requires DivisibleTotals(rows)
  {
    |r| == |rows| &&
    forall i :: 0 <= i < |rows| ==>
      r[i] == if rows[i].date in done then WithShare(rows[i], DateTotal(rows, rows[i].date)) else rows[i]
  }

  /** The pass for a date not yet done extends the set of done dates. */
  lemma ShareStep(rows: seq<MarketRow>, r: seq<MarketRow>, done: seq<YearMonth>, date: YearMonth)
    requires DivisibleTotals(rows)
    requires SharedFor(rows, r, done)
    requires date !in done && date in RowDates(rows)
    ensures DateTotal(r, date) != 0.0
    ensures SharedFor(rows, ShareForDate(r, date), done + [date])
  {
    assert SameRevenues(r, rows);
    TotalIgnoresShares(r, rows, date);
  }

  /** Shares computed row by row from each date's total sum to 100 per
      date, and lie in [0, 100] when revenues are non-negative. */
  lemma NormalisedShares(rows: seq<MarketRow>, r: seq<MarketRow>)
    requires DivisibleTotals(rows)
    requires SharedFor(rows, r, RowDates(rows))
    ensures forall i :: 0 <= i < |rows| ==> ShareSum(r, rows[i].date) == 100.0
    ensures (forall i :: 0 <= i < |rows| ==> 0.0 <= rows[i].revenueMillions) ==>
      forall i :: 0 <= i < |rows| ==> 0.0 <= r[i].marketShare <= 100.0
  {
    assert SameRevenues(r, rows);
    forall i | 0 <= i < |rows|
      ensures ShareSum(r, rows[i].date) == 100.0
    {
      var date := rows[i].date;
      var total := DateTotal(rows, date);
      TotalIgnoresShares(r, rows, date);
      ShareSumScaled(r, date, total);
      ShareOfWhole(total);
    }
    if forall i :: 0 <= i < |rows| ==> 0.0 <= rows[i].revenueMillions {
      forall i | 0 <= i < |rows|
        ensures 0.0 <= r[i].marketShare <= 100.0
      {
        RevenueBelowTotal(rows, rows[i].date, i);
        ShareOfBounds(rows[i].revenueMillions, DateTotal(rows, rows[i].date));
      }
    }
  }

  /** Pass two over every distinct date of the table. Each row ends with its
      revenue's share of its own date's total, and each date's shares sum
      to 100; with non-negative revenues every share lies in [0, 100]. */
  method ComputeMarketShares(rows: seq<MarketRow>) returns (r: seq<MarketRow>)
    requires DivisibleTotals(rows)
    ensures |r| == |rows|
    ensures forall i :: 0 <= i < |rows| ==> r[i] == WithShare(rows[i], DateTotal(rows, rows[i].date))
    ensures forall i :: 0 <= i < |rows| ==> ShareSum(r, rows[i].date) == 100.0
    ensures (forall i :: 0 <= i < |rows| ==> 0.0 <= rows[i].revenueMillions) ==>
      forall i :: 0 <= i < |rows| ==> 0.0 <= r[i].marketShare <= 100.0
  {
    var dates := Distinct(RowDates(rows));
    r := rows;
    for k := 0 to |dates|
      invariant SharedFor(rows, r, dates[..k])
    {
      assert dates[..k + 1] == dates[..k] + [dates[k]];
      ShareStep(rows, r, dates[..k], dates[k]);
      r := ShareForDate(r, dates[k]);
    }
    assert dates[..|dates|] == dates;
    assert SharedFor(rows, r, RowDates(rows));
    NormalisedShares(rows, r);
  }

  /** A platform founded by the row's year, with positive bases, earns a
      positive revenue unless the creator noise reaches -100 %. */
  lemma RowRevenuePositive(date: YearMonth, p: Platform, d: MarketDraw)
    requires ValidMonth(date) && p.founded <= date.year
    requires Sensible(p)
    requires -1.0 < d.creatorVariation
    ensures 0.0 < MakeRow(date, p, d).revenueMillions
    ensures 0.0 < MakeRow(date, p, d).creatorsCount
  {
    var growth := GrowthFactor(MonthsSinceFounded(date, p.founded));
    GrowthPositive(date, p.founded);
    var grown := p.creatorsCount as real * growth;
    MulNonneg(p.creatorsCount as real, growth);
    var creators := grown * (1.0 + d.creatorVariation);
    MulNonneg(grown, 1.0 + d.creatorVariation);
    var earned := creators * p.avgCreatorEarnings as real;
    MulNonneg(creators, p.avgCreatorEarnings as real);
    var row := MakeRow(date, p, d);
    assert row.creatorsCount == creators;
    assert row.revenueMillions == earned * FeeFraction / 1000000.0;
  }

  /** A date some row carries, all of whose revenues are positive, has a
      positive total. */
  lemma PositiveTotal(rows: seq<MarketRow>, i: int)
    requires 0 <= i < |rows|
    requires forall j :: 0 <= j < |rows| ==> 0.0 < rows[j].revenueMillions
    ensures 0.0 < DateTotal(rows, rows[i].date)
  {
    RevenueBelowTotal(rows, rows[i].date, i);
  }

  /** The conditions under which every history row has a positive revenue:
      platforms with positive bases, founded by every date's year, and no
      creator noise at or below -100 %. */
  predicate PositiveHistory(catalog: seq<Platform>, dates: seq<YearMonth>, draws: seq<MarketDraw>) {
    && (forall p :: 0 <= p < |catalog| ==> Sensible(catalog[p]))
    && (forall d :: 0 <= d < |dates| ==> ValidMonth(dates[d]))
    && (forall d, p :: 0 <= d < |dates| && 0 <= p < |catalog| ==> catalog[p].founded <= dates[d].year)
    && (forall k :: 0 <= k < |draws| ==> -1.0 < draws[k].creatorVariation)
  }

  /** Under `PositiveHistory` every pass-one row earns a positive revenue,
      so every date's total is positive and pass two can divide by it. */
  lemma HistoryRevenuesPositive(catalog: seq<Platform>, dates: seq<YearMonth>, draws: seq<MarketDraw>)
    requires |draws| == |dates| * |catalog|
    requires PositiveHistory(catalog, dates, draws)
    ensures forall i :: 0 <= i < |dates| * |catalog| ==> 0.0 < GenerateRows(catalog, dates, draws)[i].revenueMillions
    ensures DivisibleTotals(GenerateRows(catalog, dates, draws))
  {
    var raw := GenerateRows(catalog, dates, draws);
    var n := |catalog|;
    forall i | 0 <= i < |raw|
      ensures 0.0 < raw[i].revenueMillions
    {
      var d, p := CellOf(i, n, |dates|);
      GenerateRowsAt(catalog, dates, draws, d, p);
      RowRevenuePositive(dates[d], catalog[p], draws[i]);
    }
    forall i | 0 <= i < |raw|
      ensures DateTotal(raw, raw[i].date) != 0.0
    {
      PositiveTotal(raw, i);
    }
  }

  /** `initialize_market_data`: pass one, then pass two. Pass one producing
      no row leaves a frame without a `date` column, and pass two's
      `df['date']` fails with `KeyError`: that is `None`. Otherwise the
      table holds one row per (date, platform), date-major in catalog
      order; apart from its share each row is the pass-one row; each row's
      share is its revenue as a percentage of its date's total, so each
      date's shares sum to 100; under `PositiveHistory` each share lies in
      [0, 100]. */
  method InitializeMarketData(catalog: seq<Platform>, dates: seq<YearMonth>, draws: seq<MarketDraw>)
    returns (result: Option<seq<MarketRow>>)
    requires |draws| == |dates| * |catalog|
    requires DivisibleTotals(GenerateRows(catalog, dates, draws))
    ensures result.None? <==> |dates| * |catalog| == 0
    ensures result.Some? ==> |result.value| == |dates| * |catalog|
    ensures result.Some? ==> forall d, p :: 0 <= d < |dates| && 0 <= p < |catalog| ==>
      0 <= Cell(d, |catalog|, p) < |result.value| &&
      result.value[Cell(d, |catalog|, p)].(marketShare := 0.0) == MakeRow(dates[d], catalog[p], draws[Cell(d, |catalog|, p)])
    ensures result.Some? ==> forall i :: 0 <= i < |result.value| ==>
      DateTotal(result.value, result.value[i].date) != 0.0 &&
      result.value[i].marketShare == ShareOf(result.value[i].revenueMillions, DateTotal(result.value, result.value[i].date))
    ensures result.Some? ==> forall i :: 0 <= i < |result.value| ==> ShareSum(result.value, result.value[i].date) == 100.0
    ensures result.Some? && PositiveHistory(catalog, dates, draws) ==>
      forall i :: 0 <= i < |result.value| ==> 0.0 <= result.value[i].marketShare <= 100.0
  {
    var raw := GenerateRows(catalog, dates, draws);
    if |raw| == 0 {
      return None;
    }
    var n := |catalog|;
    if PositiveHistory(catalog, dates, draws) {
      HistoryRevenuesPositive(catalog, dates, draws);
    }
    var rows := ComputeMarketShares(raw);
    forall d, p | 0 <= d < |dates| && 0 <= p < n
      ensures 0 <= Cell(d, n, p) < |rows|
      ensures rows[Cell(d, n, p)].(marketShare := 0.0) == MakeRow(dates[d], catalog[p], draws[Cell(d, n, p)])
    {
      GenerateRowsAt(catalog, dates, draws, d, p);
    }
    assert SameRevenues(rows, raw);
    forall i | 0 <= i < |rows|
      ensures DateTotal(rows, rows[i].date) == DateTotal(raw, raw[i].date)
    {
      TotalIgnoresShares(rows, raw, rows[i].date);
    }
    result := Some(rows);
  }

  /** Every position of a date-major table is the cell of some (date,
      platform) pair. */
  lemma CellOf(i: int, n: int, count: int) returns (d: int, p: int)
    requires 0 <= count
    requires 0 <= i < count * n
    ensures 0 <= d < count && 0 <= p < n && i == Cell(d, n, p)
  {
    if n <= 0 {
      assert false;
    }
    d := i / n;
    p := i % n;
    if count <= d {
      MulMono(count, d, n);
    }
  }
}
