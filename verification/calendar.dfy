/** Month-end dates, as `pd.date_range('2020-01-01', now, freq='M')`
    produces them: every last day of a month from January 2020 up to the
    generation date. A month end is identified by its (year, month). */
module Calendar {

  datatype YearMonth = YearMonth(year: int, month: int)

  /** A calendar date; the date part of `datetime.now()`. */
  datatype Date = Date(year: int, month: int, day: int)

  predicate ValidMonth(ym: YearMonth) {
    1 <= ym.month <= 12
  }

  /** Months counted from January of year 0; consecutive months differ by one. */
  function Index(ym: YearMonth): int {
    ym.year * 12 + ym.month - 1
  }

  /** Gregorian leap years. */
  predicate IsLeap(year: int) {
    year % 4 == 0 && (year % 100 != 0 || year % 400 == 0)
  }

  function DaysInMonth(year: int, month: int): (n: int)
    requires 1 <= month <= 12
    ensures 28 <= n <= 31
  {
    if month == 2 then (if IsLeap(year) then 29 else 28)
    else if month in {4, 6, 9, 11} then 30
    else 31
  }

  predicate ValidDate(d: Date) {
    1 <= d.month <= 12 && 1 <= d.day <= DaysInMonth(d.year, d.month)
  }

  /** The last day of a month. */
  function MonthEnd(ym: YearMonth): (d: Date)
    requires ValidMonth(ym)
    ensures ValidDate(d)
  {
    Date(ym.year, ym.month, DaysInMonth(ym.year, ym.month))
  }

  /** Chronological order of dates. */
  predicate DateLe(a: Date, b: Date) {
    a.year < b.year || (a.year == b.year && (a.month < b.month || (a.month == b.month && a.day <= b.day)))
  }

  /** The first month of the range. */
  const Start := YearMonth(2020, 1)

  function Next(ym: YearMonth): (n: YearMonth)
    requires ValidMonth(ym)
    ensures ValidMonth(n)
    ensures Index(n) == Index(ym) + 1
  {
    if ym.month == 12 then YearMonth(ym.year + 1, 1) else YearMonth(ym.year, ym.month + 1)
  }

  /** `count` consecutive months starting at `first`. */
  function MonthsFrom(first: YearMonth, count: nat): (months: seq<YearMonth>)
    requires ValidMonth(first)
    ensures |months| == count
    ensures forall i :: 0 <= i < count ==> ValidMonth(months[i]) && Index(months[i]) == Index(first) + i
    decreases count
  {
    if count == 0 then [] else [first] + MonthsFrom(Next(first), count - 1)
  }

  /** The month ends from January 2020 up to `today`: a month's own end is
      included once `today` has reached it. */
  function MonthEnds(today: Date): (months: seq<YearMonth>)
    requires ValidDate(today)
    ensures forall i :: 0 <= i < |months| ==> ValidMonth(months[i]) && Index(months[i]) == Index(Start) + i
  {
    var current := YearMonth(today.year, today.month);
    var count := Index(current) - Index(Start) + (if today.day == DaysInMonth(today.year, today.month) then 1 else 0);
    MonthsFrom(Start, if count < 0 then 0 else count)
  }

  /** A valid month is determined by its index. */
  lemma IndexInjective(a: YearMonth, b: YearMonth)
    requires ValidMonth(a) && ValidMonth(b)
    requires Index(a) == Index(b)
    ensures a == b
  {
  }

  /** Months compare by index as their month ends compare by date. */
  lemma IndexOrder(a: YearMonth, b: YearMonth)
    requires ValidMonth(a) && ValidMonth(b)
    ensures Index(a) < Index(b) <==> a.year < b.year || (a.year == b.year && a.month < b.month)
  {
    if a.year < b.year {
      assert Index(a) <= a.year * 12 + 11 < (a.year + 1) * 12 <= Index(b);
    } else if b.year < a.year {
      assert Index(b) <= b.year * 12 + 11 < (b.year + 1) * 12 <= Index(a);
    }
  }

  /** `MonthEnds(today)` holds exactly the months from January 2020 whose
      last day is on or before `today`. */
  lemma MonthEndsExact(today: Date, ym: YearMonth)
    requires ValidDate(today)
    ensures ym in MonthEnds(today) <==>
      ValidMonth(ym) && Index(Start) <= Index(ym) && DateLe(MonthEnd(ym), today)
  {
    var current := YearMonth(today.year, today.month);
    var months := MonthEnds(today);
    if ym in months {
      var i :| 0 <= i < |months| && months[i] == ym;
      IndexOrder(ym, current);
      if Index(ym) == Index(current) {
        IndexInjective(ym, current);
      }
    }
    if ValidMonth(ym) && Index(Start) <= Index(ym) && DateLe(MonthEnd(ym), today) {
      IndexOrder(ym, current);
      var i := Index(ym) - Index(Start);
      if ym.year == today.year && ym.month == today.month {
        assert today.day == DaysInMonth(today.year, today.month);
      }
      assert 0 <= i < |months|;
      IndexInjective(months[i], ym);
    }
  }

  /** The month ends come out in strictly increasing order, one month apart. */
  lemma MonthEndsChronological(today: Date, i: int)
    requires ValidDate(today)
    requires 0 <= i < |MonthEnds(today)| - 1
    ensures MonthEnds(today)[i + 1] == Next(MonthEnds(today)[i])
  {
    var months := MonthEnds(today);
    IndexInjective(months[i + 1], Next(months[i]));
  }

  /** The range is empty exactly when the generation date falls before the
      first month end, 2020-01-31. */
  lemma EmptyHistoryExactly(today: Date)
    requires ValidDate(today)
    ensures |MonthEnds(today)| == 0 <==> !DateLe(MonthEnd(Start), today)
  {
    var months := MonthEnds(today);
    MonthEndsExact(today, Start);
    if |months| > 0 {
      IndexInjective(months[0], Start);
    }
  }
}
