/**
 * Quarterly trends (`AdvancedAnalyticsController.getSeasonalTrends`).
 *
 * Orders dated within the last `years` years are grouped by a quarter key and
 * summarised per quarter, and the rows are sorted by key.  The key is built
 * by string concatenation: the year, "-Q", the zero-based quarter index and
 * then the digit 1 — so January 2024 is keyed "2024-Q01" rather than
 * "2024-Q1".  `QuarterKeyAsWritten` is that key, and the summaries below are
 * labelled with it, as the report returns them; `QuarterKey` is the intended
 * one.  Both group the months of a year into the same four quarters, so only
 * the label differs.
 */
module SeasonalTrends {
  import opened Seqs
  import opened Strings
  import opened Entities
  import opened Calendar

  /** Zero-based quarter of a month 1..12: `(month - 1) / 3`. */
  function QuarterIndex(month: int): int
  {
    (month - 1) / 3
  }

  /** The key as the source builds it: `year + "-Q" + (month - 1) / 3 + 1` concatenates "1" after the index. */
  function QuarterKeyAsWritten(year: int, month: int): string
  {
    IntToString(year) + "-Q" + IntToString(QuarterIndex(month)) + IntToString(1)
  }

  /** The label evidently intended: the one-based quarter number. */
  function QuarterKey(year: int, month: int): string
  {
    IntToString(year) + "-Q" + IntToString(QuarterIndex(month) + 1)
  }

  /** January 2024 is labelled "2024-Q01" as written; the intended label is "2024-Q1". */
  lemma QuarterKeyExample()
    ensures QuarterKeyAsWritten(2024, 1) == "2024-Q01"
    ensures QuarterKeyAsWritten(2024, 5) == "2024-Q11"
    ensures QuarterKey(2024, 1) == "2024-Q1"
    ensures QuarterKeyAsWritten(2024, 1) != QuarterKey(2024, 1)
  {
    assert IntToString(2024) == "2024" by {
      assert NatToString(2) == "2";
      assert NatToString(20) == "20";
      assert NatToString(202) == "202";
    }
  }

  /** The intended key names quarter 1 to 4 for every month of the year. */
  lemma QuarterKeyNumbers(year: int, month: int)
    requires 1 <= month <= 12
    ensures 1 <= QuarterIndex(month) + 1 <= 4
    ensures QuarterKey(year, month) == IntToString(year) + "-Q" + [DigitChar(QuarterIndex(month) + 1)]
    ensures QuarterKeyAsWritten(year, month) == IntToString(year) + "-Q" + [DigitChar(QuarterIndex(month)), '1']
  {
  }

  /** Months of one quarter share a key, months of different quarters of a year do not (both labellings). */
  lemma QuarterKeySameQuarter(year: int, m1: int, m2: int)
    requires 1 <= m1 <= 12 && 1 <= m2 <= 12
    ensures QuarterKey(year, m1) == QuarterKey(year, m2) <==> QuarterIndex(m1) == QuarterIndex(m2)
    ensures QuarterKeyAsWritten(year, m1) == QuarterKeyAsWritten(year, m2) <==> QuarterIndex(m1) == QuarterIndex(m2)
  {
    QuarterKeyNumbers(year, m1);
    QuarterKeyNumbers(year, m2);
    var p := IntToString(year) + "-Q";
    if QuarterKey(year, m1) == QuarterKey(year, m2) {
      assert QuarterKey(year, m1)[|p|] == QuarterKey(year, m2)[|p|];
    }
    if QuarterKeyAsWritten(year, m1) == QuarterKeyAsWritten(year, m2) {
      assert QuarterKeyAsWritten(year, m1)[|p|] == QuarterKeyAsWritten(year, m2)[|p|];
    }
  }

  /** Within a year, the labels as written sort in quarter order, so sorting the rows by label sorts them chronologically. */
  lemma QuarterKeyAsWrittenOrder(year: int, m1: int, m2: int)
    requires 1 <= m1 <= 12 && 1 <= m2 <= 12
    ensures StrLe(QuarterKeyAsWritten(year, m1), QuarterKeyAsWritten(year, m2)) <==> QuarterIndex(m1) <= QuarterIndex(m2)
  {
    QuarterKeyNumbers(year, m1);
    QuarterKeyNumbers(year, m2);
    var p := IntToString(year) + "-Q";
    var t1 := [DigitChar(QuarterIndex(m1)), '1'];
    var t2 := [DigitChar(QuarterIndex(m2)), '1'];
    StrLessConcat(p, t2, p, t1);
    assert !StrLess(p, p) by {
      StrLessIrreflexive(p);
    }
    assert StrLess(t2, t1) <==> QuarterIndex(m2) < QuarterIndex(m1) by {
      assert t2[1..] == t1[1..];
      if t2[0] == t1[0] {
        StrLessIrreflexive(t2[1..]);
      }
    }
  }

  datatype QuarterRow = QuarterRow(period: string, revenue: int, orders: nat, customers: nat, avgOrderValue: Ratio)

  /** `LocalDate.minusYears`: the same month and day, clamped to the month's length. */
  function MinusYears(day: int, years: int): int
  {
    var d := CivilFromDays(day);
    var y := d.year - years;
    var dom := if d.dayOfMonth > DaysInMonth(y, d.month) then DaysInMonth(y, d.month) else d.dayOfMonth;
    DaysFromCivil(y, d.month, dom)
  }

  /** The orders the report reads: dated from the start of (today − years) to the first instant of tomorrow, inclusive. */
  function SeasonalWindow(orders: seq<Order>, today: int, years: int): seq<Order>
  {
    FindByCreateAtBetween(orders, MinusYears(today, years) * MillisPerDay, (today + 1) * MillisPerDay)
  }

  /** The period label of an order, built as the source builds it. */
  function OrderQuarter(o: Order): string
  {
    var ym := MonthOf(DayOf(if o.createAt.Some? then o.createAt.value else 0));
    QuarterKeyAsWritten(ym.year, ym.month)
  }

  function InQuarter(os: seq<Order>, key: string): seq<Order>
  {
    Filter(os, (o: Order) => OrderQuarter(o) == key)
  }

  /** The distinct user ids of a quarter's orders, leaving out orders without a user. */
  function QuarterCustomers(os: seq<Order>, key: string): set<int>
  {
    set o | o in os && OrderQuarter(o) == key && o.user.Some? :: o.user.value
  }

  /** A quarter's revenue is the sum over all orders of the totals that fall in it. */
  lemma QuarterRevenue(os: seq<Order>, key: string)
    ensures Revenue(InQuarter(os, key)) == Sum(os, (o: Order) => if OrderQuarter(o) == key then TotalPrice(o) else 0)
  {
    SumFilterBy(os, (o: Order) => OrderQuarter(o) == key, TotalPrice, (o: Order) => if OrderQuarter(o) == key then TotalPrice(o) else 0);
  }

  /** A quarter's customers are the users of the orders that fall in it. */
  lemma QuarterCustomersAre(os: seq<Order>, key: string)
    ensures CustomerIds(InQuarter(os, key)) == QuarterCustomers(os, key)
  {
    var qs := InQuarter(os, key);
    forall u | u in QuarterCustomers(os, key)
      ensures u in CustomerIds(qs)
    {
      var o :| o in os && OrderQuarter(o) == key && o.user.Some? && o.user.value == u;
      assert o in qs;
      var i :| 0 <= i < |qs| && qs[i] == o;
    }
    forall u | u in CustomerIds(qs)
      ensures u in QuarterCustomers(os, key)
    {
      var i :| 0 <= i < |qs| && qs[i].user.Some? && qs[i].user.value == u;
      assert qs[i] in qs;
    }
  }

  /** One quarter's summary: revenue, order count, distinct customers, and revenue per order. */
  function QuarterSummary(os: seq<Order>, key: string): (row: QuarterRow)
    ensures row.period == key
    ensures row.revenue == Sum(os, (o: Order) => if OrderQuarter(o) == key then TotalPrice(o) else 0)
    ensures row.orders == CountKey(os, OrderQuarter, key)
    ensures row.customers == |QuarterCustomers(os, key)|
    ensures row.customers <= row.orders
    ensures row.orders > 0 ==> row.avgOrderValue == Ratio(row.revenue, row.orders)
  {
    var qs := InQuarter(os, key);
    CountIsCountKey(os, (o: Order) => OrderQuarter(o) == key, OrderQuarter, key);
    CustomerIdsBound(qs);
    QuarterRevenue(os, key);
    QuarterCustomersAre(os, key);
    QuarterRow(key, Revenue(qs), |qs|, |CustomerIds(qs)|, if |qs| > 0 then Ratio(Revenue(qs), |qs|) else Ratio(0, 1))
  }

  predicate PeriodLe(a: QuarterRow, b: QuarterRow)
  {
    StrLe(a.period, b.period)
  }

  /** One summary per quarter that has orders, in first-seen order (the map's entries before sorting). */
  function QuarterSummaries(window: seq<Order>): (rows: seq<QuarterRow>)
    ensures |rows| == |Keys(window, OrderQuarter)|
    ensures forall row :: row in rows <==> exists k :: k in Keys(window, OrderQuarter) && row == QuarterSummary(window, k)
  {
    Map(Keys(window, OrderQuarter), (k: string) => QuarterSummary(window, k))
  }

  /** `getSeasonalTrends`: the quarter summaries sorted by key. */
  function SeasonalTrends(orders: seq<Order>, today: int, years: int): (rows: seq<QuarterRow>)
    ensures SortedBy(rows, PeriodLe)
    ensures multiset(rows) == multiset(QuarterSummaries(SeasonalWindow(orders, today, years)))
  {
    StrLeTotalPreorder();
    SortBy(QuarterSummaries(SeasonalWindow(orders, today, years)), PeriodLe)
  }

  /** The quarters' order counts add up to the number of orders in the window. */
  lemma SeasonalOrdersTotal(orders: seq<Order>, today: int, years: int)
    ensures var window := SeasonalWindow(orders, today, years);
      Sum(Keys(window, OrderQuarter), (k: string) => CountKey(window, OrderQuarter, k)) == |window|
  {
    CountKeysPartition(SeasonalWindow(orders, today, years), OrderQuarter);
  }

  /** Every row is the summary of a quarter with orders in the window, and every such quarter has exactly one row. */
  lemma SeasonalRowsPerQuarter(orders: seq<Order>, today: int, years: int, row: QuarterRow)
    ensures var window := SeasonalWindow(orders, today, years);
      row in SeasonalTrends(orders, today, years) <==>
      exists k :: k in Keys(window, OrderQuarter) && row == QuarterSummary(window, k)
    ensures |SeasonalTrends(orders, today, years)| == |Keys(SeasonalWindow(orders, today, years), OrderQuarter)|
  {
    var rows := SeasonalTrends(orders, today, years);
    var unsorted := QuarterSummaries(SeasonalWindow(orders, today, years));
    assert row in rows <==> row in multiset(rows);
    assert row in unsorted <==> row in multiset(unsorted);
    assert |rows| == |multiset(rows)|;
  }
}
