/**
 * Category performance (`AdvancedAnalyticsController.getCategoryPerformance`):
 * the revenue-by-category query over [start of startDate, start of the day
 * after endDate], with rows lacking a category name skipped and missing
 * figures shown as 0.  Without dates the range is the last 30 days.
 */
module CategoryPerformance {
  import opened Seqs
  import opened Entities
  import opened Calendar
  import opened SalesQueries

  /** A query row as the controller reads it: any column may be NULL. */
  datatype RawCategoryRow = RawCategoryRow(category: Option<string>, revenue: Option<int>, orderCount: Option<int>)

  datatype CategoryRow = CategoryRow(category: string, revenue: int, orderCount: int)

  /** The day range: the given dates, or the 30 days up to today. */
  function DateRange(startDay: Option<int>, endDay: Option<int>, today: int): (range: (int, int))
    ensures range.0 == (if startDay.Some? then startDay.value else today - 30)
    ensures range.1 == (if endDay.Some? then endDay.value else today)
  {
    (if startDay.Some? then startDay.value else today - 30, if endDay.Some? then endDay.value else today)
  }

  function Format(r: RawCategoryRow): CategoryRow
    requires r.category.Some?
  {
    CategoryRow(r.category.value, if r.revenue.Some? then r.revenue.value else 0,
                if r.orderCount.Some? then r.orderCount.value else 0)
  }

  /** The controller's loop: rows without a category are skipped, the rest kept in order with NULL figures as 0. */
  function CategoryRows(raw: seq<RawCategoryRow>): (out: seq<CategoryRow>)
    ensures |out| == Count(raw, (r: RawCategoryRow) => r.category.Some?)
    ensures forall c :: c in out <==> exists r :: r in raw && r.category.Some? && c == Format(r)
    decreases |raw|
  {
    if |raw| == 0 then []
    else
      var init := raw[..|raw| - 1];
      var r := raw[|raw| - 1];
      assert forall x :: x in raw <==> x in init || x == r;
      CategoryRows(init) + (if r.category.Some? then [Format(r)] else [])
  }

  function AsRaw(r: CategoryRevenue): RawCategoryRow
  {
    RawCategoryRow(Some(r.category), Some(r.revenue), Some(r.orderCount))
  }

  function Plain(r: CategoryRevenue): CategoryRow
  {
    CategoryRow(r.category, r.revenue, r.orderCount)
  }

  /** `getCategoryPerformance`: the query over the day range, then the row loop. */
  function CategoryPerformance(lines: seq<OrderDetail>, startDay: Option<int>, endDay: Option<int>, today: int): seq<CategoryRow>
  {
    var w := Window(startDay, endDay, today);
    CategoryRows(Map(RevenueByCategory(lines, w.0, w.1), AsRaw))
  }

  /** The query's rows always have a category, so the loop passes them all through unchanged and in order. */
  lemma {:induction false} CategoryRowsKeepQueryRows(rows: seq<CategoryRevenue>)
    ensures CategoryRows(Map(rows, AsRaw)) == Map(rows, Plain)
    decreases |rows|
  {
    if |rows| > 0 {
      var init := rows[..|rows| - 1];
      CategoryRowsKeepQueryRows(init);
      assert Map(rows, AsRaw)[..|rows| - 1] == Map(init, AsRaw);
      assert Map(rows, Plain) == Map(init, Plain) + [Plain(rows[|rows| - 1])];
    }
  }

  /** The window of a report: from the start of the first day to the first instant after the last day. */
  function Window(startDay: Option<int>, endDay: Option<int>, today: int): (w: (int, int))
    ensures w.0 == DateRange(startDay, endDay, today).0 * MillisPerDay
    ensures w.1 == (DateRange(startDay, endDay, today).1 + 1) * MillisPerDay
  {
    var range := DateRange(startDay, endDay, today);
    (range.0 * MillisPerDay, (range.1 + 1) * MillisPerDay)
  }

  /** The report lists the query's categories, highest revenue first, with their revenues summing to the window's line total. */
  lemma CategoryPerformanceRows(lines: seq<OrderDetail>, startDay: Option<int>, endDay: Option<int>, today: int)
    ensures var w := Window(startDay, endDay, today);
      CategoryPerformance(lines, startDay, endDay, today) == Map(RevenueByCategory(lines, w.0, w.1), Plain)
    ensures var w := Window(startDay, endDay, today);
      Sum(RevenueByCategory(lines, w.0, w.1), (r: CategoryRevenue) => r.revenue) == LinesTotal(CategoryLinesBetween(lines, w.0, w.1))
  {
    var w := Window(startDay, endDay, today);
    CategoryRowsKeepQueryRows(RevenueByCategory(lines, w.0, w.1));
    RevenueByCategoryTotal(lines, w.0, w.1);
  }
}
