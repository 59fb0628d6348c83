/**
 * Daily completion and cancellation rates
 * (`AdvancedAnalyticsController.getOrderCompletionRate`).
 *
 * Stamped orders of the window [start of (today − days), start of tomorrow]
 * are grouped by calendar day; each day reports its order count, the orders
 * whose status is "COMPLETED", the cancelled orders, and both rates.  Rows
 * are sorted by date.
 *
 * The source counts as cancelled the orders whose status is "CANCELED",
 * while cancelling an order (`OrderController.cancelOrder`) stores
 * "CANCELLED": `DaySummaryAsWritten` is the count as written, which the
 * report below is built from, and `DaySummary` is the corrected summary that
 * counts the status that is stored.
 */
module CompletionRate {
  import opened Seqs
  import opened Entities
  import opened Calendar

  datatype DayRow = DayRow(
    date: int,
    totalOrders: nat,
    completedOrders: nat,
    cancelledOrders: nat,
    completionRate: Ratio,
    cancellationRate: Ratio)

  /** The window the report reads: stamped from the start of (today − days) to the first instant of tomorrow. */
  function CompletionWindow(orders: seq<Order>, today: int, days: int): seq<Order>
  {
    FindByCreateAtBetween(orders, (today - days) * MillisPerDay, (today + 1) * MillisPerDay)
  }

  /** The calendar day of an order's stamp (the grouping key). */
  function OrderDay(o: Order): int
  {
    DayOf(if o.createAt.Some? then o.createAt.value else 0)
  }

  function WithStatus(os: seq<Order>, status: string): nat
  {
    Count(os, (o: Order) => o.status == Some(status))
  }

  function OnDay(os: seq<Order>, day: int): seq<Order>
  {
    Filter(os, (o: Order) => OrderDay(o) == day)
  }

  function RowOf(day: int, total: nat, completed: nat, cancelled: nat): DayRow
  {
    DayRow(day, total, completed, cancelled, Percent(completed, total), Percent(cancelled, total))
  }

  /**
   * One day's figures as the source computes them: the day's orders, of which
   * those with status "COMPLETED" and those with status "CANCELED" (not the
   * "CANCELLED" a cancelled order carries) are disjoint parts.
   */
  function DaySummaryAsWritten(os: seq<Order>, day: int): (row: DayRow)
    ensures row.date == day
    ensures row.totalOrders == CountKey(os, OrderDay, day)
    ensures row.completedOrders == Count(os, (o: Order) => OrderDay(o) == day && o.status == Some("COMPLETED"))
    ensures row.cancelledOrders == Count(os, (o: Order) => OrderDay(o) == day && o.status == Some("CANCELED"))
    ensures row.completedOrders + row.cancelledOrders <= row.totalOrders
    ensures row.totalOrders > 0 ==>
      row.completionRate == Ratio(row.completedOrders * 100, row.totalOrders) &&
      row.cancellationRate == Ratio(row.cancelledOrders * 100, row.totalOrders)
  {
    var dayOrders := OnDay(os, day);
    CountIsCountKey(os, (o: Order) => OrderDay(o) == day, OrderDay, day);
    CountDisjoint(dayOrders, (o: Order) => o.status == Some("COMPLETED"), (o: Order) => o.status == Some("CANCELED"));
    var onDay := (o: Order) => OrderDay(o) == day;
    FilterFilter(os, onDay, (o: Order) => o.status == Some("COMPLETED"), (o: Order) => OrderDay(o) == day && o.status == Some("COMPLETED"));
    FilterFilter(os, onDay, (o: Order) => o.status == Some("CANCELED"), (o: Order) => OrderDay(o) == day && o.status == Some("CANCELED"));
    RowOf(day, |dayOrders|, WithStatus(dayOrders, "COMPLETED"), WithStatus(dayOrders, "CANCELED"))
  }

  /**
   * One day's figures counting the status a cancelled order carries: the day's
   * orders, of which the completed and the cancelled are disjoint parts.
   */
  function DaySummary(os: seq<Order>, day: int): (row: DayRow)
    ensures row.date == day
    ensures row.totalOrders == CountKey(os, OrderDay, day)
    ensures row.completedOrders == Count(os, (o: Order) => OrderDay(o) == day && o.status == Some("COMPLETED"))
    ensures row.cancelledOrders == Count(os, (o: Order) => OrderDay(o) == day && o.status == Some("CANCELLED"))
    ensures row.completedOrders + row.cancelledOrders <= row.totalOrders
    ensures row.totalOrders > 0 ==>
      row.completionRate == Ratio(row.completedOrders * 100, row.totalOrders) &&
      row.cancellationRate == Ratio(row.cancelledOrders * 100, row.totalOrders)
  {
    var dayOrders := OnDay(os, day);
    CountIsCountKey(os, (o: Order) => OrderDay(o) == day, OrderDay, day);
    CountDisjoint(dayOrders, (o: Order) => o.status == Some("COMPLETED"), (o: Order) => o.status == Some("CANCELLED"));
    var onDay := (o: Order) => OrderDay(o) == day;
    FilterFilter(os, onDay, (o: Order) => o.status == Some("COMPLETED"), (o: Order) => OrderDay(o) == day && o.status == Some("COMPLETED"));
    FilterFilter(os, onDay, (o: Order) => o.status == Some("CANCELLED"), (o: Order) => OrderDay(o) == day && o.status == Some("CANCELLED"));
    RowOf(day, |dayOrders|, WithStatus(dayOrders, "COMPLETED"), WithStatus(dayOrders, "CANCELLED"))
  }

  /** An order cancelled through the API is not counted as cancelled as written, and is with the stored status. */
  lemma CancelledCountMismatch(o: Order)
    requires o.status == Some("CANCELLED")
    ensures DaySummaryAsWritten([o], OrderDay(o)).cancelledOrders == 0
    ensures DaySummary([o], OrderDay(o)).cancelledOrders == 1
  {
    assert OnDay([o], OrderDay(o)) == [o] by {
      assert [o][..0] == [];
    }
  }

  predicate DateLe(a: DayRow, b: DayRow)
  {
    a.date <= b.date
  }

  /** The two summaries of a day agree on everything except the cancelled count and its rate. */
  lemma SummariesDifferOnlyInCancelled(os: seq<Order>, day: int)
    ensures var w := DaySummaryAsWritten(os, day);
      var c := DaySummary(os, day);
      w.date == c.date && w.totalOrders == c.totalOrders && w.completedOrders == c.completedOrders &&
      w.completionRate == c.completionRate
  {
  }

  /** One summary per day that has stamped orders, as the source computes it, in first-seen order. */
  function DaySummaries(stamped: seq<Order>): (rows: seq<DayRow>)
    ensures |rows| == |Keys(stamped, OrderDay)|
    ensures forall row :: row in rows <==> exists d :: d in Keys(stamped, OrderDay) && row == DaySummaryAsWritten(stamped, d)
  {
    Map(Keys(stamped, OrderDay), (d: int) => DaySummaryAsWritten(stamped, d))
  }

  function Stamped(window: seq<Order>): seq<Order>
  {
    Filter(window, HasStamp)
  }

  /** `getOrderCompletionRate`: one row per day with orders, sorted by date. */
  function CompletionRates(orders: seq<Order>, today: int, days: int): (rows: seq<DayRow>)
    ensures SortedBy(rows, DateLe)
    ensures multiset(rows) == multiset(DaySummaries(Stamped(CompletionWindow(orders, today, days))))
  {
    SortBy(DaySummaries(Stamped(CompletionWindow(orders, today, days))), DateLe)
  }

  /** Each listed day has orders, and the days' order counts add up to the stamped orders of the window. */
  lemma {:induction false} CompletionRowsCover(orders: seq<Order>, today: int, days: int)
    ensures var stamped := Stamped(CompletionWindow(orders, today, days));
      Sum(DaySummaries(stamped), (r: DayRow) => r.totalOrders) == |stamped|
    ensures forall r :: r in CompletionRates(orders, today, days) ==>
      r.totalOrders > 0 && r.completedOrders + r.cancelledOrders <= r.totalOrders
  {
    var stamped := Stamped(CompletionWindow(orders, today, days));
    var ks := Keys(stamped, OrderDay);
    SumMap(ks, (d: int) => DaySummaryAsWritten(stamped, d), (r: DayRow) => r.totalOrders, (d: int) => CountKey(stamped, OrderDay, d));
    CountKeysPartition(stamped, OrderDay);
    var rows := CompletionRates(orders, today, days);
    forall r | r in rows
      ensures r.totalOrders > 0 && r.completedOrders + r.cancelledOrders <= r.totalOrders
    {
      assert r in multiset(rows);
      assert r in DaySummaries(stamped);
    }
  }
}
