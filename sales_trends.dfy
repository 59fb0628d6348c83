/**
 * Time-bucketed sales (`AnalyticsController.getSalesTrends` with
 * `aggregateOrdersByTimePeriod`, `getRevenue` and `getOrders`).
 *
 * Orders are keyed by the day, the week or the month they were placed in and
 * accumulated into insertion-ordered maps, so the series lists the periods in
 * the order their first order was met: it is neither sorted nor filled with
 * empty periods.  A week is keyed by its Monday.
 */
module SalesTrends {
  import opened Seqs
  import opened Entities
  import opened Calendar
  import opened Grouping

  datatype Timeframe = Daily | Weekly | Monthly

  /** `getSalesTrends`' timeframe: "weekly", "monthly", anything else daily. */
  function TrendTimeframe(s: string): (tf: Timeframe)
    ensures tf == Weekly <==> s == "weekly"
    ensures tf == Monthly <==> s == "monthly"
    ensures tf == Daily <==> s != "weekly" && s != "monthly"
  {
    if s == "weekly" then Weekly else if s == "monthly" then Monthly else Daily
  }

  /** `getRevenue`'s and `getOrders`' timeframe: "week", "month", anything else daily. */
  function ReportTimeframe(s: string): (tf: Timeframe)
    ensures tf == Weekly <==> s == "week"
    ensures tf == Monthly <==> s == "month"
    ensures tf == Daily <==> s != "week" && s != "month"
  {
    if s == "week" then Weekly else if s == "month" then Monthly else Daily
  }

  /** A period key before rendering: a date ("yyyy-MM-dd", or the date that stands for a week) or a month ("yyyy-MM"). */
  datatype Period = DayPeriod(day: int) | MonthPeriod(month: YearMonth)

  /** The period an order falls in. */
  function PeriodKey(tf: Timeframe, o: Order): Period
  {
    var day := DayOf(if o.createAt.Some? then o.createAt.value else 0);
    match tf
    case Daily => DayPeriod(day)
    case Weekly => DayPeriod(WeekStart(day))
    case Monthly => MonthPeriod(MonthOf(day))
  }

  function PeriodOf(tf: Timeframe): Order -> Period
  {
    (o: Order) => PeriodKey(tf, o)
  }

  /** Two orders share a weekly key exactly when they fall in the same Monday-to-Sunday week; an order on Wednesday 2024-03-13 is keyed 2024-03-11. */
  lemma WeeklyPeriods(o: Order, p: Order, monday: int)
    requires o.createAt.Some? && p.createAt.Some?
    requires IsoWeekday(monday) == 1
    requires monday <= DayOf(o.createAt.value) <= monday + 6
    ensures PeriodKey(Weekly, o) == DayPeriod(monday)
    ensures PeriodKey(Weekly, p) == PeriodKey(Weekly, o) <==> monday <= DayOf(p.createAt.value) <= monday + 6
    ensures o.createAt.value == DaysFromCivil(2024, 3, 13) * MillisPerDay ==> PeriodKey(Weekly, o) == DayPeriod(DaysFromCivil(2024, 3, 11))
  {
    WeekStartOfWeek(monday, DayOf(o.createAt.value));
    var d := DayOf(p.createAt.value);
    if monday <= d <= monday + 6 {
      WeekStartOfWeek(monday, d);
    }
    WeekStartExample();
  }

  datatype TrendPoint = TrendPoint(period: Period, sales: int, orders: nat, avgOrderValue: int)

  datatype TrendSummary = TrendSummary(totalSales: int, totalOrders: nat, avgOrderValue: Ratio)

  datatype TrendReport = TrendReport(timeframe: string, data: seq<TrendPoint>, summary: TrendSummary)

  /** A point from a period's sales and order count, with the truncated average. */
  function MakeTrendPoint(period: Period, sales: int, count: nat): TrendPoint
  {
    TrendPoint(period, sales, count, if count > 0 then Quot(sales, count) else 0)
  }

  /** One period's point: its sales and its order count. */
  function TrendPointOf(orders: seq<Order>, tf: Timeframe, k: Period): TrendPoint
  {
    MakeTrendPoint(k, SumKeyed(orders, PeriodOf(tf), k, TotalPrice), CountKey(orders, PeriodOf(tf), k))
  }

  /** The series: one point per period met, in first-seen order. */
  function TrendSeries(orders: seq<Order>, tf: Timeframe): seq<TrendPoint>
  {
    Map(Keys(orders, PeriodOf(tf)), (k: Period) => TrendPointOf(orders, tf, k))
  }

  function Sales(p: TrendPoint): int
  {
    p.sales
  }

  function OrderCount(p: TrendPoint): int
  {
    p.orders
  }

  /**
   * The series covers every order once: its sales add up to the orders'
   * total and its counts to their number; no period is empty, and each
   * average is the sales divided by the count, truncated toward zero.
   */
  lemma TrendSeriesTotals(orders: seq<Order>, tf: Timeframe)
    ensures Sum(TrendSeries(orders, tf), Sales) == Revenue(orders)
    ensures Sum(TrendSeries(orders, tf), OrderCount) == |orders|
    ensures forall p :: p in TrendSeries(orders, tf) ==>
      p.orders > 0 && p.avgOrderValue == Quot(p.sales, p.orders)
    ensures forall k :: k in Keys(orders, PeriodOf(tf)) <==> exists p :: p in TrendSeries(orders, tf) && p.period == k
  {
    var g := (k: Period) => TrendPointOf(orders, tf, k);
    SumMap(Keys(orders, PeriodOf(tf)), g, Sales, (k: Period) => SumKeyed(orders, PeriodOf(tf), k, TotalPrice));
    SumKeysPartition(orders, PeriodOf(tf), TotalPrice);
    SumMap(Keys(orders, PeriodOf(tf)), g, OrderCount, (k: Period) => CountKey(orders, PeriodOf(tf), k));
    CountKeysPartition(orders, PeriodOf(tf));
  }

  lemma TrendSeriesPointwise(orders: seq<Order>, tf: Timeframe, periods: seq<Period>,
                             sales: map<Period, int>, counts: map<Period, nat>, data: seq<TrendPoint>)
    requires periods == Keys(orders, PeriodOf(tf))
    requires forall k :: k in sales ==> sales[k] == SumKeyed(orders, PeriodOf(tf), k, TotalPrice)
    requires forall k :: k in counts ==> counts[k] == CountKey(orders, PeriodOf(tf), k)
    requires |data| == |periods|
    requires forall k :: k in periods ==> k in sales && k in counts
    requires forall i :: 0 <= i < |data| ==> data[i] == MakeTrendPoint(periods[i], sales[periods[i]], counts[periods[i]])
    ensures data == TrendSeries(orders, tf)
  {
  }

  /** The pass over the map keys: one point per key, with the running totals of sales and orders. */
  method TrendPoints(periods: seq<Period>, salesByPeriod: map<Period, int>, ordersByPeriod: map<Period, nat>)
    returns (timeSeriesData: seq<TrendPoint>, totalSales: int, totalOrders: int)
    requires forall k :: k in periods ==> k in salesByPeriod && k in ordersByPeriod
    ensures |timeSeriesData| == |periods|
    ensures forall i :: 0 <= i < |periods| ==>
      timeSeriesData[i] == MakeTrendPoint(periods[i], salesByPeriod[periods[i]], ordersByPeriod[periods[i]])
    ensures totalSales == Sum(timeSeriesData, Sales) && totalOrders == Sum(timeSeriesData, OrderCount)
  {
    timeSeriesData := [];
    totalSales := 0;
    totalOrders := 0;
    for j := 0 to |periods|
      invariant |timeSeriesData| == j
      invariant forall i :: 0 <= i < j ==>
        timeSeriesData[i] == MakeTrendPoint(periods[i], salesByPeriod[periods[i]], ordersByPeriod[periods[i]])
      invariant totalSales == Sum(timeSeriesData, Sales)
      invariant totalOrders == Sum(timeSeriesData, OrderCount)
    {
      var period := periods[j];
      var sales := salesByPeriod[period];
      var count := ordersByPeriod[period];
      var point := MakeTrendPoint(period, sales, count);
      SumAppend(timeSeriesData, [point], Sales);
      SumAppend(timeSeriesData, [point], OrderCount);
      timeSeriesData := timeSeriesData + [point];
      totalSales := totalSales + sales;
      totalOrders := totalOrders + count;
    }
  }

  /**
   * `aggregateOrdersByTimePeriod`: one pass filling the two maps, one pass
   * over their keys for the points, then the totals.  An order without a date
   * ends it with the exception its `toInstant()` raises.
   */
  method AggregateOrdersByTimePeriod(orders: seq<Order>, timeframe: string) returns (r: Result<TrendReport>)
    ensures r.Failure? <==> !AllStamped(orders)
    ensures r.Success? ==> r.value.timeframe == timeframe && r.value.data == TrendSeries(orders, TrendTimeframe(timeframe))
    ensures r.Success? ==> r.value.summary.totalSales == Revenue(orders) && r.value.summary.totalOrders == |orders|
    ensures r.Success? ==> r.value.summary.avgOrderValue == (if |orders| > 0 then Ratio(Revenue(orders), |orders|) else Ratio(0, 1))
  {
    if !AllStamped(orders) {
      return Failure("NullPointerException");
    }
    var tf := TrendTimeframe(timeframe);
    var periods, salesByPeriod, ordersByPeriod := AccumulateByKey(orders, PeriodOf(tf), TotalPrice);
    var timeSeriesData, totalSales, totalOrders := TrendPoints(periods, salesByPeriod, ordersByPeriod);
    TrendSeriesPointwise(orders, tf, periods, salesByPeriod, ordersByPeriod, timeSeriesData);
    TrendSeriesTotals(orders, tf);
    r := Success(TrendReport(timeframe, timeSeriesData,
      TrendSummary(totalSales, totalOrders, if totalOrders > 0 then Ratio(totalSales, totalOrders) else Ratio(0, 1))));
  }

  /** The first day of the trend window: timespan days, weeks or months before today. */
  function TrendStart(tf: Timeframe, today: int, timespan: int): int
  {
    match tf
    case Daily => today - timespan
    case Weekly => today - 7 * timespan
    case Monthly => MinusMonths(today, timespan)
  }

  /** `getSalesTrends`: the orders after the start of the window, aggregated; they are all dated, so it never fails. */
  method GetSalesTrends(orders: seq<Order>, timeframe: string, timespan: int, today: int) returns (report: TrendReport)
    ensures var tf := TrendTimeframe(timeframe);
      var window := FindByCreateAtAfter(orders, TrendStart(tf, today, timespan) * MillisPerDay);
      report.timeframe == timeframe && report.data == TrendSeries(window, tf) &&
      report.summary.totalSales == Revenue(window) && report.summary.totalOrders == |window|
  {
    var tf := TrendTimeframe(timeframe);
    var window := FindByCreateAtAfter(orders, TrendStart(tf, today, timespan) * MillisPerDay);
    assert AllStamped(window) by {
      forall i | 0 <= i < |window|
        ensures window[i].createAt.Some?
      {
        assert window[i] in window;
      }
    }
    var r := AggregateOrdersByTimePeriod(window, timeframe);
    report := r.value;
  }

  /** The day range of a report: both dates when both are given, otherwise the `timespan` days up to today. */
  function ReportRange(startDay: Option<int>, endDay: Option<int>, today: int, timespan: int): (range: (int, int))
    ensures startDay.Some? && endDay.Some? ==> range == (startDay.value, endDay.value)
    ensures !(startDay.Some? && endDay.Some?) ==> range == (today - timespan, today)
  {
    if startDay.Some? && endDay.Some? then (startDay.value, endDay.value) else (today - timespan, today)
  }

  datatype RevenuePoint = RevenuePoint(period: Period, revenue: int)

  datatype RevenueReport = RevenueReport(data: seq<RevenuePoint>, totalRevenue: int, timeframe: string, timespan: int)

  /** Dated orders whose date lies in [first, last], both days included. */
  function OrdersOnDays(orders: seq<Order>, first: int, last: int): (r: seq<Order>)
    ensures forall o :: o in r <==> o in orders && o.createAt.Some? && first <= DayOf(o.createAt.value) <= last
  {
    Filter(orders, (o: Order) => o.createAt.Some? && first <= DayOf(o.createAt.value) <= last)
  }

  function RevenueSeries(orders: seq<Order>, tf: Timeframe): seq<RevenuePoint>
  {
    Map(Keys(orders, PeriodOf(tf)), (k: Period) => RevenuePoint(k, SumKeyed(orders, PeriodOf(tf), k, TotalPrice)))
  }

  function PointRevenue(p: RevenuePoint): int
  {
    p.revenue
  }

  /** The points' revenues add up to the reported total, and there is one point per period met. */
  lemma RevenueSeriesTotal(orders: seq<Order>, tf: Timeframe)
    ensures Sum(RevenueSeries(orders, tf), PointRevenue) == Revenue(orders)
    ensures |RevenueSeries(orders, tf)| == |Keys(orders, PeriodOf(tf))|
  {
    SumMap(Keys(orders, PeriodOf(tf)), (k: Period) => RevenuePoint(k, SumKeyed(orders, PeriodOf(tf), k, TotalPrice)),
      PointRevenue, (k: Period) => SumKeyed(orders, PeriodOf(tf), k, TotalPrice));
    SumKeysPartition(orders, PeriodOf(tf), TotalPrice);
  }

  lemma RevenueSeriesPointwise(orders: seq<Order>, tf: Timeframe, periods: seq<Period>, totals: map<Period, int>, data: seq<RevenuePoint>)
    requires periods == Keys(orders, PeriodOf(tf))
    requires forall k :: k in totals ==> totals[k] == SumKeyed(orders, PeriodOf(tf), k, TotalPrice)
    requires |data| == |periods|
    requires forall k :: k in periods ==> k in totals
    requires forall i :: 0 <= i < |data| ==> data[i] == RevenuePoint(periods[i], totals[periods[i]])
    ensures data == RevenueSeries(orders, tf)
  {
  }

  /** The pass over the map's entries: one point per key. */
  method RevenuePoints(periods: seq<Period>, revenueByPeriod: map<Period, int>) returns (data: seq<RevenuePoint>)
    requires forall k :: k in periods ==> k in revenueByPeriod
    ensures |data| == |periods|
    ensures forall i :: 0 <= i < |periods| ==> data[i] == RevenuePoint(periods[i], revenueByPeriod[periods[i]])
  {
    data := [];
    for j := 0 to |periods|
      invariant |data| == j
      invariant forall i :: 0 <= i < j ==> data[i] == RevenuePoint(periods[i], revenueByPeriod[periods[i]])
    {
      data := data + [RevenuePoint(periods[j], revenueByPeriod[periods[j]])];
    }
  }

  /** `getRevenue`: the dated orders of the range, revenue per period in first-seen order, and their total. */
  method GetRevenue(orders: seq<Order>, timeframe: string, timespan: int, startDay: Option<int>, endDay: Option<int>, today: int)
    returns (report: RevenueReport)
    ensures var range := ReportRange(startDay, endDay, today, timespan);
      var filtered := OrdersOnDays(orders, range.0, range.1);
      report.data == RevenueSeries(filtered, ReportTimeframe(timeframe)) &&
      report.totalRevenue == Revenue(filtered) && report.timeframe == timeframe && report.timespan == timespan
  {
    var range := ReportRange(startDay, endDay, today, timespan);
    var filteredOrders := OrdersOnDays(orders, range.0, range.1);
    var tf := ReportTimeframe(timeframe);
    var periods, revenueByPeriod, _ := AccumulateByKey(filteredOrders, PeriodOf(tf), TotalPrice);
    var data := RevenuePoints(periods, revenueByPeriod);
    RevenueSeriesPointwise(filteredOrders, tf, periods, revenueByPeriod, data);
    report := RevenueReport(data, Revenue(filteredOrders), timeframe, timespan);
  }

  datatype OrderPoint = OrderPoint(period: Period, orderCount: nat, revenue: int)

  datatype OrdersReport = OrdersReport(data: seq<OrderPoint>, timeframe: string, totalOrders: nat, totalRevenue: int)

  /** The orders `getOrders` reads: those stamped from the start of the first day to the start of the day after the last, or all. */
  function OrdersInRange(orders: seq<Order>, startDay: Option<int>, endDay: Option<int>): seq<Order>
  {
    if startDay.Some? && endDay.Some? then FindByCreateAtBetween(orders, startDay.value * MillisPerDay, (endDay.value + 1) * MillisPerDay)
    else orders
  }

  function OrderSeries(orders: seq<Order>, tf: Timeframe): seq<OrderPoint>
  {
    var dated := Filter(orders, HasStamp);
    Map(Keys(dated, PeriodOf(tf)), (k: Period) => OrderPoint(k, CountKey(dated, PeriodOf(tf), k), SumKeyed(dated, PeriodOf(tf), k, TotalPrice)))
  }

  function PointOrders(p: OrderPoint): int
  {
    p.orderCount
  }

  /**
   * The series counts only dated orders while `totalOrders` counts them all:
   * the points' counts add up to the number of dated orders, which reaches
   * the total exactly when every order is dated.
   */
  lemma OrderSeriesTotal(orders: seq<Order>, tf: Timeframe)
    ensures Sum(OrderSeries(orders, tf), PointOrders) == Count(orders, HasStamp) <= |orders|
    ensures Sum(OrderSeries(orders, tf), PointOrders) == |orders| <==> AllStamped(orders)
  {
    var dated := Filter(orders, HasStamp);
    SumMap(Keys(dated, PeriodOf(tf)),
      (k: Period) => OrderPoint(k, CountKey(dated, PeriodOf(tf), k), SumKeyed(dated, PeriodOf(tf), k, TotalPrice)),
      PointOrders, (k: Period) => CountKey(dated, PeriodOf(tf), k));
    CountKeysPartition(dated, PeriodOf(tf));
  }

  lemma OrderSeriesPointwise(dated: seq<Order>, orders: seq<Order>, tf: Timeframe, periods: seq<Period>,
                             totals: map<Period, int>, counts: map<Period, nat>, data: seq<OrderPoint>)
    requires dated == Filter(orders, HasStamp)
    requires periods == Keys(dated, PeriodOf(tf))
    requires forall k :: k in totals ==> totals[k] == SumKeyed(dated, PeriodOf(tf), k, TotalPrice)
    requires forall k :: k in counts ==> counts[k] == CountKey(dated, PeriodOf(tf), k)
    requires |data| == |periods|
    requires forall k :: k in periods ==> k in totals && k in counts
    requires forall i :: 0 <= i < |data| ==> data[i] == OrderPoint(periods[i], counts[periods[i]], totals[periods[i]])
    ensures data == OrderSeries(orders, tf)
  {
  }

  /** The pass over the count map's keys: one point per key. */
  method OrderPoints(periods: seq<Period>, ordersByPeriod: map<Period, nat>, revenueByPeriod: map<Period, int>) returns (data: seq<OrderPoint>)
    requires forall k :: k in periods ==> k in ordersByPeriod && k in revenueByPeriod
    ensures |data| == |periods|
    ensures forall i :: 0 <= i < |periods| ==> data[i] == OrderPoint(periods[i], ordersByPeriod[periods[i]], revenueByPeriod[periods[i]])
  {
    data := [];
    for j := 0 to |periods|
      invariant |data| == j
      invariant forall i :: 0 <= i < j ==> data[i] == OrderPoint(periods[i], ordersByPeriod[periods[i]], revenueByPeriod[periods[i]])
    {
      data := data + [OrderPoint(periods[j], ordersByPeriod[periods[j]], revenueByPeriod[periods[j]])];
    }
  }

  /** `getOrders`: per-period counts and revenue over the dated orders, totals over all orders read. */
  method GetOrders(orders: seq<Order>, timeframe: string, startDay: Option<int>, endDay: Option<int>) returns (report: OrdersReport)
    ensures var read := OrdersInRange(orders, startDay, endDay);
      report.data == OrderSeries(read, ReportTimeframe(timeframe)) &&
      report.totalOrders == |read| && report.totalRevenue == Revenue(read) && report.timeframe == timeframe
  {
    var read := OrdersInRange(orders, startDay, endDay);
    var tf := ReportTimeframe(timeframe);
    var dated := Filter(read, HasStamp);
    var periods, revenueByPeriod, ordersByPeriod := AccumulateByKey(dated, PeriodOf(tf), TotalPrice);
    var data := OrderPoints(periods, ordersByPeriod, revenueByPeriod);
    OrderSeriesPointwise(dated, read, tf, periods, revenueByPeriod, ordersByPeriod, data);
    report := OrdersReport(data, timeframe, |read|, Revenue(read));
  }
}
