/**
 * The admin dashboard (`DashboardController`): overview figures with
 * month-over-month changes, the daily sales chart (a zero-filled map of the
 * last `days` days, then per-order additions), and the product count per
 * category.
 */
module Dashboard {
  import opened Seqs
  import opened Entities
  import opened Calendar

  // ---- getDashboardStats ----------------------------------------------------

  /**
   * `(int)(((cur - last) * 100.0) / last)` when `last > 0`, else 0: the
   * change in percent, truncated toward zero.
   */
  function PercentChange(cur: int, last: int): (c: int)
    ensures last <= 0 ==> c == 0
    ensures last > 0 ==> c * last <= (cur - last) * 100 < (c + 1) * last || (c - 1) * last < (cur - last) * 100 <= c * last
    ensures last > 0 && cur >= last ==> c >= 0 && c * last <= (cur - last) * 100 < (c + 1) * last
    ensures last > 0 && cur <= last ==> c <= 0 && (c - 1) * last < (cur - last) * 100 <= c * last
  {
    if last > 0 then Quot((cur - last) * 100, last) else 0
  }

  /** Worked values: a rise of a quarter, a fall of a quarter, and a fall of half a percent truncated to 0. */
  lemma PercentChangeExamples()
    ensures PercentChange(250, 200) == 25
    ensures PercentChange(150, 200) == -25
    ensures PercentChange(199, 200) == 0
    ensures PercentChange(5, 0) == 0
  {
  }

  /** The first day of the month of `today` (`today.withDayOfMonth(1)`). */
  function MonthStart(today: int): int
  {
    today - (CivilFromDays(today).dayOfMonth - 1)
  }

  /** The first day of the previous month. */
  function LastMonthStart(today: int): int
  {
    MinusMonths(MonthStart(today), 1)
  }

  /** `findByCreateAtAfter(startCurrentMonth)`: stamped strictly after the month's first instant. */
  function CurrentMonthOrders(orders: seq<Order>, today: int): seq<Order>
  {
    FindByCreateAtAfter(orders, MonthStart(today) * MillisPerDay)
  }

  /** `findByCreateAtBetween(startLastMonth, startCurrentMonth)`: both instants included. */
  function LastMonthOrders(orders: seq<Order>, today: int): seq<Order>
  {
    FindByCreateAtBetween(orders, LastMonthStart(today) * MillisPerDay, MonthStart(today) * MillisPerDay)
  }

  datatype DashboardStats = DashboardStats(
    totalProducts: nat,
    totalUsers: nat,
    totalOrders: nat,
    totalRevenue: int,
    revenueChange: int,
    orderChange: int)

  /**
   * `getDashboardStats`: the repository counts, Σ totalPrice over every
   * order, and the changes of this month's revenue and order count against
   * last month's.
   */
  function GetDashboardStats(totalProducts: nat, totalUsers: nat, orders: seq<Order>, today: int): (s: DashboardStats)
    ensures s.totalOrders == |orders| && s.totalRevenue == Revenue(orders)
    ensures s.totalProducts == totalProducts && s.totalUsers == totalUsers
    ensures var cur := CurrentMonthOrders(orders, today);
      var last := LastMonthOrders(orders, today);
      s.revenueChange == PercentChange(Revenue(cur), Revenue(last)) &&
      s.orderChange == PercentChange(|cur|, |last|)
  {
    var cur := CurrentMonthOrders(orders, today);
    var last := LastMonthOrders(orders, today);
    DashboardStats(totalProducts, totalUsers, |orders|, Revenue(orders),
      PercentChange(Revenue(cur), Revenue(last)), PercentChange(|cur|, |last|))
  }

  /**
   * An order stamped exactly at midnight of the month's first day is counted
   * in last month's window and not in this month's.
   */
  lemma MonthBoundaryOrder(orders: seq<Order>, today: int, o: Order)
    requires o in orders && o.createAt == Some(MonthStart(today) * MillisPerDay)
    requires LastMonthStart(today) <= MonthStart(today)
    ensures o in LastMonthOrders(orders, today)
    ensures o !in CurrentMonthOrders(orders, today)
  {
  }

  // ---- getSalesChartData ----------------------------------------------------

  /** A chart point: the day (rendered "yyyy-MM-dd") and its amount. */
  datatype SalesPoint = SalesPoint(date: int, amount: int)

  /** `endDate.minusDays(days - 1)`. */
  function ChartStart(days: int, today: int): int
  {
    today - (days - 1)
  }

  /** An order of the fetched window that the loop adds: its date lies in [start, today]. */
  predicate InChart(o: Order, start: int, today: int)
  {
    o.createAt.Some? && start <= DayOf(o.createAt.value) <= today
  }

  /** The orders the loop adds, as a filter. */
  function ChartFilter(start: int, today: int): Order -> bool
  {
    (o: Order) => InChart(o, start, today)
  }

  function OrderDay(o: Order): int
  {
    if o.createAt.Some? then DayOf(o.createAt.value) else 0
  }

  /** What an order adds to the chart: its totalPrice when it is dated in the range, else nothing. */
  function ChartPrice(start: int, today: int): Order -> int
  {
    (o: Order) => if InChart(o, start, today) then o.totalPrice else 0
  }

  /** Σ totalPrice of the orders of `window` the loop adds on `day`. */
  function ChartAmount(window: seq<Order>, start: int, today: int, day: int): int
  {
    SumKeyed(window, OrderDay, day, ChartPrice(start, today))
  }

  /** The chart's days: start, start+1, …, today (none when days ≤ 0). */
  function ChartDays(start: int, today: int): (ds: seq<int>)
    ensures |ds| == if today - start + 1 > 0 then today - start + 1 else 0
    ensures forall i :: 0 <= i < |ds| ==> ds[i] == start + i
  {
    seq(if today - start + 1 > 0 then today - start + 1 else 0, (i: int) => start + i)
  }

  /** The first loop: every day of the range mapped to 0. */
  method SeedChart(start: int, days: int) returns (dailySales: map<int, int>)
    ensures forall d :: d in dailySales <==> start <= d < start + days
    ensures forall d :: d in dailySales ==> dailySales[d] == 0
  {
    dailySales := map[];
    var i := 0;
    while i < days
      invariant days > 0 ==> 0 <= i <= days
      invariant days <= 0 ==> i == 0
      invariant forall d :: d in dailySales <==> start <= d < start + i
      invariant forall d :: d in dailySales ==> dailySales[d] == 0
    {
      dailySales := dailySales[start + i := 0];
      i := i + 1;
    }
  }

  /** The second loop: add each order dated inside the range to its day. */
  method AddOrders(window: seq<Order>, start: int, today: int, seed: map<int, int>) returns (dailySales: map<int, int>)
    requires forall d :: d in seed <==> start <= d <= today
    requires forall d :: d in seed ==> seed[d] == 0
    ensures forall d :: d in dailySales <==> start <= d <= today
    ensures forall d :: d in dailySales ==> dailySales[d] == ChartAmount(window, start, today, d)
  {
    dailySales := seed;
    for i := 0 to |window|
      invariant forall d :: d in dailySales <==> start <= d <= today
      invariant forall d :: d in dailySales ==> dailySales[d] == ChartAmount(window[..i], start, today, d)
    {
      var order := window[i];
      assert window[..i + 1][..i] == window[..i];
      if order.createAt.Some? {
        var orderDate := DayOf(order.createAt.value);
        if start <= orderDate && orderDate <= today {
          dailySales := dailySales[orderDate := dailySales[orderDate] + order.totalPrice];
        }
      }
    }
    assert window[..|window|] == window;
  }

  /**
   * `getSalesChartData(days)`: one point per day of the last `days` days up to
   * today, each the Σ totalPrice of the orders stamped after the first day's
   * midnight whose date is that day; days without orders show 0.
   */
  method GetSalesChartData(orders: seq<Order>, days: int, today: int) returns (result: seq<SalesPoint>)
    ensures var start := ChartStart(days, today);
      |result| == (if days > 0 then days else 0) &&
      forall i :: 0 <= i < |result| ==>
        result[i] == SalesPoint(start + i, ChartAmount(FindByCreateAtAfter(orders, start * MillisPerDay), start, today, start + i))
  {
    var start := ChartStart(days, today);
    var seed := SeedChart(start, days);
    var window := FindByCreateAtAfter(orders, start * MillisPerDay);
    var dailySales := AddOrders(window, start, today, seed);
    var dates := ChartDays(start, today);
    result := [];
    for j := 0 to |dates|
      invariant |result| == j
      invariant forall i :: 0 <= i < j ==> result[i] == SalesPoint(dates[i], dailySales[dates[i]])
    {
      result := result + [SalesPoint(dates[j], dailySales[dates[j]])];
    }
  }

  function PointAmount(p: SalesPoint): int
  {
    p.amount
  }

  /** Per-key sums over a duplicate-free list of keys that covers every contributing element add up to the whole sum. */
  lemma {:induction false} SumKeyedOver<T, K(!new)>(ks: seq<K>, s: seq<T>, key: T -> K, f: T -> int)
    requires forall i, j :: 0 <= i < j < |ks| ==> ks[i] != ks[j]
    requires forall i :: 0 <= i < |s| && f(s[i]) != 0 ==> key(s[i]) in ks
    ensures Sum(ks, (k: K) => SumKeyed(s, key, k, f)) == Sum(s, f)
    decreases |s|
  {
    if |s| == 0 {
      SumZeroes(ks, (k: K) => SumKeyed(s, key, k, f));
    } else {
      var init := s[..|s| - 1];
      var x := s[|s| - 1];
      forall i | 0 <= i < |init| && f(init[i]) != 0
        ensures key(init[i]) in ks
      {
        assert init[i] == s[i];
      }
      SumKeyedOver(ks, init, key, f);
      if key(x) !in ks {
        assert f(s[|s| - 1]) == 0;
      }
      var gNew := (k: K) => SumKeyed(s, key, k, f);
      var gOld := (k: K) => SumKeyed(init, key, k, f);
      assert forall j :: j != key(x) ==> gNew(j) == gOld(j);
      assert gNew(key(x)) == gOld(key(x)) + f(x);
      SumShiftBy(ks, gNew, gOld, key(x), f(x));
    }
  }

  /** The days' amounts add up to the revenue of the window's orders dated in the range. */
  lemma ChartAmountsTotal(window: seq<Order>, start: int, today: int)
    ensures Sum(ChartDays(start, today), (d: int) => ChartAmount(window, start, today, d)) ==
      Revenue(Filter(window, ChartFilter(start, today)))
  {
    var f := ChartPrice(start, today);
    var ds := ChartDays(start, today);
    forall i | 0 <= i < |window| && f(window[i]) != 0
      ensures OrderDay(window[i]) in ds
    {
      assert ds[OrderDay(window[i]) - start] == OrderDay(window[i]);
    }
    SumKeyedOver(ds, window, OrderDay, f);
    SumCongruent(ds, (d: int) => ChartAmount(window, start, today, d), (k: int) => SumKeyed(window, OrderDay, k, f));
    SumFilterBy(window, ChartFilter(start, today), TotalPrice, f);
  }

  /**
   * The chart's amounts add up to the revenue of the fetched orders dated in
   * the range; an order stamped exactly at the first day's midnight is not
   * fetched.
   */
  lemma SalesChartTotal(orders: seq<Order>, days: int, today: int, result: seq<SalesPoint>)
    requires var start := ChartStart(days, today);
      |result| == (if days > 0 then days else 0) &&
      forall i :: 0 <= i < |result| ==>
        result[i] == SalesPoint(start + i, ChartAmount(FindByCreateAtAfter(orders, start * MillisPerDay), start, today, start + i))
    ensures var start := ChartStart(days, today);
      Sum(result, PointAmount) == Revenue(Filter(FindByCreateAtAfter(orders, start * MillisPerDay), ChartFilter(start, today)))
  {
    var start := ChartStart(days, today);
    var window := FindByCreateAtAfter(orders, start * MillisPerDay);
    var ds := ChartDays(start, today);
    var g := (d: int) => SalesPoint(d, ChartAmount(window, start, today, d));
    assert result == Map(ds, g);
    SumMap(ds, g, PointAmount, (d: int) => ChartAmount(window, start, today, d));
    ChartAmountsTotal(window, start, today);
  }

  // ---- getCategoryBreakdown -------------------------------------------------

  datatype CategoryCount = CategoryCount(name: string, count: nat)

  predicate Categorised(p: Product)
  {
    p.category.Some?
  }

  function CategoryNameOf(p: Product): string
  {
    if p.category.Some? then p.category.value.name else ""
  }

  /** One row per category name among the categorised products, with its product count. */
  function GetCategoryBreakdown(products: seq<Product>): (rows: seq<CategoryCount>)
    ensures var w := Filter(products, Categorised);
      |rows| == |Keys(w, CategoryNameOf)| &&
      forall i :: 0 <= i < |rows| ==>
        rows[i].name == Keys(w, CategoryNameOf)[i] && 0 < rows[i].count == CountKey(w, CategoryNameOf, rows[i].name)
  {
    var w := Filter(products, Categorised);
    KeysCounted(w, CategoryNameOf);
    Map(Keys(w, CategoryNameOf), (name: string) => CategoryCount(name, CountKey(w, CategoryNameOf, name)))
  }

  function RowCount(r: CategoryCount): int
  {
    r.count
  }

  /** The counts add up to the number of products that have a category. */
  lemma CategoryBreakdownTotal(products: seq<Product>)
    ensures Sum(GetCategoryBreakdown(products), RowCount) == Count(products, Categorised)
  {
    var w := Filter(products, Categorised);
    SumMap(Keys(w, CategoryNameOf), (name: string) => CategoryCount(name, CountKey(w, CategoryNameOf, name)), RowCount,
      (name: string) => CountKey(w, CategoryNameOf, name));
    CountKeysPartition(w, CategoryNameOf);
  }
}
