/**
 * The native aggregation queries of `OrderDetailRepository` as functions over
 * the order-line table.
 *
 * A line takes part in a join only when the joined row exists: an inner join
 * with `orders` needs the line's order, with `product` its product, with
 * `category` the product's category, with `users` an existing user.  Revenue
 * is Σ price·quantity over the joined lines, `COUNT(DISTINCT o.id)` is the
 * number of distinct order ids, and groups are listed in the query's ORDER BY
 * order (first-seen order where the query has none).
 */
module SalesQueries {
  import opened Seqs
  import opened Entities
  import opened Calendar

  function OrderIdOf(d: OrderDetail): int
  {
    if d.order.Some? then d.order.value.id else 0
  }

  function Quantity(d: OrderDetail): int
  {
    d.quantity
  }

  /** The order's stamp, when the line has an order and the order a stamp. */
  function LineStamp(d: OrderDetail): Option<int>
  {
    if d.order.Some? then d.order.value.createAt else None
  }

  // ---- findSalesByDateRange -------------------------------------------------

  datatype DateSales = DateSales(saleDate: int, totalQuantity: int, totalRevenue: int)

  /** `o.create_at BETWEEN :startDate AND :endDate`, both ends included; a line without an order is dropped by the join. */
  function LinesBetween(lines: seq<OrderDetail>, lo: int, hi: int): (r: seq<OrderDetail>)
    ensures forall d :: d in r <==> d in lines && LineStamp(d).Some? && lo <= LineStamp(d).value <= hi
  {
    Filter(lines, (d: OrderDetail) => LineStamp(d).Some? && lo <= LineStamp(d).value <= hi)
  }

  /** `DATE(o.create_at)`. */
  function LineDay(d: OrderDetail): int
  {
    DayOf(if LineStamp(d).Some? then LineStamp(d).value else 0)
  }

  function DateSalesOf(ls: seq<OrderDetail>, day: int): DateSales
  {
    DateSales(day, SumKeyed(ls, LineDay, day, Quantity), SumKeyed(ls, LineDay, day, SubTotal))
  }

  predicate DateAsc(a: DateSales, b: DateSales)
  {
    a.saleDate <= b.saleDate
  }

  /** One row per day with sales in the range, by day ascending. */
  function SalesByDateRange(lines: seq<OrderDetail>, lo: int, hi: int): (rows: seq<DateSales>)
    ensures SortedBy(rows, DateAsc)
    ensures var w := LinesBetween(lines, lo, hi);
      multiset(rows) == multiset(Map(Keys(w, LineDay), (day: int) => DateSalesOf(w, day)))
  {
    var w := LinesBetween(lines, lo, hi);
    SortBy(Map(Keys(w, LineDay), (day: int) => DateSalesOf(w, day)), DateAsc)
  }

  /** The rows' quantities and revenues add up to those of all the lines in the range. */
  lemma SalesByDateTotals(lines: seq<OrderDetail>, lo: int, hi: int)
    ensures Sum(SalesByDateRange(lines, lo, hi), (r: DateSales) => r.totalQuantity) == Sum(LinesBetween(lines, lo, hi), Quantity)
    ensures Sum(SalesByDateRange(lines, lo, hi), (r: DateSales) => r.totalRevenue) == LinesTotal(LinesBetween(lines, lo, hi))
  {
    var w := LinesBetween(lines, lo, hi);
    var g := (day: int) => DateSalesOf(w, day);
    GroupedTotal(w, LineDay, g, (r: DateSales) => r.totalQuantity, Quantity, SalesByDateRange(lines, lo, hi));
    GroupedTotal(w, LineDay, g, (r: DateSales) => r.totalRevenue, SubTotal, SalesByDateRange(lines, lo, hi));
  }

  /** Every row is a day on which a line in the range was ordered. */
  lemma SalesByDateDays(lines: seq<OrderDetail>, lo: int, hi: int, r: DateSales)
    requires r in SalesByDateRange(lines, lo, hi)
    ensures exists d :: d in LinesBetween(lines, lo, hi) && LineDay(d) == r.saleDate
  {
    var w := LinesBetween(lines, lo, hi);
    GroupedRow(w, LineDay, (day: int) => DateSalesOf(w, day), SalesByDateRange(lines, lo, hi), r);
    var i :| 0 <= i < |w| && r == DateSalesOf(w, LineDay(w[i]));
    assert w[i] in w;
  }

  // ---- findCustomerPurchaseFrequency ----------------------------------------

  datatype CustomerFrequency = CustomerFrequency(userId: int, username: string, orderCount: nat, totalSpent: int)

  function LineUserId(d: OrderDetail): int
  {
    if d.order.Some? && d.order.value.user.Some? then d.order.value.user.value else 0
  }

  /** Lines whose order belongs to an existing user (the joins with `orders` and `users`). */
  function CustomerLines(lines: seq<OrderDetail>, users: seq<User>): (r: seq<OrderDetail>)
    ensures forall d :: d in r <==>
      (d in lines && d.order.Some? && d.order.value.user.Some? && FindUser(users, d.order.value.user.value).Some?)
  {
    Filter(lines, (d: OrderDetail) => d.order.Some? && d.order.value.user.Some? &&
      FindUser(users, d.order.value.user.value).Some?)
  }

  function FrequencyOf(ls: seq<OrderDetail>, users: seq<User>, uid: int): CustomerFrequency
  {
    var name := match FindUser(users, uid) case Some(u) => u.username case None => "";
    CustomerFrequency(uid, name, |DistinctKeyed(ls, LineUserId, uid, OrderIdOf)|, SumKeyed(ls, LineUserId, uid, SubTotal))
  }

  predicate SpentDesc(a: CustomerFrequency, b: CustomerFrequency)
  {
    a.totalSpent >= b.totalSpent
  }

  /** One row per customer with order lines, highest total spent first. */
  function CustomerPurchaseFrequency(lines: seq<OrderDetail>, users: seq<User>): (rows: seq<CustomerFrequency>)
    ensures SortedBy(rows, SpentDesc)
    ensures var w := CustomerLines(lines, users);
      multiset(rows) == multiset(Map(Keys(w, LineUserId), (uid: int) => FrequencyOf(w, users, uid)))
  {
    var w := CustomerLines(lines, users);
    SortBy(Map(Keys(w, LineUserId), (uid: int) => FrequencyOf(w, users, uid)), SpentDesc)
  }

  /**
   * A customer's order count counts distinct orders, so it is at least 1 and
   * at most the customer's number of lines; the row names an existing user.
   */
  lemma CustomerFrequencyRow(lines: seq<OrderDetail>, users: seq<User>, r: CustomerFrequency)
    requires r in CustomerPurchaseFrequency(lines, users)
    ensures 1 <= r.orderCount <= CountKey(CustomerLines(lines, users), LineUserId, r.userId)
    ensures FindUser(users, r.userId).Some? && r.username == FindUser(users, r.userId).value.username
  {
    var w := CustomerLines(lines, users);
    GroupedRow(w, LineUserId, (uid: int) => FrequencyOf(w, users, uid), CustomerPurchaseFrequency(lines, users), r);
    var i :| 0 <= i < |w| && r == FrequencyOf(w, users, LineUserId(w[i]));
    assert w[i] in w;
    DistinctKeyedBound(w, LineUserId, r.userId, OrderIdOf);
  }

  /** The customers' totals spent add up to the revenue of all joined lines. */
  lemma CustomerFrequencyTotal(lines: seq<OrderDetail>, users: seq<User>)
    ensures Sum(CustomerPurchaseFrequency(lines, users), (r: CustomerFrequency) => r.totalSpent) ==
      LinesTotal(CustomerLines(lines, users))
  {
    var w := CustomerLines(lines, users);
    GroupedTotal(w, LineUserId, (uid: int) => FrequencyOf(w, users, uid), (r: CustomerFrequency) => r.totalSpent,
      SubTotal, CustomerPurchaseFrequency(lines, users));
  }

  // ---- findSalesByHourOfDay -------------------------------------------------

  datatype HourSales = HourSales(hourOfDay: Option<int>, orderCount: nat, totalRevenue: int)

  /** `HOUR(o.create_at)`, NULL for an undated order. */
  function LineHour(d: OrderDetail): Option<int>
  {
    if LineStamp(d).Some? then Some(HourOf(LineStamp(d).value)) else None
  }

  function HourSalesOf(ls: seq<OrderDetail>, h: Option<int>): HourSales
  {
    HourSales(h, |DistinctKeyed(ls, LineHour, h, OrderIdOf)|, SumKeyed(ls, LineHour, h, SubTotal))
  }

  /** Ascending hour, with the NULL group first. */
  predicate HourAsc(a: HourSales, b: HourSales)
  {
    a.hourOfDay.None? || (b.hourOfDay.Some? && a.hourOfDay.value <= b.hourOfDay.value)
  }

  lemma HourAscTotalPreorder()
    ensures TotalPreorder(HourAsc)
  {
  }

  function LinesWithOrder(lines: seq<OrderDetail>): (r: seq<OrderDetail>)
    ensures forall d :: d in r <==> d in lines && d.order.Some?
  {
    Filter(lines, (d: OrderDetail) => d.order.Some?)
  }

  /** One row per hour of day with order lines (plus one for undated orders), by hour. */
  function SalesByHourOfDay(lines: seq<OrderDetail>): (rows: seq<HourSales>)
    ensures SortedBy(rows, HourAsc)
    ensures var w := LinesWithOrder(lines);
      multiset(rows) == multiset(Map(Keys(w, LineHour), (h: Option<int>) => HourSalesOf(w, h)))
  {
    var w := LinesWithOrder(lines);
    HourAscTotalPreorder();
    SortBy(Map(Keys(w, LineHour), (h: Option<int>) => HourSalesOf(w, h)), HourAsc)
  }

  /** Hours are 0..23 and each listed hour has at least one order. */
  lemma SalesByHourRow(lines: seq<OrderDetail>, r: HourSales)
    requires r in SalesByHourOfDay(lines)
    ensures r.orderCount >= 1 && (r.hourOfDay.Some? ==> 0 <= r.hourOfDay.value < 24)
  {
    var w := LinesWithOrder(lines);
    GroupedRow(w, LineHour, (h: Option<int>) => HourSalesOf(w, h), SalesByHourOfDay(lines), r);
    var i :| 0 <= i < |w| && r == HourSalesOf(w, LineHour(w[i]));
    DistinctKeyedBound(w, LineHour, r.hourOfDay, OrderIdOf);
  }

  /** The hours' revenues add up to that of all lines with an order. */
  lemma SalesByHourTotal(lines: seq<OrderDetail>)
    ensures Sum(SalesByHourOfDay(lines), (r: HourSales) => r.totalRevenue) == LinesTotal(LinesWithOrder(lines))
  {
    var w := LinesWithOrder(lines);
    GroupedTotal(w, LineHour, (h: Option<int>) => HourSalesOf(w, h), (r: HourSales) => r.totalRevenue, SubTotal,
      SalesByHourOfDay(lines));
  }

  // ---- findSalesByCategory and findRevenueByCategory ------------------------

  predicate HasCategory(d: OrderDetail)
  {
    d.product.Some? && d.product.value.category.Some?
  }

  function CategoryName(d: OrderDetail): string
  {
    if HasCategory(d) then d.product.value.category.value.name else ""
  }

  datatype CategorySales = CategorySales(name: string, totalQuantity: int, totalRevenue: int)

  function CategorisedLines(lines: seq<OrderDetail>): (r: seq<OrderDetail>)
    ensures forall d :: d in r <==> d in lines && HasCategory(d)
  {
    Filter(lines, HasCategory)
  }

  /** `findSalesByCategory`: quantity and revenue per category name, in no particular order (first-seen here). */
  function SalesByCategory(lines: seq<OrderDetail>): (rows: seq<CategorySales>)
    ensures var w := CategorisedLines(lines);
      |rows| == |Keys(w, CategoryName)| &&
      forall i :: 0 <= i < |rows| ==>
        (rows[i].name == Keys(w, CategoryName)[i] &&
         rows[i].totalQuantity == SumKeyed(w, CategoryName, rows[i].name, Quantity) &&
         rows[i].totalRevenue == SumKeyed(w, CategoryName, rows[i].name, SubTotal))
  {
    var w := CategorisedLines(lines);
    Map(Keys(w, CategoryName), (c: string) =>
      CategorySales(c, SumKeyed(w, CategoryName, c, Quantity), SumKeyed(w, CategoryName, c, SubTotal)))
  }

  /** Lines without a product or category are dropped; the category quantities add up to those of the other lines. */
  lemma SalesByCategoryTotals(lines: seq<OrderDetail>)
    ensures Sum(SalesByCategory(lines), (r: CategorySales) => r.totalQuantity) == Sum(CategorisedLines(lines), Quantity)
    ensures forall r :: r in SalesByCategory(lines) ==> exists d :: d in lines && HasCategory(d) && CategoryName(d) == r.name
  {
    var w := CategorisedLines(lines);
    var ks := Keys(w, CategoryName);
    var g := (c: string) => CategorySales(c, SumKeyed(w, CategoryName, c, Quantity), SumKeyed(w, CategoryName, c, SubTotal));
    assert SalesByCategory(lines) == Map(ks, g);
    SumMap(ks, g, (r: CategorySales) => r.totalQuantity, (c: string) => SumKeyed(w, CategoryName, c, Quantity));
    SumKeysPartition(w, CategoryName, Quantity);
    forall r | r in SalesByCategory(lines)
      ensures exists d :: d in lines && HasCategory(d) && CategoryName(d) == r.name
    {
      var c :| c in ks && r == g(c);
      var i :| 0 <= i < |w| && CategoryName(w[i]) == c;
      assert w[i] in w;
    }
  }

  datatype CategoryRevenue = CategoryRevenue(category: string, revenue: int, orderCount: nat)

  /** Categorised lines whose order is stamped within [lo, hi]. */
  function CategoryLinesBetween(lines: seq<OrderDetail>, lo: int, hi: int): (r: seq<OrderDetail>)
    ensures forall d :: d in r <==> d in lines && HasCategory(d) && LineStamp(d).Some? && lo <= LineStamp(d).value <= hi
  {
    Filter(lines, (d: OrderDetail) => HasCategory(d) && LineStamp(d).Some? && lo <= LineStamp(d).value <= hi)
  }

  function CategoryRevenueOf(ls: seq<OrderDetail>, c: string): CategoryRevenue
  {
    CategoryRevenue(c, SumKeyed(ls, CategoryName, c, SubTotal), |DistinctKeyed(ls, CategoryName, c, OrderIdOf)|)
  }

  predicate RevenueDesc(a: CategoryRevenue, b: CategoryRevenue)
  {
    a.revenue >= b.revenue
  }

  /** `findRevenueByCategory`: revenue and distinct orders per category in the range, highest revenue first. */
  function RevenueByCategory(lines: seq<OrderDetail>, lo: int, hi: int): (rows: seq<CategoryRevenue>)
    ensures SortedBy(rows, RevenueDesc)
    ensures var w := CategoryLinesBetween(lines, lo, hi);
      multiset(rows) == multiset(Map(Keys(w, CategoryName), (c: string) => CategoryRevenueOf(w, c)))
  {
    var w := CategoryLinesBetween(lines, lo, hi);
    SortBy(Map(Keys(w, CategoryName), (c: string) => CategoryRevenueOf(w, c)), RevenueDesc)
  }

  /** Each category counts between 1 and its number of lines of distinct orders. */
  lemma RevenueByCategoryRow(lines: seq<OrderDetail>, lo: int, hi: int, r: CategoryRevenue)
    requires r in RevenueByCategory(lines, lo, hi)
    ensures 1 <= r.orderCount <= CountKey(CategoryLinesBetween(lines, lo, hi), CategoryName, r.category)
  {
    var w := CategoryLinesBetween(lines, lo, hi);
    GroupedRow(w, CategoryName, (c: string) => CategoryRevenueOf(w, c), RevenueByCategory(lines, lo, hi), r);
    var i :| 0 <= i < |w| && r == CategoryRevenueOf(w, CategoryName(w[i]));
    DistinctKeyedBound(w, CategoryName, r.category, OrderIdOf);
  }

  /** The categories' revenues add up to the range's line total. */
  lemma RevenueByCategoryTotal(lines: seq<OrderDetail>, lo: int, hi: int)
    ensures Sum(RevenueByCategory(lines, lo, hi), (r: CategoryRevenue) => r.revenue) == LinesTotal(CategoryLinesBetween(lines, lo, hi))
  {
    var w := CategoryLinesBetween(lines, lo, hi);
    GroupedTotal(w, CategoryName, (c: string) => CategoryRevenueOf(w, c), (r: CategoryRevenue) => r.revenue, SubTotal,
      RevenueByCategory(lines, lo, hi));
  }
}
