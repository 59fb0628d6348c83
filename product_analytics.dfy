/**
 * The per-product and per-status reports of `AnalyticsController`:
 * `getProductPerformance` (stream grouping by line name),
 * `getOrderStatusDistribution` (stream counting by status) and `getProducts`
 * (a loop filling a map of per-name statistics, then sorted and limited).
 *
 * A line belongs to a product group by its `name` column; a line whose name
 * is null or empty belongs to no group.  Hash-map entry order is modelled as
 * the first-seen order of the keys.
 */
module ProductAnalytics {
  import opened Seqs
  import opened Entities
  import opened Calendar

  predicate Named(d: OrderDetail)
  {
    d.name.Some? && |d.name.value| > 0
  }

  /** The grouping key; unnamed lines are filtered out before it is used. */
  function NameOf(d: OrderDetail): string
  {
    if d.name.Some? then d.name.value else ""
  }

  function Quantity(d: OrderDetail): int
  {
    d.quantity
  }

  /** The lines that take part in product grouping, in input order. */
  function NamedLines(details: seq<OrderDetail>): (w: seq<OrderDetail>)
    ensures forall d :: d in w <==> d in details && Named(d)
  {
    Filter(details, Named)
  }

  /** The lines of one product, in input order (the list `groupingBy` collects). */
  function LinesNamed(w: seq<OrderDetail>, name: string): (g: seq<OrderDetail>)
    ensures forall d :: d in g <==> d in w && NameOf(d) == name
  {
    Filter(w, (d: OrderDetail) => NameOf(d) == name)
  }

  // ---- Java String.hashCode -------------------------------------------------

  const TwoTo32: int := 0x1_0000_0000

  /** A value reduced to Java's 32-bit two's-complement `int` range. */
  function ToInt32(x: int): (r: int)
    ensures -0x8000_0000 <= r < 0x8000_0000
    ensures (x - r) % TwoTo32 == 0
  {
    var m := x % TwoTo32;
    if m >= 0x8000_0000 then m - TwoTo32 else m
  }

  /** `String.hashCode()`: h = 31·h + c over the characters, in 32-bit `int` arithmetic. */
  function JavaHash(s: string): (h: int)
    ensures -0x8000_0000 <= h < 0x8000_0000
    decreases |s|
  {
    if |s| == 0 then 0 else ToInt32(31 * JavaHash(s[..|s| - 1]) + s[|s| - 1] as int)
  }

  /** The documented value Σ s[i]·31^(n−1−i), without wrap-around. */
  function HashPolynomial(s: string): int
    decreases |s|
  {
    if |s| == 0 then 0 else 31 * HashPolynomial(s[..|s| - 1]) + s[|s| - 1] as int
  }

  /** The wrapped hash differs from the polynomial by a multiple of 2^32. */
  lemma {:induction false} JavaHashPolynomial(s: string) returns (k: int)
    ensures JavaHash(s) == HashPolynomial(s) + k * TwoTo32
    decreases |s|
  {
    if |s| == 0 {
      k := 0;
    } else {
      var init := s[..|s| - 1];
      var k0 := JavaHashPolynomial(init);
      k := WrapStep(JavaHash(init), HashPolynomial(init), k0, s[|s| - 1] as int);
    }
  }

  /** One step of the hash: wrapping 31·h + c keeps the difference from 31·p + c a multiple of 2^32. */
  lemma WrapStep(h: int, p: int, k0: int, c: int) returns (k: int)
    requires h == p + k0 * 0x1_0000_0000
    ensures ToInt32(31 * h + c) == 31 * p + c + k * 0x1_0000_0000
  {
    var x := 31 * h + c;
    var r := ToInt32(x);
    var j := (r - x) / 0x1_0000_0000;
    assert r == x + j * 0x1_0000_0000;
    k := 31 * k0 + j;
  }

  lemma JavaHashExample()
    ensures JavaHash("ab") == 3105
    ensures JavaHash("") == 0
  {
    assert "ab"[..1] == "a";
    assert "a"[..0] == "";
  }

  // ---- getProductPerformance ------------------------------------------------

  datatype ProductPerformance = ProductPerformance(
    productName: string,
    productId: int,
    category: string,
    quantitySold: int,
    revenue: int,
    uniqueCustomers: nat)

  predicate HasProduct(d: OrderDetail)
  {
    d.product.Some?
  }

  predicate HasCategory(d: OrderDetail)
  {
    d.product.Some? && d.product.value.category.Some?
  }

  predicate HasCustomer(d: OrderDetail)
  {
    d.order.Some? && d.order.value.user.Some?
  }

  function CustomerOf(d: OrderDetail): int
  {
    if HasCustomer(d) then d.order.value.user.value else 0
  }

  /** The first linked product's id, else the name's hash widened to `long`. */
  function ProductIdOf(group: seq<OrderDetail>, name: string): int
  {
    match FindFirst(group, HasProduct)
    case Some(d) => d.product.value.id
    case None => JavaHash(name)
  }

  /** The first linked product's category name, else "Uncategorized". */
  function CategoryOfGroup(group: seq<OrderDetail>): string
  {
    match FindFirst(group, HasCategory)
    case Some(d) => d.product.value.category.value.name
    case None => "Uncategorized"
  }

  /** Distinct ids of the users whose orders hold a line of the group. */
  function UniqueCustomers(group: seq<OrderDetail>): set<int>
  {
    set i | 0 <= i < |group| && HasCustomer(group[i]) :: CustomerOf(group[i])
  }

  function PerformanceOf(w: seq<OrderDetail>, name: string): ProductPerformance
  {
    var group := LinesNamed(w, name);
    ProductPerformance(name, ProductIdOf(group, name), CategoryOfGroup(group),
      SumKeyed(w, NameOf, name, Quantity), SumKeyed(w, NameOf, name, SubTotal), |UniqueCustomers(group)|)
  }

  predicate RevenueDesc(a: ProductPerformance, b: ProductPerformance)
  {
    a.revenue >= b.revenue
  }

  /** One row per distinct non-empty line name, highest revenue first. */
  function GetProductPerformance(details: seq<OrderDetail>): (rows: seq<ProductPerformance>)
    ensures SortedBy(rows, RevenueDesc)
    ensures |rows| == |Keys(NamedLines(details), NameOf)|
    ensures var w := NamedLines(details);
      multiset(rows) == multiset(Map(Keys(w, NameOf), (name: string) => PerformanceOf(w, name)))
  {
    var w := NamedLines(details);
    SortBy(Map(Keys(w, NameOf), (name: string) => PerformanceOf(w, name)), RevenueDesc)
  }

  /** Revenues and quantities of the rows add up to those of every named line. */
  lemma ProductPerformanceTotals(details: seq<OrderDetail>)
    ensures Sum(GetProductPerformance(details), (r: ProductPerformance) => r.revenue) == LinesTotal(NamedLines(details))
    ensures Sum(GetProductPerformance(details), (r: ProductPerformance) => r.quantitySold) == Sum(NamedLines(details), Quantity)
  {
    var w := NamedLines(details);
    var g := (name: string) => PerformanceOf(w, name);
    GroupedTotal(w, NameOf, g, (r: ProductPerformance) => r.revenue, SubTotal, GetProductPerformance(details));
    GroupedTotal(w, NameOf, g, (r: ProductPerformance) => r.quantitySold, Quantity, GetProductPerformance(details));
  }

  /** Each row is the performance of the group of some named line. */
  lemma PerformanceRowGroup(details: seq<OrderDetail>, r: ProductPerformance) returns (d: OrderDetail)
    requires r in GetProductPerformance(details)
    ensures d in details && Named(d) && d.name.value == r.productName
    ensures r == PerformanceOf(NamedLines(details), r.productName)
  {
    var w := NamedLines(details);
    GroupedRow(w, NameOf, (name: string) => PerformanceOf(w, name), GetProductPerformance(details), r);
    var i :| 0 <= i < |w| && r == PerformanceOf(w, NameOf(w[i]));
    d := w[i];
    assert d in w;
  }

  /** A row's category is "Uncategorized" when no line of its group has a categorised product. */
  lemma PerformanceRowCategory(details: seq<OrderDetail>, r: ProductPerformance)
    requires r in GetProductPerformance(details)
    requires forall d :: d in details && NameOf(d) == r.productName ==> !HasCategory(d)
    ensures r.category == "Uncategorized"
  {
    var _ := PerformanceRowGroup(details, r);
    var group := LinesNamed(NamedLines(details), r.productName);
    forall j | 0 <= j < |group|
      ensures !HasCategory(group[j])
    {
      assert group[j] in group;
    }
  }

  /** A row's distinct customers are no more numerous than its lines. */
  lemma PerformanceRowCustomers(details: seq<OrderDetail>, r: ProductPerformance)
    requires r in GetProductPerformance(details)
    ensures r.uniqueCustomers <= |LinesNamed(NamedLines(details), r.productName)|
  {
    var _ := PerformanceRowGroup(details, r);
    UniqueCustomersBound(LinesNamed(NamedLines(details), r.productName));
  }

  lemma UniqueCustomersBound(group: seq<OrderDetail>)
    ensures |UniqueCustomers(group)| <= |group|
  {
    forall c | c in UniqueCustomers(group)
      ensures exists j :: 0 <= j < |group| && CustomerOf(group[j]) == c
    {
      var j :| 0 <= j < |group| && HasCustomer(group[j]) && CustomerOf(group[j]) == c;
    }
    ImageBound(group, CustomerOf, UniqueCustomers(group));
  }

  // ---- getOrderStatusDistribution -------------------------------------------

  datatype StatusShare = StatusShare(status: string, count: nat, percentage: Ratio)

  /** The grouping key: the status, or "UNKNOWN" when it is null. */
  function StatusKey(o: Order): string
  {
    if o.status.Some? then o.status.value else "UNKNOWN"
  }

  /**
   * One row per distinct status key with the number of orders holding it and
   * its share of all orders; a status occurs in the rows exactly when an
   * order has it.
   */
  function GetOrderStatusDistribution(orders: seq<Order>): (rows: seq<StatusShare>)
    ensures Statuses(rows) == Keys(orders, StatusKey)
    ensures forall i :: 0 <= i < |rows| ==>
      0 < rows[i].count == CountKey(orders, StatusKey, rows[i].status) &&
      rows[i].percentage == Ratio(rows[i].count * 100, |orders|)
  {
    KeysCounted(orders, StatusKey);
    Map(Keys(orders, StatusKey), (st: string) => StatusShare(st, CountKey(orders, StatusKey, st), Percent(CountKey(orders, StatusKey, st), |orders|)))
  }

  /** The status column of the rows. */
  function Statuses(rows: seq<StatusShare>): seq<string>
  {
    Map(rows, (r: StatusShare) => r.status)
  }

  /** A status key has a row exactly when some order carries it, and no key has two rows. */
  lemma StatusRowsCover(orders: seq<Order>, st: string)
    ensures st in Statuses(GetOrderStatusDistribution(orders)) <==> exists o :: o in orders && StatusKey(o) == st
    ensures forall i, j :: 0 <= i < j < |GetOrderStatusDistribution(orders)| ==>
      GetOrderStatusDistribution(orders)[i].status != GetOrderStatusDistribution(orders)[j].status
  {
    var rows := GetOrderStatusDistribution(orders);
    assert forall i :: 0 <= i < |rows| ==> rows[i].status == Statuses(rows)[i];
    if exists o :: o in orders && StatusKey(o) == st {
      var o :| o in orders && StatusKey(o) == st;
      var j :| 0 <= j < |orders| && orders[j] == o;
    }
    if st in Statuses(rows) {
      var j :| 0 <= j < |orders| && StatusKey(orders[j]) == st;
      assert orders[j] in orders;
    }
  }

  function ShareCount(r: StatusShare): int
  {
    r.count
  }

  /** Every order is counted under exactly one status: the counts add up to the number of orders. */
  lemma StatusCountsTotal(orders: seq<Order>)
    ensures Sum(GetOrderStatusDistribution(orders), ShareCount) == |orders|
  {
    SumMap(Keys(orders, StatusKey),
      (st: string) => StatusShare(st, CountKey(orders, StatusKey, st), Percent(CountKey(orders, StatusKey, st), |orders|)),
      ShareCount, (st: string) => CountKey(orders, StatusKey, st));
    CountKeysPartition(orders, StatusKey);
  }

  /** An order without a status is reported under "UNKNOWN". */
  lemma NullStatusIsUnknown(orders: seq<Order>, o: Order)
    requires o in orders && o.status.None?
    ensures "UNKNOWN" in Statuses(GetOrderStatusDistribution(orders))
  {
    StatusRowsCover(orders, "UNKNOWN");
    assert StatusKey(o) == "UNKNOWN";
  }

  // ---- getProducts ----------------------------------------------------------

  /** The per-name entry `getProducts` builds: units and revenue summed, price and category of the last line read. */
  datatype ProductStat = ProductStat(name: string, totalSold: int, totalRevenue: int, price: int, category: string)

  /** A line's category name, or "Uncategorized" when it has no categorised product. */
  function CategoryLabel(d: OrderDetail): string
  {
    if HasCategory(d) then d.product.value.category.value.name else "Uncategorized"
  }

  /** The last line of the named lines that carries this name. */
  function LastNamed(w: seq<OrderDetail>, name: string): Option<OrderDetail>
  {
    FindLast(w, (d: OrderDetail) => NameOf(d) == name)
  }

  /** The entry of one name after reading the named lines w (all zero for a name not met). */
  function StatOf(w: seq<OrderDetail>, name: string): ProductStat
  {
    var last := LastNamed(w, name);
    ProductStat(name, SumKeyed(w, NameOf, name, Quantity), SumKeyed(w, NameOf, name, SubTotal),
      if last.Some? then last.value.price else 0,
      if last.Some? then CategoryLabel(last.value) else "")
  }

  /** The entry before any line of the name has been read: Java's fresh map with its getOrDefault zeros. */
  function FreshStat(name: string): ProductStat
  {
    ProductStat(name, 0, 0, 0, "")
  }

  /** Reading one more named line changes only its own name's entry, the way the loop body does. */
  lemma StatStep(w: seq<OrderDetail>, d: OrderDetail, name: string)
    ensures StatOf(w + [d], name) ==
      if NameOf(d) == name then
        ProductStat(name, StatOf(w, name).totalSold + d.quantity, StatOf(w, name).totalRevenue + SubTotal(d), d.price, CategoryLabel(d))
      else StatOf(w, name)
  {
    assert (w + [d])[..|w|] == w;
  }

  lemma StatOfAbsent(w: seq<OrderDetail>, name: string)
    requires name !in Keys(w, NameOf)
    ensures StatOf(w, name) == FreshStat(name)
  {
    SumKeyedAbsent(w, NameOf, name, Quantity);
    SumKeyedAbsent(w, NameOf, name, SubTotal);
  }

  /** One line read into the map: `getOrDefault`, add the line's units and subtotal, overwrite price and category. */
  function Record(stats: map<string, ProductStat>, d: OrderDetail): map<string, ProductStat>
  {
    var name := NameOf(d);
    var st := if name in stats then stats[name] else FreshStat(name);
    stats[name := ProductStat(name, st.totalSold + d.quantity, st.totalRevenue + SubTotal(d), d.price, CategoryLabel(d))]
  }

  /** The state of the loop after the lines ds: the names in insertion order and the entries. */
  function ProductStatsOf(ds: seq<OrderDetail>): (seq<string>, map<string, ProductStat>)
    decreases |ds|
  {
    if |ds| == 0 then ([], map[])
    else
      var state := ProductStatsOf(ds[..|ds| - 1]);
      var d := ds[|ds| - 1];
      if !Named(d) then state
      else if NameOf(d) in state.1 then (state.0, Record(state.1, d))
      else (state.0 + [NameOf(d)], Record(state.1, d))
  }

  /** The loop's names are the distinct line names in first-seen order, and they are the entries' keys. */
  lemma {:induction false} ProductStatsKeys(ds: seq<OrderDetail>)
    ensures ProductStatsOf(ds).0 == Keys(NamedLines(ds), NameOf)
    ensures forall k :: k in ProductStatsOf(ds).1 <==> k in ProductStatsOf(ds).0
    decreases |ds|
  {
    if |ds| > 0 {
      var init := ds[..|ds| - 1];
      var d := ds[|ds| - 1];
      ProductStatsKeys(init);
      var w0 := NamedLines(init);
      if Named(d) {
        NamedKeysStep(w0, d, ProductStatsOf(init).0);
      } else {
        assert NamedLines(ds) == w0;
      }
    }
  }

  lemma NamedKeysStep(w0: seq<OrderDetail>, d: OrderDetail, names: seq<string>)
    requires names == Keys(w0, NameOf)
    ensures Keys(w0 + [d], NameOf) == if NameOf(d) in names then names else names + [NameOf(d)]
  {
    assert (w0 + [d])[..|w0|] == w0;
  }

  /** One named line read: the updated map holds the entries of the longer prefix. */
  lemma StatsStep(w: seq<OrderDetail>, d: OrderDetail, m: map<string, ProductStat>, next: map<string, ProductStat>)
    requires forall k :: k in m ==> m[k] == StatOf(w, k)
    requires NameOf(d) !in m ==> StatOf(w, NameOf(d)) == FreshStat(NameOf(d))
    requires next == Record(m, d)
    ensures forall k :: k in next ==> next[k] == StatOf(w + [d], k)
  {
    var name := NameOf(d);
    forall k | k in next
      ensures next[k] == StatOf(w + [d], k)
    {
      if k == name {
        StatStep(w, d, k);
      } else {
        OtherStatStep(w, d, k);
      }
    }
  }

  /** A line of another name leaves an entry as it was. */
  lemma OtherStatStep(w: seq<OrderDetail>, d: OrderDetail, name: string)
    requires NameOf(d) != name
    ensures StatOf(w + [d], name) == StatOf(w, name)
  {
    StatStep(w, d, name);
  }

  /** Each entry of the loop's state holds its name's sums and the price and category of its last line. */
  lemma {:induction false} ProductStatsValues(ds: seq<OrderDetail>)
    ensures forall k :: k in ProductStatsOf(ds).1 ==> ProductStatsOf(ds).1[k] == StatOf(NamedLines(ds), k)
    decreases |ds|
  {
    if |ds| > 0 {
      var init := ds[..|ds| - 1];
      var d := ds[|ds| - 1];
      ProductStatsValues(init);
      if Named(d) {
        ProductStatsKeys(init);
        assert NamedLines(ds) == NamedLines(init) + [d];
        if NameOf(d) !in ProductStatsOf(init).1 {
          StatOfAbsent(NamedLines(init), NameOf(d));
        }
        StatsStep(NamedLines(init), d, ProductStatsOf(init).1, ProductStatsOf(ds).1);
      } else {
        assert NamedLines(ds) == NamedLines(init);
      }
    }
  }

  /** The loop over the lines: skip unnamed lines, otherwise update the entry of the line's name. */
  method CollectProductStats(details: seq<OrderDetail>) returns (names: seq<string>, stats: map<string, ProductStat>)
    ensures names == Keys(NamedLines(details), NameOf)
    ensures forall k :: k in stats <==> k in names
    ensures forall k :: k in stats ==> stats[k] == StatOf(NamedLines(details), k)
  {
    names := [];
    stats := map[];
    for i := 0 to |details|
      invariant (names, stats) == ProductStatsOf(details[..i])
    {
      var detail := details[i];
      if detail.name.Some? && |detail.name.value| > 0 {
        var productName := detail.name.value;
        ghost var statsBefore := stats;
        var entry := FreshStat(productName);
        if productName in stats {
          entry := stats[productName];
        } else {
          names := names + [productName];
        }
        var category := "Uncategorized";
        if detail.product.Some? && detail.product.value.category.Some? {
          category := detail.product.value.category.value.name;
        }
        stats := stats[productName := ProductStat(productName, entry.totalSold + detail.quantity,
          entry.totalRevenue + SubTotal(detail), detail.price, category)];
        assert stats == Record(statsBefore, detail);
      }
      assert details[..i + 1][..i] == details[..i];
    }
    assert details[..|details|] == details;
    ProductStatsKeys(details);
    ProductStatsValues(details);
  }

  datatype ProductsReport = ProductsReport(data: seq<ProductStat>, limit: int)

  /**
   * The lines `getProducts` reads: with both dates, those whose order is
   * among the orders stamped from the start of the first day to the start of
   * the day after the last (both ends included); otherwise every line.
   */
  function ProductLines(details: seq<OrderDetail>, orders: seq<Order>, startDay: Option<int>, endDay: Option<int>): (r: seq<OrderDetail>)
    ensures !(startDay.Some? && endDay.Some?) ==> r == details
    ensures startDay.Some? && endDay.Some? ==> forall d :: d in r <==> (d in details && d.order.Some? &&
      exists o :: o in FindByCreateAtBetween(orders, startDay.value * MillisPerDay, (endDay.value + 1) * MillisPerDay) && o.id == d.order.value.id)
  {
    if startDay.Some? && endDay.Some? then
      var inRange := FindByCreateAtBetween(orders, startDay.value * MillisPerDay, (endDay.value + 1) * MillisPerDay);
      var ids := set o | o in inRange :: o.id;
      Filter(details, (d: OrderDetail) => d.order.Some? && d.order.value.id in ids)
    else details
  }

  predicate SoldDesc(a: ProductStat, b: ProductStat)
  {
    a.totalSold >= b.totalSold
  }

  /** Every product's entry, best-selling first (before the limit is applied). */
  function RankedProducts(lines: seq<OrderDetail>): (r: seq<ProductStat>)
    ensures SortedBy(r, SoldDesc)
    ensures var w := NamedLines(lines);
      multiset(r) == multiset(Map(Keys(w, NameOf), (name: string) => StatOf(w, name)))
  {
    var w := NamedLines(lines);
    SortBy(Map(Keys(w, NameOf), (name: string) => StatOf(w, name)), SoldDesc)
  }

  /**
   * `getProducts`: the product entries of the selected lines, best-selling
   * first, cut at `limit`.  A negative limit makes `Stream.limit` throw, and
   * the handler answers with placeholder data instead.
   */
  method GetProducts(details: seq<OrderDetail>, orders: seq<Order>, limit: int, startDay: Option<int>, endDay: Option<int>)
    returns (r: Result<ProductsReport>)
    ensures r.Failure? <==> limit < 0
    ensures r.Success? ==> (r.value.limit == limit &&
      r.value.data == Take(RankedProducts(ProductLines(details, orders, startDay, endDay)), limit))
  {
    var lines := ProductLines(details, orders, startDay, endDay);
    r := ProductsOf(lines, limit);
  }

  /** `new ArrayList<>(productStats.values())`: the entries in the order their names were first met. */
  method StatsInOrder(lines: seq<OrderDetail>) returns (values: seq<ProductStat>)
    ensures var w := NamedLines(lines);
      values == Map(Keys(w, NameOf), (name: string) => StatOf(w, name))
  {
    var names, stats := CollectProductStats(lines);
    values := Map(names, (k: string) => if k in stats then stats[k] else FreshStat(k));
    var w := NamedLines(lines);
    var target := Map(Keys(w, NameOf), (name: string) => StatOf(w, name));
    forall i | 0 <= i < |values|
      ensures values[i] == target[i]
    {
      assert names[i] in stats;
    }
  }

  /** The entries of the selected lines, ranked and cut; a negative limit fails as `Stream.limit` does. */
  method ProductsOf(lines: seq<OrderDetail>, limit: int) returns (r: Result<ProductsReport>)
    ensures r.Failure? <==> limit < 0
    ensures r.Success? ==> r.value.limit == limit && r.value.data == Take(RankedProducts(lines), limit)
  {
    var values := StatsInOrder(lines);
    if limit < 0 {
      return Failure("IllegalArgumentException");
    }
    var ranked := SortBy(values, SoldDesc);
    r := Success(ProductsReport(Take(ranked, limit), limit));
  }

  /**
   * The cut keeps the best sellers: every entry left out sold no more than
   * any entry kept, and nothing is left out when the limit covers every
   * product.
   */
  lemma TopProductsDominate(lines: seq<OrderDetail>, limit: int, s: ProductStat)
    requires s in RankedProducts(lines) && s !in Take(RankedProducts(lines), limit)
    ensures forall i :: 0 <= i < |Take(RankedProducts(lines), limit)| ==> Take(RankedProducts(lines), limit)[i].totalSold >= s.totalSold
    ensures limit < |Keys(NamedLines(lines), NameOf)|
  {
    var r := RankedProducts(lines);
    var j :| 0 <= j < |r| && r[j] == s;
    var top := Take(r, limit);
    if j < |top| {
      assert false;
    }
    assert |r| == |Keys(NamedLines(lines), NameOf)| by {
      assert |multiset(r)| == |Map(Keys(NamedLines(lines), NameOf), (name: string) => StatOf(NamedLines(lines), name))|;
    }
  }

  /** With a limit covering every product, units and revenue add up to those of all named lines. */
  lemma TopProductsTotals(lines: seq<OrderDetail>, limit: int)
    requires limit >= |Keys(NamedLines(lines), NameOf)|
    ensures Sum(Take(RankedProducts(lines), limit), (p: ProductStat) => p.totalSold) == Sum(NamedLines(lines), Quantity)
    ensures Sum(Take(RankedProducts(lines), limit), (p: ProductStat) => p.totalRevenue) == LinesTotal(NamedLines(lines))
  {
    var w := NamedLines(lines);
    var r := RankedProducts(lines);
    assert |r| == |Keys(w, NameOf)| by {
      assert |multiset(r)| == |Map(Keys(w, NameOf), (name: string) => StatOf(w, name))|;
    }
    assert Take(r, limit) == r;
    var g := (name: string) => StatOf(w, name);
    GroupedTotal(w, NameOf, g, (p: ProductStat) => p.totalSold, Quantity, r);
    GroupedTotal(w, NameOf, g, (p: ProductStat) => p.totalRevenue, SubTotal, r);
  }

  /** The price and category reported for a product are those of the last of its lines read. */
  lemma ProductStatFromLastLine(lines: seq<OrderDetail>, s: ProductStat)
    requires s in RankedProducts(lines)
    ensures exists i :: (0 <= i < |NamedLines(lines)| && NameOf(NamedLines(lines)[i]) == s.name &&
      s.price == NamedLines(lines)[i].price && s.category == CategoryLabel(NamedLines(lines)[i]) &&
      forall j :: i < j < |NamedLines(lines)| ==> NameOf(NamedLines(lines)[j]) != s.name)
  {
    var w := NamedLines(lines);
    GroupedRow(w, NameOf, (name: string) => StatOf(w, name), RankedProducts(lines), s);
    var i :| 0 <= i < |w| && s == StatOf(w, NameOf(w[i]));
    var last := LastNamed(w, s.name);
    assert last.Some?;
  }
}
