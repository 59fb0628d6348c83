/**
 * Customer lifetime value (`AdvancedAnalyticsController.getCustomerLifetimeValue`).
 *
 * Orders with a user are grouped by user id; for each group whose user still
 * exists: the order count, the total spent, the average order, the days since
 * the first order, the lifetime value (the total spent) and the monthly value.
 * Rows are sorted by lifetime value, highest first.  Finding the first order
 * compares order dates, so a group with an undated order raises a
 * NullPointerException and the report fails.
 */
module LifetimeValue {
  import opened Seqs
  import opened Entities
  import opened Calendar

  datatype ClvRow = ClvRow(
    userId: int,
    username: string,
    email: string,
    orderCount: nat,
    totalSpent: int,
    avgOrderValue: Ratio,
    daysSinceFirstOrder: int,
    clv: int,
    monthlyValue: Ratio)

  datatype ClvReport = ClvReport(customers: seq<ClvRow>, totalCustomers: nat, avgClv: Ratio, avgMonthlyValue: Ratio)

  /** The oldest timestamp: `min(Comparator.comparing(Order::getCreateAt))`. */
  function EarliestStamp(os: seq<Order>): (t: int)
    requires |os| > 0 && AllStamped(os)
    ensures forall i :: 0 <= i < |os| ==> t <= os[i].createAt.value
    ensures exists i :: 0 <= i < |os| && os[i].createAt.value == t
    decreases |os|
  {
    var last := os[|os| - 1].createAt.value;
    if |os| == 1 then last
    else
      var init := os[..|os| - 1];
      assert forall i :: 0 <= i < |init| ==> init[i] == os[i];
      var m := EarliestStamp(init);
      if last < m then last else m
  }

  /** Total spent per 30 days once the customer is older than 30 days, else the total itself. */
  function MonthlyValue(totalSpent: int, days: int): (v: Ratio)
    ensures days > 30 ==> v == Ratio(totalSpent * 30, days)
    ensures days <= 30 ==> v == Ratio(totalSpent, 1)
    ensures v.den > 0
  {
    if days > 30 then Ratio(totalSpent * 30, days) else Ratio(totalSpent, 1)
  }

  /** One group's row: none when the user no longer exists, the exception an undated order raises. */
  function CustomerClv(users: seq<User>, orders: seq<Order>, userId: int, today: int): Result<Option<ClvRow>>
  {
    var mine := OrdersOf(orders, userId);
    match FindUser(users, userId)
    case None => Success(None)
    case Some(user) =>
      if |mine| == 0 then Success(None)
      else if !AllStamped(mine) then Failure("NullPointerException")
      else
        var totalSpent := Revenue(mine);
        var days := today - DayOf(EarliestStamp(mine));
        Success(Some(ClvRow(userId, user.username, user.email, |mine|, totalSpent,
                            Ratio(totalSpent, |mine|), days, totalSpent, MonthlyValue(totalSpent, days))))
  }

  /** The rows the loop over the groups produces, in group order. */
  function ClvRows(ids: seq<int>, users: seq<User>, orders: seq<Order>, today: int): Result<seq<ClvRow>>
    decreases |ids|
  {
    if |ids| == 0 then Success([])
    else
      match ClvRows(ids[..|ids| - 1], users, orders, today)
      case Failure(e) => Failure(e)
      case Success(rows) =>
        match CustomerClv(users, orders, ids[|ids| - 1], today)
        case Failure(e) => Failure(e)
        case Success(None) => Success(rows)
        case Success(Some(row)) => Success(rows + [row])
  }

  /** A group gets a row exactly when its user still exists and has orders. */
  predicate Listed(users: seq<User>, orders: seq<Order>, id: int)
  {
    FindUser(users, id).Some? && |OrdersOf(orders, id)| > 0
  }

  /** The user id of each row, in row order. */
  function RowIds(rows: seq<ClvRow>): seq<int>
  {
    Map(rows, (r: ClvRow) => r.userId)
  }

  /** A user with orders is one of the grouping's keys. */
  lemma ListedIsKey(users: seq<User>, orders: seq<Order>, id: int)
    requires Listed(users, orders, id)
    ensures id in CustomerKeys(orders)
  {
    assert OrdersOf(orders, id)[0] in OrdersOf(orders, id);
  }

  /** `b.clv` compared with `a.clv`: highest value first. */
  predicate ClvGe(a: ClvRow, b: ClvRow)
  {
    a.clv >= b.clv
  }

  function AverageClv(rows: seq<ClvRow>): (avg: Ratio)
    ensures |rows| > 0 ==> avg == Ratio(Sum(rows, (r: ClvRow) => r.clv), |rows|)
    ensures |rows| == 0 ==> avg == Ratio(0, 1)
  {
    if |rows| > 0 then Ratio(Sum(rows, (r: ClvRow) => r.clv), |rows|) else Ratio(0, 1)
  }

  /**
   * The mean of the monthly values as each row stores them, that is after
   * `Math.round`; 0 when there are no rows.
   */
  function AverageMonthlyValue(rows: seq<ClvRow>): (avg: Ratio)
    ensures |rows| > 0 ==> avg == Ratio(Sum(rows, (r: ClvRow) => MathRound(r.monthlyValue)), |rows|)
    ensures |rows| == 0 ==> avg == Ratio(0, 1)
  {
    if |rows| > 0 then Ratio(Sum(rows, (r: ClvRow) => MathRound(r.monthlyValue)), |rows|) else Ratio(0, 1)
  }

  /**
   * The summary does not depend on the order of the rows: averaging the
   * sorted list gives what averaging the rows in group order gives.
   */
  lemma AveragesIgnoreOrder(a: seq<ClvRow>, b: seq<ClvRow>)
    requires multiset(a) == multiset(b)
    ensures AverageClv(a) == AverageClv(b)
    ensures AverageMonthlyValue(a) == AverageMonthlyValue(b)
  {
    assert |a| == |multiset(a)| == |multiset(b)| == |b|;
    SumPermutation(a, b, (r: ClvRow) => r.clv);
    SumPermutation(a, b, (r: ClvRow) => MathRound(r.monthlyValue));
  }

  lemma {:induction false} ClvFailureSticks(ids: seq<int>, k: nat, users: seq<User>, orders: seq<Order>, today: int)
    requires k <= |ids|
    requires ClvRows(ids[..k], users, orders, today).Failure?
    ensures ClvRows(ids, users, orders, today).Failure?
    decreases |ids|
  {
    if k < |ids| {
      var init := ids[..|ids| - 1];
      assert init[..k] == ids[..k];
      ClvFailureSticks(init, k, users, orders, today);
    } else {
      assert ids[..k] == ids;
    }
  }

  /**
   * Completeness: the rows' user ids, in order, are the group ids whose user
   * exists and has orders; no such group is skipped and no other gets a row.
   */
  lemma {:induction false} ClvRowsOnePerCustomer(ids: seq<int>, users: seq<User>, orders: seq<Order>, today: int)
    requires ClvRows(ids, users, orders, today).Success?
    ensures RowIds(ClvRows(ids, users, orders, today).value) == Filter(ids, (id: int) => Listed(users, orders, id))
    decreases |ids|
  {
    if |ids| > 0 {
      var init := ids[..|ids| - 1];
      var id := ids[|ids| - 1];
      assert ClvRows(init, users, orders, today).Success?;
      ClvRowsOnePerCustomer(init, users, orders, today);
      var rows := ClvRows(init, users, orders, today).value;
      var c := CustomerClv(users, orders, id, today);
      assert c.value.Some? <==> Listed(users, orders, id);
      if c.value.Some? {
        var all := rows + [c.value.value];
        assert all[..|all| - 1] == rows;
        MapSnoc(all, (r: ClvRow) => r.userId);
      }
    }
  }

  /** The loop over the groups: one row per existing user, stopping at the first exception. */
  method CustomerRows(ids: seq<int>, users: seq<User>, orders: seq<Order>, today: int) returns (r: Result<seq<ClvRow>>)
    ensures r.Failure? <==> ClvRows(ids, users, orders, today).Failure?
    ensures r.Success? ==> r.value == ClvRows(ids, users, orders, today).value
  {
    var customerData: seq<ClvRow> := [];
    for i := 0 to |ids|
      invariant ClvRows(ids[..i], users, orders, today) == Success(customerData)
    {
      assert ids[..i + 1][..i] == ids[..i];
      var c := CustomerClv(users, orders, ids[i], today);
      if c.Failure? {
        ClvFailureSticks(ids, i + 1, users, orders, today);
        return Failure(c.error);
      }
      if c.value.Some? {
        customerData := customerData + [c.value.value];
      }
    }
    assert ids[..|ids|] == ids;
    r := Success(customerData);
  }

  /** `getCustomerLifetimeValue`: the loop over the groups, the sort, and the summary. */
  method CustomerLifetimeValue(users: seq<User>, orders: seq<Order>, today: int) returns (r: Result<ClvReport>)
    ensures r.Failure? <==> ClvRows(CustomerKeys(orders), users, orders, today).Failure?
    ensures r.Success? ==> SortedBy(r.value.customers, ClvGe)
    ensures r.Success? ==> multiset(r.value.customers) == multiset(ClvRows(CustomerKeys(orders), users, orders, today).value)
    ensures r.Success? ==> r.value.totalCustomers == |r.value.customers|
    ensures r.Success? ==> r.value.avgClv == AverageClv(r.value.customers)
    ensures r.Success? ==> r.value.avgMonthlyValue == AverageMonthlyValue(r.value.customers)
    ensures r.Success? ==> forall id :: multiset(RowIds(r.value.customers))[id] == if Listed(users, orders, id) then 1 else 0
  {
    var rows := CustomerRows(CustomerKeys(orders), users, orders, today);
    if rows.Failure? {
      return Failure(rows.error);
    }
    var customerData := rows.value;
    var sorted := SortBy(customerData, ClvGe);
    var keys := CustomerKeys(orders);
    ClvRowsOnePerCustomer(keys, users, orders, today);
    MapPermutation(sorted, customerData, (row: ClvRow) => row.userId);
    CustomerKeysDistinct(orders);
    forall id
      ensures multiset(RowIds(sorted))[id] == if Listed(users, orders, id) then 1 else 0
    {
      FilterMultiplicity(keys, (k: int) => Listed(users, orders, k), id);
      if Listed(users, orders, id) {
        ListedIsKey(users, orders, id);
      }
    }
    r := Success(ClvReport(sorted, |sorted|, AverageClv(sorted), AverageMonthlyValue(sorted)));
  }

  /** The report fails exactly when an order of an existing user has no date. */
  lemma {:induction false} ClvRowsSucceed(ids: seq<int>, users: seq<User>, orders: seq<Order>, today: int)
    ensures ClvRows(ids, users, orders, today).Success? <==>
      forall id, o :: id in ids && FindUser(users, id).Some? && o in orders && o.user == Some(id) ==> o.createAt.Some?
    decreases |ids|
  {
    if |ids| > 0 {
      var init := ids[..|ids| - 1];
      var id := ids[|ids| - 1];
      ClvRowsSucceed(init, users, orders, today);
      assert ids == init + [id];
      var mine := OrdersOf(orders, id);
      if FindUser(users, id).Some? && |mine| > 0 && !AllStamped(mine) {
        var j :| 0 <= j < |mine| && mine[j].createAt.None?;
        assert mine[j] in orders;
      } else if FindUser(users, id).Some? && |mine| > 0 {
        forall o | o in orders && o.user == Some(id)
          ensures o.createAt.Some?
        {
          var j :| 0 <= j < |mine| && mine[j] == o;
        }
      }
    }
  }

  /**
   * Every row belongs to an existing user with orders; its counts are that
   * user's orders and their total; the days since the first order are those
   * of the user's oldest order.
   */
  lemma {:induction false} ClvRowFigures(ids: seq<int>, users: seq<User>, orders: seq<Order>, today: int)
    requires ClvRows(ids, users, orders, today).Success?
    ensures forall row :: row in ClvRows(ids, users, orders, today).value ==>
      row.userId in ids && FindUser(users, row.userId).Some? &&
      row.orderCount == |OrdersOf(orders, row.userId)| >= 1 &&
      row.totalSpent == Revenue(OrdersOf(orders, row.userId)) == row.clv &&
      (forall o :: o in OrdersOf(orders, row.userId) ==> o.createAt.Some? && row.daysSinceFirstOrder >= today - DayOf(o.createAt.value)) &&
      (exists o :: o in OrdersOf(orders, row.userId) && o.createAt.Some? && row.daysSinceFirstOrder == today - DayOf(o.createAt.value))
    decreases |ids|
  {
    if |ids| > 0 {
      var init := ids[..|ids| - 1];
      var id := ids[|ids| - 1];
      ClvRowFigures(init, users, orders, today);
      var c := CustomerClv(users, orders, id, today);
      if c.value.Some? {
        var mine := OrdersOf(orders, id);
        var t := EarliestStamp(mine);
        forall o | o in mine
          ensures o.createAt.Some? && DayOf(t) <= DayOf(o.createAt.value)
        {
          var i :| 0 <= i < |mine| && mine[i] == o;
          DayOfMonotone(t, o.createAt.value);
        }
        var i :| 0 <= i < |mine| && mine[i].createAt.value == t;
        assert mine[i] in mine;
      }
    }
  }
}
