/**
 * Repeat customers (`AnalyticsController.getCustomerRetention`) and the
 * customer overview of `getCustomers`.
 *
 * Orders with a user are grouped by user id; a customer with more than one
 * order is a repeat customer, and customers are bucketed by their order
 * count, "1" to "5" or "5+".
 */
module CustomerRetention {
  import opened Seqs
  import opened Strings
  import opened Entities
  import opened UserGrowth
  import opened SalesTrends
  import opened Calendar

  /** The size of a user's group: that user's orders. */
  function OrderCountOf(orders: seq<Order>, id: int): nat
  {
    CountKey(Filter(orders, HasUser), UserIdOf, id)
  }

  /** Every listed customer has at least one order. */
  lemma CustomerHasOrders(orders: seq<Order>, id: int)
    requires id in CustomerKeys(orders)
    ensures OrderCountOf(orders, id) >= 1
  {
    var o :| o in orders && o.user == Some(id);
    var withUser := Filter(orders, HasUser);
    assert o in withUser;
    var i :| 0 <= i < |withUser| && withUser[i] == o;
  }

  /** The bucket of an order count: more than five is "5+", otherwise the count itself. */
  function BucketKey(orderCount: nat): (k: string)
    ensures orderCount > 5 <==> k == "5+"
    ensures orderCount <= 5 ==> k == NatToString(orderCount)
  {
    if orderCount > 5 then "5+" else NatToString(orderCount)
  }

  /** For customers, who have one order or more, the buckets are "1" to "5" and "5+". */
  lemma BucketKeysOfCustomers(n: nat)
    requires n >= 1
    ensures BucketKey(n) in ["1", "2", "3", "4", "5", "5+"]
  {
  }

  /** The group sizes in the grouping map's entry order: each customer's number of orders. */
  function GroupSizes(orders: seq<Order>): (sizes: seq<nat>)
    ensures |sizes| == |CustomerKeys(orders)|
    ensures forall i :: 0 <= i < |sizes| ==> sizes[i] == OrderCountOf(orders, CustomerKeys(orders)[i]) >= 1
  {
    var ids := CustomerKeys(orders);
    forall i | 0 <= i < |ids|
      ensures OrderCountOf(orders, ids[i]) >= 1
    {
      CustomerHasOrders(orders, ids[i]);
    }
    seq(|ids|, i requires 0 <= i < |ids| => OrderCountOf(orders, ids[i]))
  }

  predicate IsRepeatCount(orderCount: nat)
  {
    orderCount > 1
  }

  predicate IsOneTimeCount(orderCount: nat)
  {
    !(orderCount > 1)
  }

  /** The counters and the bucket map after visiting some groups. */
  datatype Tally = Tally(repeatCustomers: nat, oneTimeCustomers: nat, purchaseFrequency: map<string, nat>)

  /** The tally the loop over the groups builds, one group at a time. */
  function TallyOf(groupSizes: seq<nat>): Tally
    decreases |groupSizes|
  {
    if |groupSizes| == 0 then Tally(0, 0, map[])
    else
      var t := TallyOf(groupSizes[..|groupSizes| - 1]);
      var orderCount := groupSizes[|groupSizes| - 1];
      var key := BucketKey(orderCount);
      var previous := if key in t.purchaseFrequency then t.purchaseFrequency[key] else 0;
      Tally(if orderCount > 1 then t.repeatCustomers + 1 else t.repeatCustomers,
            if orderCount > 1 then t.oneTimeCustomers else t.oneTimeCustomers + 1,
            t.purchaseFrequency[key := previous + 1])
  }

  /** The tally counts the repeat customers (more than one order) and the one-time customers. */
  lemma {:induction false} TallyCounts(groupSizes: seq<nat>)
    ensures TallyOf(groupSizes).repeatCustomers == Count(groupSizes, IsRepeatCount)
    ensures TallyOf(groupSizes).oneTimeCustomers == Count(groupSizes, IsOneTimeCount)
    decreases |groupSizes|
  {
    if |groupSizes| > 0 {
      var i := |groupSizes| - 1;
      TallyCounts(groupSizes[..i]);
      assert Count(groupSizes, IsOneTimeCount) == Count(groupSizes[..i], IsOneTimeCount) + (if groupSizes[i] > 1 then 0 else 1);
    }
  }

  /** The tally maps each bucket that occurs, and no other, to its number of customers. */
  lemma {:induction false} TallyBuckets(groupSizes: seq<nat>)
    ensures Tallies(TallyOf(groupSizes).purchaseFrequency, groupSizes, BucketKey)
    decreases |groupSizes|
  {
    if |groupSizes| > 0 {
      var i := |groupSizes| - 1;
      TallyBuckets(groupSizes[..i]);
      assert groupSizes[..i + 1] == groupSizes;
      var m := TallyOf(groupSizes[..i]).purchaseFrequency;
      var key := BucketKey(groupSizes[i]);
      TallyStep(groupSizes, i, BucketKey, m, m[key := (if key in m then m[key] else 0) + 1]);
    }
  }

  /** The loop over the groups: each customer is repeat or one-time by its order count, and counted in its bucket. */
  method TallyCustomers(groupSizes: seq<nat>)
    returns (repeatCustomers: nat, oneTimeCustomers: nat, purchaseFrequency: map<string, nat>)
    ensures Tally(repeatCustomers, oneTimeCustomers, purchaseFrequency) == TallyOf(groupSizes)
    ensures repeatCustomers == Count(groupSizes, IsRepeatCount)
    ensures oneTimeCustomers == Count(groupSizes, IsOneTimeCount)
    ensures forall b :: b in purchaseFrequency <==> b in Keys(groupSizes, BucketKey)
    ensures forall b :: b in purchaseFrequency ==> purchaseFrequency[b] == CountKey(groupSizes, BucketKey, b) > 0
  {
    repeatCustomers := 0;
    oneTimeCustomers := 0;
    purchaseFrequency := map[];
    for i := 0 to |groupSizes|
      invariant Tally(repeatCustomers, oneTimeCustomers, purchaseFrequency) == TallyOf(groupSizes[..i])
    {
      assert groupSizes[..i + 1][..i] == groupSizes[..i];
      var orderCount := groupSizes[i];
      if orderCount > 1 {
        repeatCustomers := repeatCustomers + 1;
      } else {
        oneTimeCustomers := oneTimeCustomers + 1;
      }
      var key := if orderCount > 5 then "5+" else NatToString(orderCount);
      purchaseFrequency := purchaseFrequency[key := (if key in purchaseFrequency then purchaseFrequency[key] else 0) + 1];
    }
    assert groupSizes[..|groupSizes|] == groupSizes;
    TallyCounts(groupSizes);
    TallyBuckets(groupSizes);
    TallyKeys(groupSizes, BucketKey, purchaseFrequency);
  }

  datatype RetentionStats = RetentionStats(
    totalCustomers: nat,
    repeatCustomers: nat,
    oneTimeCustomers: nat,
    retentionRate: Ratio,
    avgOrdersPerCustomer: Ratio,
    purchaseFrequency: map<string, nat>)

  /**
   * `getCustomerRetention`: one pass over the groups, counting repeat and
   * one-time customers and bucketing each.  The average divides the number of
   * all orders, those without a user included, by the number of customers.
   */
  method GetCustomerRetention(orders: seq<Order>) returns (stats: RetentionStats)
    ensures var sizes := GroupSizes(orders);
      stats.totalCustomers == |CustomerKeys(orders)| &&
      stats.repeatCustomers == Count(sizes, IsRepeatCount) &&
      stats.oneTimeCustomers == Count(sizes, IsOneTimeCount) &&
      stats.retentionRate == Percent(stats.repeatCustomers, stats.totalCustomers) &&
      stats.avgOrdersPerCustomer == (if stats.totalCustomers > 0 then Ratio(|orders|, stats.totalCustomers) else Ratio(0, 1))
    ensures var sizes := GroupSizes(orders);
      (forall b :: b in stats.purchaseFrequency <==> b in Keys(sizes, BucketKey)) &&
      (forall b :: b in stats.purchaseFrequency ==> stats.purchaseFrequency[b] == CountKey(sizes, BucketKey, b))
  {
    var groupSizes := GroupSizes(orders);
    var totalCustomers := |groupSizes|;
    var repeatCustomers, oneTimeCustomers, purchaseFrequency := TallyCustomers(groupSizes);
    stats := RetentionStats(totalCustomers, repeatCustomers, oneTimeCustomers, Percent(repeatCustomers, totalCustomers),
      if totalCustomers > 0 then Ratio(|orders|, totalCustomers) else Ratio(0, 1), purchaseFrequency);
  }

  /**
   * Every customer is counted once: repeat plus one-time customers make the
   * total, and so do the bucket counts; every bucket is "1" to "5" or "5+",
   * and the orders counted in the groups are exactly the orders with a user.
   */
  lemma RetentionPartition(orders: seq<Order>)
    ensures var sizes := GroupSizes(orders);
      Count(sizes, IsRepeatCount) + Count(sizes, IsOneTimeCount) == |CustomerKeys(orders)| &&
      Sum(Keys(sizes, BucketKey), (b: string) => CountKey(sizes, BucketKey, b)) == |CustomerKeys(orders)|
    ensures forall b :: b in Keys(GroupSizes(orders), BucketKey) ==> b in ["1", "2", "3", "4", "5", "5+"]
  {
    var sizes := GroupSizes(orders);
    CountComplement(sizes, IsRepeatCount, IsOneTimeCount);
    CountKeysPartition(sizes, BucketKey);
    forall b | b in Keys(sizes, BucketKey)
      ensures b in ["1", "2", "3", "4", "5", "5+"]
    {
      var i :| 0 <= i < |sizes| && BucketKey(sizes[i]) == b;
      BucketKeysOfCustomers(sizes[i]);
    }
  }

  /** The users registered in [first, last]: `getCustomers`' new customers. */
  function NewCustomers(users: seq<User>, first: int, last: int): (r: seq<User>)
    ensures |r| == RegisteredBetween(users, first, last)
    ensures forall d :: NewUsersOn(r, d) == if first <= d <= last then NewUsersOn(users, d) else 0
    decreases |users|
  {
    if |users| == 0 then []
    else
      var init := NewCustomers(users[..|users| - 1], first, last);
      var u := users[|users| - 1];
      var r := if u.createAt.Some? && first <= DayOf(u.createAt.value) <= last then init + [u] else init;
      assert (init + [u])[..|init|] == init;
      r
  }

  datatype DailyNew = DailyNew(date: int, newCustomers: nat)

  datatype CustomersReport = CustomersReport(
    growthData: seq<DailyNew>,
    totalCustomers: nat,
    newCustomers: nat,
    repeatCustomers: nat,
    retentionRate: Ratio,
    timespan: int)

  /** The point of the i-th day from first: registrations that day, counted only when the day is in the range. */
  function DailyNewAt(users: seq<User>, first: int, last: int, i: int): DailyNew
  {
    var date := first + i;
    DailyNew(date, if first <= date <= last then NewUsersOn(users, date) else 0)
  }

  /** The daily loop: `timespan` days from the first day of the range, whatever the range's length. */
  method DailyNewCustomers(users: seq<User>, first: int, last: int, timespan: int) returns (growthData: seq<DailyNew>)
    ensures |growthData| == (if timespan > 0 then timespan else 0)
    ensures forall i :: 0 <= i < |growthData| ==> growthData[i] == DailyNewAt(users, first, last, i)
  {
    var newCustomers := NewCustomers(users, first, last);
    growthData := [];
    var n := if timespan > 0 then timespan else 0;
    for i := 0 to n
      invariant |growthData| == i
      invariant forall j :: 0 <= j < i ==> growthData[j] == DailyNewAt(users, first, last, j)
    {
      var date := first + i;
      growthData := growthData + [DailyNew(date, NewUsersOn(newCustomers, date))];
    }
  }

  /** `getCustomers`: the new customers of the range, all users as the total, and the repeat customers among those with orders. */
  method GetCustomers(users: seq<User>, orders: seq<Order>, timespan: int, startDay: Option<int>, endDay: Option<int>, today: int)
    returns (report: CustomersReport)
    ensures var range := ReportRange(startDay, endDay, today, timespan);
      report.newCustomers == RegisteredBetween(users, range.0, range.1) &&
      report.totalCustomers == |users| &&
      report.repeatCustomers == Count(GroupSizes(orders), IsRepeatCount) &&
      report.retentionRate == Percent(report.repeatCustomers, |users|) &&
      report.timespan == timespan &&
      |report.growthData| == (if timespan > 0 then timespan else 0) &&
      forall i :: 0 <= i < |report.growthData| ==> report.growthData[i] == DailyNewAt(users, range.0, range.1, i)
  {
    var range := ReportRange(startDay, endDay, today, timespan);
    var newCustomers := NewCustomers(users, range.0, range.1);
    var repeatCustomers := Count(GroupSizes(orders), IsRepeatCount);
    var growthData := DailyNewCustomers(users, range.0, range.1, timespan);
    report := CustomersReport(growthData, |users|, |newCustomers|, repeatCustomers, Percent(repeatCustomers, |users|), timespan);
  }

  function NewCount(p: DailyNew): int
  {
    p.newCustomers
  }

  lemma {:induction false} DailySum(users: seq<User>, first: int, last: int, n: nat)
    requires first + n - 1 <= last
    ensures Sum(seq(n, i => DailyNewAt(users, first, last, i)), NewCount) == NewUsersOver(users, Skeleton(first, n))
    decreases n
  {
    if n > 0 {
      var data := seq(n, i => DailyNewAt(users, first, last, i));
      assert data[..n - 1] == seq(n - 1, i => DailyNewAt(users, first, last, i));
      assert Skeleton(first, n)[..n - 1] == Skeleton(first, n - 1);
      DailySum(users, first, last, n - 1);
    }
  }

  /**
   * Without explicit dates the range runs from today − timespan to today, but
   * the daily series stops at yesterday: its counts add up to the new
   * customers less those registered today.
   */
  lemma DefaultSeriesMissesToday(users: seq<User>, orders: seq<Order>, timespan: int, today: int, report: CustomersReport)
    requires timespan >= 0
    requires var range := ReportRange(None, None, today, timespan);
      report.newCustomers == RegisteredBetween(users, range.0, range.1) &&
      |report.growthData| == timespan &&
      forall i :: 0 <= i < timespan ==> report.growthData[i] == DailyNewAt(users, range.0, range.1, i)
    ensures Sum(report.growthData, NewCount) + NewUsersOn(users, today) == report.newCustomers
  {
    var first := today - timespan;
    assert report.growthData == seq(timespan, i => DailyNewAt(users, first, today, i));
    DailySum(users, first, today, timespan);
    SkeletonSum(users, first, timespan);
    BetweenSplitLast(users, first, today);
  }
}
