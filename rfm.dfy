/**
 * RFM (recency, frequency, monetary) customer segmentation
 * (`AdvancedAnalyticsController.getRfmAnalysis`).
 *
 * For every registered user with at least one order: days since the latest
 * order, number of orders and total spent, each graded High/Medium/Low, and a
 * composite segment chosen by the first rule that matches.  The loop over the
 * user list is `AnalyzeRfm`; what it computes is the fold `RfmRows`.
 */
module RfmAnalysis {
  import opened Seqs
  import opened Entities
  import opened Calendar

  datatype Level = High | Medium | Low

  function LevelName(l: Level): string
  {
    match l
    case High => "High"
    case Medium => "Medium"
    case Low => "Low"
  }

  /** At most 30 days since the last order is High, at most 90 Medium, anything longer Low. */
  function RecencyLevel(recencyDays: int): (l: Level)
    ensures l == High <==> recencyDays <= 30
    ensures l == Medium <==> 30 < recencyDays <= 90
    ensures l == Low <==> recencyDays > 90
  {
    if recencyDays <= 30 then High else if recencyDays <= 90 then Medium else Low
  }

  /** Four or more orders is High, two or three Medium, fewer Low. */
  function FrequencyLevel(frequency: int): (l: Level)
    ensures l == High <==> frequency >= 4
    ensures l == Medium <==> 2 <= frequency < 4
    ensures l == Low <==> frequency < 2
  {
    if frequency >= 4 then High else if frequency >= 2 then Medium else Low
  }

  /** 2,000,000 or more spent is High, 500,000 or more Medium, less Low. */
  function MonetaryLevel(monetaryValue: int): (l: Level)
    ensures l == High <==> monetaryValue >= 2000000
    ensures l == Medium <==> 500000 <= monetaryValue < 2000000
    ensures l == Low <==> monetaryValue < 500000
  {
    if monetaryValue >= 2000000 then High else if monetaryValue >= 500000 then Medium else Low
  }

  datatype Segment = Vip | Loyal | Recent | BigSpender | AtRisk | Regular

  function SegmentName(s: Segment): string
  {
    match s
    case Vip => "VIP"
    case Loyal => "Loyal"
    case Recent => "Recent"
    case BigSpender => "Big Spender"
    case AtRisk => "At Risk"
    case Regular => "Regular"
  }

  /**
   * First match wins: VIP, Loyal, Recent, Big Spender, At Risk, Regular.
   * Each ensures below characterises one segment on its own; in particular a
   * recent customer who is not a frequent one is "Recent" whatever was spent.
   */
  function SegmentOf(r: Level, f: Level, m: Level): (s: Segment)
    ensures s == Vip <==> r == High && f == High && m == High
    ensures s == Loyal <==> r == High && f == High && m != High
    ensures s == Recent <==> r == High && f != High
    ensures s == BigSpender <==> r != High && f == High && m == High
    ensures s == AtRisk <==> r == Low && f == Low
    ensures s == Regular <==> r != High && !(f == High && m == High) && !(r == Low && f == Low)
  {
    if r == High && f == High && m == High then Vip
    else if r == High && f == High then Loyal
    else if r == High then Recent
    else if f == High && m == High then BigSpender
    else if r == Low && f == Low then AtRisk
    else Regular
  }

  lemma SegmentNameInjective(a: Segment, b: Segment)
    ensures SegmentName(a) == SegmentName(b) <==> a == b
  {
  }

  datatype RfmRow = RfmRow(
    userId: int,
    username: string,
    email: string,
    recencyDays: int,
    frequency: nat,
    monetaryValue: int,
    recency: Level,
    frequencyLevel: Level,
    monetary: Level,
    segment: Segment)

  datatype RfmReport = RfmReport(customers: seq<RfmRow>, segmentCounts: map<string, nat>)

  /** The newest timestamp: the head of the list after sorting it newest first. */
  function LatestStamp(os: seq<Order>): (t: int)
    requires |os| > 0 && AllStamped(os)
    ensures forall i :: 0 <= i < |os| ==> os[i].createAt.value <= t
    ensures exists i :: 0 <= i < |os| && os[i].createAt.value == t
    decreases |os|
  {
    var last := os[|os| - 1].createAt.value;
    if |os| == 1 then last
    else
      var init := os[..|os| - 1];
      assert forall i :: 0 <= i < |init| ==> init[i] == os[i];
      var m := LatestStamp(init);
      if m < last then last else m
  }

  /** The row of one user, none for a user without orders, or the exception a missing order date raises. */
  function CustomerRow(user: User, orders: seq<Order>, today: int): Result<Option<RfmRow>>
  {
    var mine := OrdersOf(orders, user.id);
    if |mine| == 0 then Success(None)
    else if !AllStamped(mine) then Failure("NullPointerException")
    else
      var recencyDays := today - DayOf(LatestStamp(mine));
      var frequency := |mine|;
      var monetaryValue := Revenue(mine);
      var r := RecencyLevel(recencyDays);
      var f := FrequencyLevel(frequency);
      var m := MonetaryLevel(monetaryValue);
      Success(Some(RfmRow(user.id, user.username, user.email, recencyDays, frequency, monetaryValue,
                          r, f, m, SegmentOf(r, f, m))))
  }

  /** The rows the loop over the user list produces, in user-list order. */
  function RfmRows(users: seq<User>, orders: seq<Order>, today: int): Result<seq<RfmRow>>
    decreases |users|
  {
    if |users| == 0 then Success([])
    else
      match RfmRows(users[..|users| - 1], orders, today)
      case Failure(e) => Failure(e)
      case Success(rows) =>
        match CustomerRow(users[|users| - 1], orders, today)
        case Failure(e) => Failure(e)
        case Success(None) => Success(rows)
        case Success(Some(row)) => Success(rows + [row])
  }

  function SegmentKey(row: RfmRow): string
  {
    SegmentName(row.segment)
  }

  /** `groupingBy(segment, counting())`. */
  function SegmentCounts(rows: seq<RfmRow>): (counts: map<string, nat>)
    ensures forall k :: k in counts <==> exists i :: 0 <= i < |rows| && SegmentKey(rows[i]) == k
    ensures forall k :: k in counts ==> counts[k] == CountKey(rows, SegmentKey, k) && counts[k] > 0
  {
    map k | k in Keys(rows, SegmentKey) :: CountKey(rows, SegmentKey, k)
  }

  /** The segment counts add up to the number of rows. */
  lemma SegmentCountsTotal(rows: seq<RfmRow>)
    ensures Sum(Keys(rows, SegmentKey), (k: string) => CountKey(rows, SegmentKey, k)) == |rows|
    ensures forall k :: k in Keys(rows, SegmentKey) <==> k in SegmentCounts(rows)
  {
    CountKeysPartition(rows, SegmentKey);
  }

  predicate HasOrders(orders: seq<Order>, u: User)
  {
    exists i :: 0 <= i < |orders| && orders[i].user == Some(u.id)
  }

  /** The report fails exactly when some order of a listed user has no date. */
  lemma {:induction false} RfmRowsSucceed(users: seq<User>, orders: seq<Order>, today: int)
    ensures RfmRows(users, orders, today).Success? <==>
      forall u, i :: u in users && 0 <= i < |orders| && orders[i].user == Some(u.id) ==> orders[i].createAt.Some?
    decreases |users|
  {
    if |users| > 0 {
      var init := users[..|users| - 1];
      var u := users[|users| - 1];
      RfmRowsSucceed(init, orders, today);
      assert users == init + [u];
      var mine := OrdersOf(orders, u.id);
      if !AllStamped(mine) {
        var j :| 0 <= j < |mine| && mine[j].createAt.None?;
        assert mine[j] in orders;
      } else {
        forall i | 0 <= i < |orders| && orders[i].user == Some(u.id)
          ensures orders[i].createAt.Some?
        {
          assert orders[i] in mine;
        }
      }
    }
  }

  /** A user gets a row exactly when it has an order. */
  lemma CustomerRowPresent(user: User, orders: seq<Order>, today: int)
    requires CustomerRow(user, orders, today).Success?
    ensures CustomerRow(user, orders, today).value.Some? <==> HasOrders(orders, user)
    ensures CustomerRow(user, orders, today).value.Some? ==>
      CustomerRow(user, orders, today).value.value.userId == user.id &&
      CustomerRow(user, orders, today).value.value.frequency >= 1
  {
    var mine := OrdersOf(orders, user.id);
    if |mine| > 0 {
      assert mine[0] in orders;
    }
  }

  /**
   * One row per user with at least one order, and no row for any other user:
   * the number of rows is the number of listed users who have orders.
   */
  lemma {:induction false} RfmRowsOnePerCustomer(users: seq<User>, orders: seq<Order>, today: int)
    requires RfmRows(users, orders, today).Success?
    ensures |RfmRows(users, orders, today).value| == Count(users, (u: User) => HasOrders(orders, u))
    ensures forall r :: r in RfmRows(users, orders, today).value ==>
      r.frequency >= 1 && exists u :: u in users && u.id == r.userId && HasOrders(orders, u)
    decreases |users|
  {
    if |users| > 0 {
      var init := users[..|users| - 1];
      var u := users[|users| - 1];
      var p := (v: User) => HasOrders(orders, v);
      assert RfmRows(init, orders, today).Success?;
      RfmRowsOnePerCustomer(init, orders, today);
      assert Count(users, p) == Count(init, p) + (if p(u) then 1 else 0);
      CustomerRowPresent(u, orders, today);
      forall v | v in init
        ensures v in users
      {
      }
    }
  }

  /** A row's figures are the user's order count, total spent and days since the newest order. */
  lemma RowFigures(user: User, orders: seq<Order>, today: int)
    requires CustomerRow(user, orders, today).Success?
    requires CustomerRow(user, orders, today).value.Some?
    ensures var row := CustomerRow(user, orders, today).value.value;
      var mine := OrdersOf(orders, user.id);
      row.userId == user.id && row.frequency == |mine| >= 1 &&
      row.monetaryValue == Revenue(mine) &&
      (forall o :: o in mine ==> row.recencyDays <= today - DayOf(o.createAt.value)) &&
      (exists o :: o in mine && row.recencyDays == today - DayOf(o.createAt.value))
  {
    var mine := OrdersOf(orders, user.id);
    var t := LatestStamp(mine);
    forall o | o in mine
      ensures DayOf(o.createAt.value) <= DayOf(t)
    {
      var i :| 0 <= i < |mine| && mine[i] == o;
      DayOfMonotone(o.createAt.value, t);
    }
    var i :| 0 <= i < |mine| && mine[i].createAt.value == t;
    assert mine[i] in mine;
  }

  lemma {:induction false} RfmFailureSticks(users: seq<User>, k: nat, orders: seq<Order>, today: int)
    requires k <= |users|
    requires RfmRows(users[..k], orders, today).Failure?
    ensures RfmRows(users, orders, today).Failure?
    decreases |users|
  {
    if k < |users| {
      var init := users[..|users| - 1];
      assert init[..k] == users[..k];
      RfmFailureSticks(init, k, orders, today);
    } else {
      assert users[..k] == users;
    }
  }

  /** The loop of `getRfmAnalysis`: one pass over the users, then the segment counts. */
  method AnalyzeRfm(users: seq<User>, orders: seq<Order>, today: int) returns (r: Result<RfmReport>)
    ensures r.Failure? <==> RfmRows(users, orders, today).Failure?
    ensures r.Success? ==> r.value.customers == RfmRows(users, orders, today).value
    ensures r.Success? ==> r.value.segmentCounts == SegmentCounts(r.value.customers)
  {
    var rows: seq<RfmRow> := [];
    for i := 0 to |users|
      invariant RfmRows(users[..i], orders, today) == Success(rows)
    {
      assert users[..i + 1][..i] == users[..i];
      var c := CustomerRow(users[i], orders, today);
      if c.Failure? {
        RfmFailureSticks(users, i + 1, orders, today);
        return Failure(c.error);
      }
      if c.value.Some? {
        rows := rows + [c.value.value];
      }
    }
    assert users[..|users|] == users;
    r := Success(RfmReport(rows, SegmentCounts(rows)));
  }
}
