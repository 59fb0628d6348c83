/**
 * The order endpoints with rules of their own: cancelling an order, the
 * sort options of the admin order list, and the status-update endpoint with
 * the activity type it logs.
 *
 * A reply is its HTTP status code and message.  The cancel endpoint writes
 * through the order repository itself; the status endpoint goes through the
 * order service.
 */
module OrderController {
  import opened Seqs
  import opened Strings
  import opened Entities
  import opened OrderService
  import TimeAgo

  /** An HTTP reply: the status code and the message body. */
  datatype Reply = Reply(code: int, message: string)

  /**
   * `cancelOrder`: only a "PENDING" order is cancelled, to "CANCELLED"; any
   * other status (a missing one included) is a bad request, and an unknown
   * id is not found.  The reply and the orders afterwards.
   */
  function CancelSpec(orders: seq<Order>, id: int): (r: (Reply, seq<Order>))
    ensures r.0.code == 404 <==> OrderIndex(orders, id) < 0
    ensures r.0.code == 200 <==> OrderIndex(orders, id) >= 0 && orders[OrderIndex(orders, id)].status == Some("PENDING")
    ensures r.0.code == 400 <==> OrderIndex(orders, id) >= 0 && orders[OrderIndex(orders, id)].status != Some("PENDING")
    ensures r.0.code != 200 ==> r.1 == orders
    ensures r.0.code == 200 ==> StatusUpdated(orders, id, "CANCELLED") == Success(r.1)
  {
    var k := OrderIndex(orders, id);
    if k < 0 then (Reply(404, ""), orders)
    else if orders[k].status == Some("PENDING") then
      (Reply(200, "Order cancelled successfully"), orders[k := orders[k].(status := Some("CANCELLED"))])
    else (Reply(400, "Cannot cancel order that is not in PENDING state"), orders)
  }

  /** A cancelled order cannot be cancelled again: the second call is a bad request and changes nothing. */
  lemma CancelOnce(orders: seq<Order>, id: int)
    requires CancelSpec(orders, id).0.code == 200
    ensures var after := CancelSpec(orders, id).1;
      && OrderIndex(after, id) == OrderIndex(orders, id)
      && after[OrderIndex(after, id)].status == Some("CANCELLED")
      && CancelSpec(after, id) == (Reply(400, "Cannot cancel order that is not in PENDING state"), after)
  {
    var k := OrderIndex(orders, id);
    var after := CancelSpec(orders, id).1;
    assert forall j :: 0 <= j < k ==> after[j] == orders[j];
  }

  /** The status service has no such rule: a cancelled order can be set back to "PENDING" and cancelled again. */
  lemma CancelAfterReopen(orders: seq<Order>, id: int)
    requires CancelSpec(orders, id).0.code == 200
    ensures var reopened := StatusUpdated(CancelSpec(orders, id).1, id, "PENDING");
      reopened.Success? && CancelSpec(reopened.value, id).0.code == 200
  {
    var k := OrderIndex(orders, id);
    var after := CancelSpec(orders, id).1;
    assert forall j :: 0 <= j < k ==> after[j] == orders[j];
    assert OrderIndex(after, id) == k;
    var reopened := StatusUpdated(after, id, "PENDING").value;
    assert forall j :: 0 <= j < k ==> reopened[j] == orders[j];
    assert OrderIndex(reopened, id) == k;
  }

  /** `cancelOrder` on the store: the controller saves through the order repository. */
  method CancelOrder(store: OrderStore, id: int) returns (reply: Reply)
    modifies store
    ensures (reply, store.orders) == CancelSpec(old(store.orders), id)
    ensures store.users == old(store.users) && store.products == old(store.products)
    ensures store.details == old(store.details)
    ensures store.nextOrderId == old(store.nextOrderId) && store.nextDetailId == old(store.nextDetailId)
  {
    var k := OrderIndex(store.orders, id);
    if k < 0 {
      return Reply(404, "");
    }
    if store.orders[k].status == Some("PENDING") {
      store.orders := store.orders[k := store.orders[k].(status := Some("CANCELLED"))];
      reply := Reply(200, "Order cancelled successfully");
    } else {
      reply := Reply(400, "Cannot cancel order that is not in PENDING state");
    }
  }

  /** The `sortBy` options of the order list; any other value sorts as "newest". */
  datatype SortKey = Newest | Oldest | HighestPrice | LowestPrice

  function SortKeyOf(sortBy: string): (key: SortKey)
    ensures key == Oldest <==> sortBy == "oldest"
    ensures key == HighestPrice <==> sortBy == "highest_price"
    ensures key == LowestPrice <==> sortBy == "lowest_price"
  {
    if sortBy == "oldest" then Oldest
    else if sortBy == "highest_price" then HighestPrice
    else if sortBy == "lowest_price" then LowestPrice
    else Newest
  }

  /** The creation time a date comparator reads; a missing one never reaches a comparison (see SortOrders). */
  function Stamp(o: Order): int
  {
    if o.createAt.Some? then o.createAt.value else 0
  }

  predicate NewestFirst(a: Order, b: Order)
  {
    Stamp(a) >= Stamp(b)
  }

  predicate OldestFirst(a: Order, b: Order)
  {
    Stamp(a) <= Stamp(b)
  }

  predicate PriceDesc(a: Order, b: Order)
  {
    a.totalPrice >= b.totalPrice
  }

  predicate PriceAsc(a: Order, b: Order)
  {
    a.totalPrice <= b.totalPrice
  }

  function Comparator(key: SortKey): (Order, Order) -> bool
  {
    match key
    case Newest => NewestFirst
    case Oldest => OldestFirst
    case HighestPrice => PriceDesc
    case LowestPrice => PriceAsc
  }

  lemma ComparatorTotal(key: SortKey)
    ensures TotalPreorder(Comparator(key))
  {
  }

  predicate ByDate(key: SortKey)
  {
    key == Newest || key == Oldest
  }

  /** Some order has no creation time. */
  predicate SomeUnstamped(os: seq<Order>)
  {
    exists o :: o in os && o.createAt.None?
  }

  /**
   * The switch over `sortBy`, then the sort.  A date comparator dereferences
   * both creation times, and a sort of two or more elements compares every
   * element at least once, so one missing creation time then throws a
   * NullPointerException; a sort of fewer than two elements compares nothing.
   */
  function SortOrders(orders: seq<Order>, sortBy: string): (r: Result<seq<Order>>)
    ensures r.Failure? <==> ByDate(SortKeyOf(sortBy)) && |orders| >= 2 && SomeUnstamped(orders)
    ensures r.Success? ==> SortedBy(r.value, Comparator(SortKeyOf(sortBy)))
    ensures r.Success? ==> multiset(r.value) == multiset(orders)
  {
    var key := SortKeyOf(sortBy);
    if ByDate(key) && |orders| >= 2 && SomeUnstamped(orders) then Failure("NullPointerException")
    else
      ComparatorTotal(key);
      Success(SortBy(orders, Comparator(key)))
  }

  predicate IdDesc(a: Order, b: Order)
  {
    a.id >= b.id
  }

  /**
   * `getAllOrders`: the service lists the orders by id, highest first, and
   * the controller then sorts that list by the chosen option.
   */
  function GetAllOrders(orders: seq<Order>, sortBy: string): (r: Result<seq<Order>>)
    ensures r.Failure? <==> ByDate(SortKeyOf(sortBy)) && |orders| >= 2 && SomeUnstamped(orders)
    ensures r.Success? ==> SortedBy(r.value, Comparator(SortKeyOf(sortBy)))
    ensures r.Success? ==> multiset(r.value) == multiset(orders)
  {
    assert TotalPreorder(IdDesc);
    var listed := SortBy(orders, IdDesc);
    assert forall o :: o in listed <==> o in orders by {
      forall o
        ensures o in listed <==> o in orders
      {
        assert o in listed <==> o in multiset(listed);
        assert o in orders <==> o in multiset(orders);
      }
    }
    SortOrders(listed, sortBy)
  }

  /** Any value other than the four options lists the orders as "newest" does. */
  lemma UnknownSortIsNewest(orders: seq<Order>, sortBy: string)
    requires sortBy != "oldest" && sortBy != "highest_price" && sortBy != "lowest_price"
    ensures GetAllOrders(orders, sortBy) == GetAllOrders(orders, "newest")
  {
  }

  /** A date sort that succeeds lists only orders with a creation time, when it lists two or more. */
  lemma DateSortStamped(orders: seq<Order>, sortBy: string)
    requires ByDate(SortKeyOf(sortBy))
    requires GetAllOrders(orders, sortBy).Success?
    ensures var r := GetAllOrders(orders, sortBy).value;
      |r| == |orders| && (|r| >= 2 ==> forall i :: 0 <= i < |r| ==> r[i].createAt.Some?)
  {
    var r := GetAllOrders(orders, sortBy).value;
    assert |r| == |multiset(r)| == |multiset(orders)| == |orders|;
    forall i | 0 <= i < |r|
      ensures |r| >= 2 ==> r[i].createAt.Some?
    {
      assert r[i] in multiset(orders);
      assert r[i] in orders;
    }
  }

  /** "newest" lists the creation times in descending order. */
  lemma NewestSortOrder(orders: seq<Order>)
    requires GetAllOrders(orders, "newest").Success?
    ensures var r := GetAllOrders(orders, "newest").value;
      forall i, j :: 0 <= i < j < |r| ==>
        r[i].createAt.Some? && r[j].createAt.Some? && r[i].createAt.value >= r[j].createAt.value
  {
    DateSortStamped(orders, "newest");
    var r := GetAllOrders(orders, "newest").value;
    assert SortedBy(r, NewestFirst);
  }

  /** "oldest" lists the creation times in ascending order. */
  lemma OldestSortOrder(orders: seq<Order>)
    requires GetAllOrders(orders, "oldest").Success?
    ensures var r := GetAllOrders(orders, "oldest").value;
      forall i, j :: 0 <= i < j < |r| ==>
        r[i].createAt.Some? && r[j].createAt.Some? && r[i].createAt.value <= r[j].createAt.value
  {
    DateSortStamped(orders, "oldest");
    var r := GetAllOrders(orders, "oldest").value;
    assert SortedBy(r, OldestFirst);
  }

  /** The price options never fail, whatever the creation times. */
  lemma PriceSortTotal(orders: seq<Order>)
    ensures GetAllOrders(orders, "highest_price").Success?
    ensures GetAllOrders(orders, "lowest_price").Success?
    ensures var r := GetAllOrders(orders, "highest_price").value;
      forall i, j :: 0 <= i < j < |r| ==> r[i].totalPrice >= r[j].totalPrice
  {
  }

  /**
   * The activity a status update logs: ORDER_COMPLETED when the new status
   * upper-cases to "COMPLETED", ORDER_UPDATED for every other status.
   */
  function StatusActivity(status: string): (t: TimeAgo.ActivityType)
    ensures t == TimeAgo.OrderCompleted <==>
      |status| == 9 && forall i :: 0 <= i < 9 ==> UpperChar(status[i]) == "COMPLETED"[i]
    ensures t == TimeAgo.OrderUpdated <==> t != TimeAgo.OrderCompleted
  {
    if Upper(status) == "COMPLETED" then TimeAgo.OrderCompleted else TimeAgo.OrderUpdated
  }

  /** The comparison ignores case, and even "CANCELLED" is logged as an update. */
  lemma StatusActivityExamples()
    ensures StatusActivity("completed") == TimeAgo.OrderCompleted
    ensures StatusActivity("Completed") == TimeAgo.OrderCompleted
    ensures StatusActivity("COMPLETED") == TimeAgo.OrderCompleted
    ensures StatusActivity("PROCESSING") == TimeAgo.OrderUpdated
    ensures StatusActivity("SHIPPING") == TimeAgo.OrderUpdated
    ensures StatusActivity("CANCELLED") == TimeAgo.OrderUpdated
    ensures StatusActivity(" COMPLETED") == TimeAgo.OrderUpdated
  {
    assert Upper("completed") == "COMPLETED";
    assert Upper("Completed") == "COMPLETED";
    assert Upper("COMPLETED") == "COMPLETED";
    assert UpperChar("PROCESSING"[0]) != "COMPLETED"[0];
    assert UpperChar("SHIPPING"[0]) != "COMPLETED"[0];
    assert UpperChar("CANCELLED"[1]) != "COMPLETED"[1];
  }

  /** What the status endpoint answers: the updated order and the logged activity, or an error reply. */
  datatype StatusReply = Updated(order: Order, activity: TimeAgo.ActivityType) | Rejected(reply: Reply)

  /**
   * `updateOrderStatus` endpoint: no "status" in the payload is a bad request;
   * a failure of the service, an unknown id included, is caught and answered
   * with status 500.  The reply and the orders afterwards.
   */
  function StatusEndpointSpec(orders: seq<Order>, id: int, payload: map<string, string>): (StatusReply, seq<Order>)
  {
    if "status" !in payload then (Rejected(Reply(400, "Status is required")), orders)
    else
      var status := payload["status"];
      match StatusUpdated(orders, id, status)
      case Failure(e) => (Rejected(Reply(500, "Error updating order status: " + e)), orders)
      case Success(next) => (Updated(next[OrderIndex(orders, id)], StatusActivity(status)), next)
  }

  /**
   * The endpoint rejects exactly a missing status (400) and an unknown id
   * (500, not 404), and changes nothing then; otherwise it stores the given
   * status, whatever it is, and logs the activity StatusActivity chooses.
   */
  lemma StatusEndpointOutcomes(orders: seq<Order>, id: int, payload: map<string, string>)
    ensures var (reply, after) := StatusEndpointSpec(orders, id, payload);
      && ("status" !in payload ==> reply == Rejected(Reply(400, "Status is required")))
      && ("status" in payload && OrderIndex(orders, id) < 0 ==>
            reply == Rejected(Reply(500, "Error updating order status: " + OrderNotFound(id))))
      && (reply.Rejected? ==> after == orders)
      && (reply.Updated? <==> "status" in payload && OrderIndex(orders, id) >= 0)
      && (reply.Updated? ==>
            && reply.order.id == id
            && reply.order.status == Some(payload["status"])
            && reply.activity == StatusActivity(payload["status"])
            && Success(after) == StatusUpdated(orders, id, payload["status"]))
  {
  }

  /** The status endpoint on the store: the controller calls the service. */
  method UpdateOrderStatus(store: OrderStore, id: int, payload: map<string, string>) returns (r: StatusReply)
    modifies store
    ensures (r, store.orders) == StatusEndpointSpec(old(store.orders), id, payload)
    ensures store.users == old(store.users) && store.products == old(store.products)
    ensures store.details == old(store.details)
    ensures store.nextOrderId == old(store.nextOrderId) && store.nextDetailId == old(store.nextDetailId)
  {
    if "status" !in payload {
      return Rejected(Reply(400, "Status is required"));
    }
    var status := payload["status"];
    var updated := store.UpdateOrderStatus(id, status);
    if updated.Failure? {
      return Rejected(Reply(500, "Error updating order status: " + updated.error));
    }
    r := Updated(updated.value, StatusActivity(status));
  }
}
