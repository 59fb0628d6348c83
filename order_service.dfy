/**
 * The order service: placing an order, re-linking unlinked order lines to
 * products by name, and setting an order's status.
 *
 * The repositories the service writes through are the sequences of an
 * `OrderStore`.  Each service call runs in one transaction, so a call that
 * throws `NotFoundException` leaves the store as it was; identity columns
 * are the store's next-id counters.  Every method is proved against a pure
 * function of the old state, and the lemmas below are about those functions.
 */
module OrderService {
  import opened Seqs
  import opened Strings
  import opened Entities

  /** One line of a `CreateOrderRequest`: what the client sends per cart item. */
  datatype DetailRequest = DetailRequest(name: Option<string>, price: int, quantity: int, productId: Option<int>)

  /**
   * A `CreateOrderRequest`.  The address and contact fields are copied onto
   * the order unchanged and are not modelled; `totalPrice` is what the client
   * claims the order costs.
   */
  datatype OrderRequest = OrderRequest(username: string, orderDetails: seq<DetailRequest>, totalPrice: int)

  /** A placed order and the lines saved with it. */
  datatype Placement = Placement(order: Order, lines: seq<OrderDetail>)

  function UserNotFound(username: string): string
  {
    "Not Found User With Username:" + username
  }

  function ProductNotFound(id: int): string
  {
    "Not Found Product With Id: " + IntToString(id)
  }

  function OrderNotFound(id: int): string
  {
    "Not Found Order With Id: " + IntToString(id)
  }

  /** `userRepository.findByUsername`. */
  function FindUserByName(users: seq<User>, username: string): (r: Option<User>)
    ensures r.Some? ==> r.value in users && r.value.username == username
    ensures r.None? <==> forall u :: u in users ==> u.username != username
  {
    FindFirst(users, (u: User) => u.username == username)
  }

  /** `productRepository.findById`. */
  function FindProduct(products: seq<Product>, id: int): (r: Option<Product>)
    ensures r.Some? ==> r.value in products && r.value.id == id
    ensures r.None? <==> forall p :: p in products ==> p.id != id
  {
    FindFirst(products, (p: Product) => p.id == id)
  }

  /** `rq.getPrice() * rq.getQuantity()`. */
  function RequestSubTotal(rq: DetailRequest): int
  {
    rq.price * rq.quantity
  }

  /** A request line naming a product id that no product has. */
  predicate Unresolved(products: seq<Product>, rq: DetailRequest)
  {
    rq.productId.Some? && FindProduct(products, rq.productId.value).None?
  }

  /** The line built from a request line, before it is saved. */
  function Draft(rq: DetailRequest, product: Option<Product>): OrderDetail
  {
    OrderDetail(0, rq.name, rq.price, rq.quantity, None, product, rq.price * rq.quantity)
  }

  /** A built line carries the request line's fields and, for a product id, that product. */
  predicate Copies(products: seq<Product>, d: OrderDetail, rq: DetailRequest)
  {
    d.name == rq.name && d.price == rq.price && d.quantity == rq.quantity &&
    d.subTotal == RequestSubTotal(rq) &&
    (rq.productId.None? ==> d.product.None?) &&
    (rq.productId.Some? ==> d.product == FindProduct(products, rq.productId.value))
  }

  /**
   * The loop over the request lines: the built lines in request order, or
   * the NotFound of the first line whose product id is unknown.
   */
  function Drafts(products: seq<Product>, rqs: seq<DetailRequest>): (r: Result<seq<OrderDetail>>)
    ensures r.Failure? <==> exists k :: 0 <= k < |rqs| && Unresolved(products, rqs[k])
    ensures r.Success? ==> |r.value| == |rqs| && LinesTotal(r.value) == Sum(rqs, RequestSubTotal)
    decreases |rqs|
  {
    if |rqs| == 0 then Success([])
    else
      var init := rqs[..|rqs| - 1];
      var rq := rqs[|rqs| - 1];
      assert forall k :: 0 <= k < |init| ==> init[k] == rqs[k];
      match Drafts(products, init)
      case Failure(e) => Failure(e)
      case Success(ds) =>
        if rq.productId.None? then
          var d := Draft(rq, None);
          assert (ds + [d])[..|ds|] == ds;
          Success(ds + [d])
        else
          match FindProduct(products, rq.productId.value)
          case None => Failure(ProductNotFound(rq.productId.value))
          case Some(p) =>
            var d := Draft(rq, Some(p));
            assert (ds + [d])[..|ds|] == ds;
            Success(ds + [d])
  }

  /** Each built line copies its request line and links the product that line names. */
  lemma {:induction false} DraftsCopy(products: seq<Product>, rqs: seq<DetailRequest>)
    requires Drafts(products, rqs).Success?
    ensures forall k :: 0 <= k < |rqs| ==> Copies(products, Drafts(products, rqs).value[k], rqs[k])
    decreases |rqs|
  {
    if |rqs| > 0 {
      var init := rqs[..|rqs| - 1];
      assert forall k :: 0 <= k < |init| ==> init[k] == rqs[k];
      DraftsCopy(products, init);
    }
  }

  /** The NotFound names the first request line whose product id is unknown. */
  lemma {:induction false} DraftsFirstFailure(products: seq<Product>, rqs: seq<DetailRequest>, k: int)
    requires 0 <= k < |rqs| && Unresolved(products, rqs[k])
    requires forall j :: 0 <= j < k ==> !Unresolved(products, rqs[j])
    ensures Drafts(products, rqs) == Failure(ProductNotFound(rqs[k].productId.value))
    decreases |rqs|
  {
    var init := rqs[..|rqs| - 1];
    var rq := rqs[|rqs| - 1];
    if k < |rqs| - 1 {
      assert init[k] == rqs[k];
      assert forall j :: 0 <= j < k ==> init[j] == rqs[j];
      DraftsFirstFailure(products, init, k);
      assert Drafts(products, rqs) == Drafts(products, init);
    } else {
      assert forall j :: 0 <= j < |init| ==> !Unresolved(products, init[j]);
      assert Drafts(products, init).Success?;
      assert FindProduct(products, rq.productId.value).None?;
    }
  }

  /** The saved lines: consecutive ids from the identity counter, each linked to the order. */
  function Saved(drafts: seq<OrderDetail>, order: Order, firstId: int): seq<OrderDetail>
  {
    seq(|drafts|, k requires 0 <= k < |drafts| => drafts[k].(id := firstId + k, order := Some(order)))
  }

  /**
   * `placeOrder`: the user is looked up first, then every request line in
   * order; the order is saved as "PENDING" with the sum of the line subtotals
   * as its total and the creation time `now` (`@PrePersist`).
   */
  function PlaceOrderSpec(users: seq<User>, products: seq<Product>, orderId: int, detailId: int,
                          req: OrderRequest, now: int): Result<Placement>
  {
    match FindUserByName(users, req.username)
    case None => Failure(UserNotFound(req.username))
    case Some(u) =>
      match Drafts(products, req.orderDetails)
      case Failure(e) => Failure(e)
      case Success(ds) =>
        var order := Order(orderId, Some(u.id), LinesTotal(ds), Some("PENDING"), Some(now));
        Success(Placement(order, Saved(ds, order, detailId)))
  }

  /** Saving does not touch prices or quantities, so the saved lines add up like the built ones. */
  lemma {:induction false} SavedTotal(drafts: seq<OrderDetail>, order: Order, firstId: int)
    ensures LinesTotal(Saved(drafts, order, firstId)) == LinesTotal(drafts)
    decreases |drafts|
  {
    if |drafts| > 0 {
      var init := drafts[..|drafts| - 1];
      assert Saved(drafts, order, firstId)[..|drafts| - 1] == Saved(init, order, firstId);
      SavedTotal(init, order, firstId);
    }
  }

  /**
   * A placed order is "PENDING", belongs to the named user, and its total is
   * the sum of price times quantity over the request lines; every saved line
   * copies its request line, has subTotal = price * quantity and points at
   * the order.
   */
  lemma PlacedOrder(users: seq<User>, products: seq<Product>, orderId: int, detailId: int, req: OrderRequest, now: int)
    requires PlaceOrderSpec(users, products, orderId, detailId, req, now).Success?
    ensures var p := PlaceOrderSpec(users, products, orderId, detailId, req, now).value;
      && p.order.status == Some("PENDING")
      && p.order.createAt == Some(now)
      && p.order.id == orderId
      && FindUserByName(users, req.username).Some?
      && p.order.user == Some(FindUserByName(users, req.username).value.id)
      && p.order.totalPrice == Sum(req.orderDetails, RequestSubTotal)
      && p.order.totalPrice == LinesTotal(p.lines)
      && |p.lines| == |req.orderDetails|
      && forall k :: 0 <= k < |p.lines| ==>
        Copies(products, p.lines[k], req.orderDetails[k]) &&
        p.lines[k].id == detailId + k && p.lines[k].order == Some(p.order)
  {
    var ds := Drafts(products, req.orderDetails).value;
    var p := PlaceOrderSpec(users, products, orderId, detailId, req, now).value;
    DraftsCopy(products, req.orderDetails);
    SavedTotal(ds, p.order, detailId);
  }

  /** placeOrder fails exactly on an unknown username or an unknown product id, the username first. */
  lemma PlaceOrderFailure(users: seq<User>, products: seq<Product>, orderId: int, detailId: int, req: OrderRequest, now: int)
    ensures var r := PlaceOrderSpec(users, products, orderId, detailId, req, now);
      r.Failure? <==>
        FindUserByName(users, req.username).None? ||
        exists k :: 0 <= k < |req.orderDetails| && Unresolved(products, req.orderDetails[k])
    ensures FindUserByName(users, req.username).None? ==>
      PlaceOrderSpec(users, products, orderId, detailId, req, now) == Failure(UserNotFound(req.username))
  {
  }

  /** The total the client sends has no effect on what is placed. */
  lemma ClientTotalIgnored(users: seq<User>, products: seq<Product>, orderId: int, detailId: int,
                           req: OrderRequest, now: int, claimed: int)
    ensures PlaceOrderSpec(users, products, orderId, detailId, req.(totalPrice := claimed), now) ==
            PlaceOrderSpec(users, products, orderId, detailId, req, now)
  {
  }

  /** A line the re-link job picks up: no product, and a non-empty name. */
  predicate Unlinked(d: OrderDetail)
  {
    d.product.None? && d.name.Some? && |d.name.value| > 0
  }

  /** An unlinked line whose name the product search matches. */
  predicate Relinkable(search: string -> seq<Product>, d: OrderDetail)
  {
    Unlinked(d) && |search(d.name.value)| > 0
  }

  /** The number of relinkable lines. */
  function RelinkCount(search: string -> seq<Product>, ds: seq<OrderDetail>): nat
    decreases |ds|
  {
    if |ds| == 0 then 0
    else RelinkCount(search, ds[..|ds| - 1]) + (if Relinkable(search, ds[|ds| - 1]) then 1 else 0)
  }

  /** The line after the re-link job: linked to the first search match when it is relinkable. */
  function Relinked(search: string -> seq<Product>, d: OrderDetail): OrderDetail
  {
    if Relinkable(search, d) then d.(product := Some(search(d.name.value)[0])) else d
  }

  function RelinkAll(search: string -> seq<Product>, ds: seq<OrderDetail>): seq<OrderDetail>
  {
    seq(|ds|, k requires 0 <= k < |ds| => Relinked(search, ds[k]))
  }

  /**
   * Only unlinked lines change, each to the first product the search returns
   * for its name; a line changes exactly when it is relinkable, and nothing
   * but its product does.
   */
  lemma RelinkChanges(search: string -> seq<Product>, ds: seq<OrderDetail>, k: int)
    requires 0 <= k < |ds|
    ensures |RelinkAll(search, ds)| == |ds|
    ensures RelinkAll(search, ds)[k] != ds[k] <==> Relinkable(search, ds[k])
    ensures RelinkAll(search, ds)[k] != ds[k] ==>
      Unlinked(ds[k]) && RelinkAll(search, ds)[k] == ds[k].(product := Some(search(ds[k].name.value)[0]))
    ensures RelinkAll(search, ds)[k].(product := ds[k].product) == ds[k]
  {
  }

  /** The reported count is at most the number of candidate lines, and so at most the number of lines. */
  lemma {:induction false} RelinkCountBound(search: string -> seq<Product>, ds: seq<OrderDetail>)
    ensures RelinkCount(search, ds) <= Count(ds, Unlinked) <= |ds|
    decreases |ds|
  {
    if |ds| > 0 {
      RelinkCountBound(search, ds[..|ds| - 1]);
    }
  }

  /** Every relinkable line gets linked, so running the job again changes nothing and reports 0. */
  lemma {:induction false} RelinkIdempotent(search: string -> seq<Product>, ds: seq<OrderDetail>)
    ensures RelinkAll(search, RelinkAll(search, ds)) == RelinkAll(search, ds)
    ensures RelinkCount(search, RelinkAll(search, ds)) == 0
    decreases |ds|
  {
    var once := RelinkAll(search, ds);
    assert forall k :: 0 <= k < |once| ==> !Relinkable(search, once[k]);
    if |ds| > 0 {
      var init := ds[..|ds| - 1];
      assert once[..|ds| - 1] == RelinkAll(search, init);
      RelinkIdempotent(search, init);
    }
  }

  /** The first index holding an order with that id, or -1 (`orderRepository.findById`). */
  function OrderIndex(orders: seq<Order>, id: int): (k: int)
    ensures -1 <= k < |orders|
    ensures k >= 0 ==> orders[k].id == id && forall j :: 0 <= j < k ==> orders[j].id != id
    ensures k < 0 <==> forall j :: 0 <= j < |orders| ==> orders[j].id != id
    decreases |orders|
  {
    if |orders| == 0 then -1
    else if orders[0].id == id then 0
    else
      var k := OrderIndex(orders[1..], id);
      if k < 0 then -1 else k + 1
  }

  /** `updateOrderStatus`: any string is stored, with no check of the current status. */
  function StatusUpdated(orders: seq<Order>, id: int, status: string): (r: Result<seq<Order>>)
    ensures r.Failure? <==> forall j :: 0 <= j < |orders| ==> orders[j].id != id
    ensures r.Failure? ==> r.error == OrderNotFound(id)
    ensures r.Success? ==> (|r.value| == |orders| &&
      var k := OrderIndex(orders, id);
      && r.value[k].status == Some(status)
      && r.value[k].(status := orders[k].status) == orders[k]
      && forall j :: 0 <= j < |orders| && j != k ==> r.value[j] == orders[j])
  {
    var k := OrderIndex(orders, id);
    if k < 0 then Failure(OrderNotFound(id))
    else Success(orders[k := orders[k].(status := Some(status))])
  }

  /** Whatever an order's status, any new status can be set, and setting the old one back restores the orders. */
  lemma StatusUpdateUnchecked(orders: seq<Order>, id: int, status: string)
    requires OrderIndex(orders, id) >= 0
    ensures StatusUpdated(orders, id, status).Success?
    ensures var k := OrderIndex(orders, id);
      orders[k].status.Some? ==>
        StatusUpdated(StatusUpdated(orders, id, status).value, id, orders[k].status.value) == Success(orders)
  {
    var k := OrderIndex(orders, id);
    var next := StatusUpdated(orders, id, status).value;
    assert OrderIndex(next, id) == k by {
      assert forall j :: 0 <= j < k ==> next[j] == orders[j];
    }
    if orders[k].status.Some? {
      var back := StatusUpdated(next, id, orders[k].status.value).value;
      assert back[k] == orders[k];
      assert back == orders;
    }
  }

  /** The repositories the order service reads and writes. */
  class OrderStore {
    var users: seq<User>
    var products: seq<Product>
    var orders: seq<Order>
    var details: seq<OrderDetail>
    var nextOrderId: int
    var nextDetailId: int

    constructor (users: seq<User>, products: seq<Product>, orders: seq<Order>, details: seq<OrderDetail>,
                 nextOrderId: int, nextDetailId: int)
      ensures this.users == users && this.products == products
      ensures this.orders == orders && this.details == details
      ensures this.nextOrderId == nextOrderId && this.nextDetailId == nextDetailId
    {
      this.users := users;
      this.products := products;
      this.orders := orders;
      this.details := details;
      this.nextOrderId := nextOrderId;
      this.nextDetailId := nextDetailId;
    }

    /** `placeOrder`: a failed lookup rolls the transaction back. */
    method PlaceOrder(req: OrderRequest, now: int) returns (r: Result<Order>)
      modifies this
      ensures var spec := PlaceOrderSpec(old(users), old(products), old(nextOrderId), old(nextDetailId), req, now);
        spec.Failure? ==> r == Failure(spec.error) && unchanged(this)
      ensures var spec := PlaceOrderSpec(old(users), old(products), old(nextOrderId), old(nextDetailId), req, now);
        spec.Success? ==>
          && r == Success(spec.value.order)
          && orders == old(orders) + [spec.value.order]
          && details == old(details) + spec.value.lines
          && nextOrderId == old(nextOrderId) + 1
          && nextDetailId == old(nextDetailId) + |req.orderDetails|
          && users == old(users) && products == old(products)
    {
      var user := FindUserByName(users, req.username);
      if user.None? {
        return Failure(UserNotFound(req.username));
      }
      var drafts, totalPrice := BuildLines(products, req.orderDetails);
      if drafts.Failure? {
        return Failure(drafts.error);
      }
      var order := Order(nextOrderId, Some(user.value.id), totalPrice, Some("PENDING"), Some(now));
      orders := orders + [order];
      details := details + Saved(drafts.value, order, nextDetailId);
      nextOrderId := nextOrderId + 1;
      nextDetailId := nextDetailId + |drafts.value|;
      r := Success(order);
    }

    /** `updateOrderDetailsWithProductReferences`: the number of lines it linked. */
    method RelinkProducts(search: string -> seq<Product>) returns (updatedCount: int)
      modifies this
      ensures details == RelinkAll(search, old(details))
      ensures updatedCount == RelinkCount(search, old(details))
      ensures users == old(users) && products == old(products) && orders == old(orders)
      ensures nextOrderId == old(nextOrderId) && nextDetailId == old(nextDetailId)
    {
      var lines;
      lines, updatedCount := RelinkLines(search, details);
      details := lines;
    }

    /** `updateOrderStatus`. */
    method UpdateOrderStatus(id: int, status: string) returns (r: Result<Order>)
      modifies this
      ensures var spec := StatusUpdated(old(orders), id, status);
        spec.Failure? ==> r == Failure(spec.error) && unchanged(this)
      ensures var spec := StatusUpdated(old(orders), id, status);
        spec.Success? ==> orders == spec.value && r == Success(orders[OrderIndex(old(orders), id)])
      ensures users == old(users) && products == old(products) && details == old(details)
      ensures nextOrderId == old(nextOrderId) && nextDetailId == old(nextDetailId)
    {
      var k := OrderIndex(orders, id);
      if k < 0 {
        return Failure(OrderNotFound(id));
      }
      orders := orders[k := orders[k].(status := Some(status))];
      r := Success(orders[k]);
    }
  }

  /**
   * placeOrder's loop over the request lines: builds each line, links its
   * product when it names one, and adds its subtotal to the running total.
   */
  method BuildLines(products: seq<Product>, rqs: seq<DetailRequest>) returns (r: Result<seq<OrderDetail>>, totalPrice: int)
    ensures r == Drafts(products, rqs)
    ensures r.Success? ==> totalPrice == LinesTotal(r.value)
  {
    var drafts: seq<OrderDetail> := [];
    totalPrice := 0;
    for i := 0 to |rqs|
      invariant Drafts(products, rqs[..i]) == Success(drafts)
      invariant totalPrice == LinesTotal(drafts)
    {
      var rq := rqs[i];
      assert rqs[..i + 1][..i] == rqs[..i];
      var product: Option<Product> := None;
      if rq.productId.Some? {
        product := FindProduct(products, rq.productId.value);
        if product.None? {
          DraftsFailurePersists(products, rqs, i + 1);
          return Failure(ProductNotFound(rq.productId.value)), totalPrice;
        }
      }
      var line := Draft(rq, product);
      assert (drafts + [line])[..|drafts|] == drafts;
      totalPrice := totalPrice + line.price * line.quantity;
      drafts := drafts + [line];
    }
    assert rqs[..|rqs|] == rqs;
    r := Success(drafts);
  }

  /** The re-link loop: links each relinkable line and counts the lines it linked. */
  method RelinkLines(search: string -> seq<Product>, details: seq<OrderDetail>) returns (lines: seq<OrderDetail>, updatedCount: int)
    ensures lines == RelinkAll(search, details)
    ensures updatedCount == RelinkCount(search, details)
  {
    lines := details;
    updatedCount := 0;
    for i := 0 to |details|
      invariant |lines| == |details|
      invariant forall k :: 0 <= k < i ==> lines[k] == Relinked(search, details[k])
      invariant forall k :: i <= k < |details| ==> lines[k] == details[k]
      invariant updatedCount == RelinkCount(search, details[..i])
    {
      var d := lines[i];
      assert details[..i + 1][..i] == details[..i];
      if Unlinked(d) {
        var matches := search(d.name.value);
        if |matches| > 0 {
          lines := lines[i := d.(product := Some(matches[0]))];
          updatedCount := updatedCount + 1;
        }
      }
    }
    assert details[..|details|] == details;
    var relinked := RelinkAll(search, details);
    assert |relinked| == |lines|;
    assert forall k :: 0 <= k < |lines| ==> lines[k] == relinked[k];
  }

  /** Once a prefix of the request lines fails, the whole loop fails with the same error. */
  lemma {:induction false} DraftsFailurePersists(products: seq<Product>, rqs: seq<DetailRequest>, n: int)
    requires 0 <= n <= |rqs|
    requires Drafts(products, rqs[..n]).Failure?
    ensures Drafts(products, rqs) == Drafts(products, rqs[..n])
    decreases |rqs| - n
  {
    if n < |rqs| {
      assert rqs[..n + 1][..n] == rqs[..n];
      DraftsFailurePersists(products, rqs, n + 1);
    } else {
      assert rqs[..n] == rqs;
    }
  }
}
