/**
 * The client-side order check (`analyzeOrderDetails`): it splits an order's
 * lines by whether they are linked to a product, adds the lines up, and
 * compares that sum with the order's reported total.
 *
 * The order arrives as JSON, so a missing value is an `Option`, and a line's
 * `subTotal` counts only when it is truthy (present and not 0).
 */
module OrderDebugger {
  import opened Seqs
  import opened Entities
  import OrderService

  /** An order line as the client receives it. */
  datatype ClientDetail = ClientDetail(product: Option<int>, subTotal: Option<int>, price: int, quantity: int)

  /** An order as the client receives it; `orderDetails` may be absent. */
  datatype ClientOrder = ClientOrder(
    id: int,
    createAt: Option<int>,
    status: Option<string>,
    totalPrice: int,
    orderDetails: Option<seq<ClientDetail>>)

  datatype Analysis =
    | Missing
    | Analyzed(
        orderId: int,
        totalItems: nat,
        detailsWithProduct: nat,
        detailsWithoutProduct: nat,
        calculatedTotal: int,
        reportedTotal: int,
        totalPriceMatch: bool,
        detailsWithoutProductList: seq<ClientDetail>,
        message: string)

  const TotalsAgree := "Tổng tiền đơn hàng khớp với tổng chi tiết"
  const TotalsDisagree := "Tổng tiền đơn hàng không khớp với chi tiết"

  predicate Linked(d: ClientDetail)
  {
    d.product.Some?
  }

  predicate Unlinked(d: ClientDetail)
  {
    d.product.None?
  }

  /** `item.subTotal || item.price * item.quantity`. */
  function LineAmount(d: ClientDetail): int
  {
    if d.subTotal.Some? && d.subTotal.value != 0 then d.subTotal.value else d.price * d.quantity
  }

  /** `analyzeOrderDetails(order)`. */
  function Analyze(order: Option<ClientOrder>): (r: Analysis)
    ensures r.Missing? <==> order.None?
    ensures r.Analyzed? ==>
      var ds := if order.value.orderDetails.Some? then order.value.orderDetails.value else [];
      && r.orderId == order.value.id
      && r.totalItems == |ds|
      && r.detailsWithProduct == Count(ds, Linked)
      && r.detailsWithoutProduct == Count(ds, Unlinked)
      && r.detailsWithProduct + r.detailsWithoutProduct == r.totalItems
      && |r.detailsWithoutProductList| == r.detailsWithoutProduct
      && (forall d :: d in r.detailsWithoutProductList <==> d in ds && d.product.None?)
      && r.calculatedTotal == Sum(ds, LineAmount)
      && r.reportedTotal == order.value.totalPrice
      && (r.totalPriceMatch <==> r.calculatedTotal == order.value.totalPrice)
      && (r.message == TotalsAgree <==> r.totalPriceMatch)
  {
    match order
    case None => Missing
    case Some(o) =>
      var ds := if o.orderDetails.Some? then o.orderDetails.value else [];
      var withProduct := Filter(ds, Linked);
      var withoutProduct := Filter(ds, Unlinked);
      var calculated := Sum(ds, LineAmount);
      var matches := calculated == o.totalPrice;
      CountComplement(ds, Linked, Unlinked);
      Analyzed(o.id, |ds|, |withProduct|, |withoutProduct|, calculated, o.totalPrice, matches,
               withoutProduct, if matches then TotalsAgree else TotalsDisagree)
  }

  /** A line as the server sends it: `subTotal` is the getter's price times quantity. */
  function Serialized(d: OrderDetail): ClientDetail
  {
    ClientDetail(if d.product.Some? then Some(d.product.value.id) else None, Some(SubTotal(d)), d.price, d.quantity)
  }

  function SerializedOrder(o: Order, lines: seq<OrderDetail>): ClientOrder
  {
    ClientOrder(o.id, o.createAt, o.status, o.totalPrice, Some(Map(lines, Serialized)))
  }

  /** The client's line amount of a server line is the server's subtotal, even when it is 0. */
  lemma SerializedAmount(d: OrderDetail)
    ensures LineAmount(Serialized(d)) == SubTotal(d)
  {
  }

  /**
   * The client adds a server order's lines up to the server's own line
   * total, so it reports agreement exactly when the stored total is that sum.
   */
  lemma ServerOrderAnalysis(o: Order, lines: seq<OrderDetail>)
    ensures var r := Analyze(Some(SerializedOrder(o, lines)));
      && r.calculatedTotal == LinesTotal(lines)
      && (r.totalPriceMatch <==> o.totalPrice == LinesTotal(lines))
  {
    SumMap(lines, Serialized, LineAmount, SubTotal);
  }

  /** Every order the order service places passes the client's check. */
  lemma PlacedOrderAgrees(users: seq<User>, products: seq<Product>, orderId: int, detailId: int,
                          req: OrderService.OrderRequest, now: int)
    requires OrderService.PlaceOrderSpec(users, products, orderId, detailId, req, now).Success?
    ensures var p := OrderService.PlaceOrderSpec(users, products, orderId, detailId, req, now).value;
      var r := Analyze(Some(SerializedOrder(p.order, p.lines)));
      r.totalPriceMatch && r.message == TotalsAgree
  {
    var p := OrderService.PlaceOrderSpec(users, products, orderId, detailId, req, now).value;
    OrderService.PlacedOrder(users, products, orderId, detailId, req, now);
    ServerOrderAnalysis(p.order, p.lines);
  }

  /** An order without its lines counts nothing and agrees only with a zero total. */
  lemma NoDetails(o: ClientOrder)
    requires o.orderDetails.None?
    ensures var r := Analyze(Some(o));
      r.totalItems == 0 && r.calculatedTotal == 0 && (r.totalPriceMatch <==> o.totalPrice == 0)
  {
  }
}
