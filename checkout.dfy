/**
 * The checkout page: the shipping fee and order total it shows, the order
 * request it sends, the post code read from the form, and the redirect back
 * to the cart when there is nothing to check out.
 *
 * The server side of the request is module OrderService; the lemma
 * `StoredTotalExcludesShipping` puts the two together.
 */
module Checkout {
  import opened Seqs
  import opened Strings
  import opened Entities
  import opened Cart
  import opened OrderService

  /** The flat shipping fee, in đồng. */
  const ShippingFee := 30000

  /** Carts worth at least this much ship free. */
  const FreeShippingThreshold := 500000

  /** The fee the checkout page charges for a cart of this value. */
  function ShippingCost(cartTotal: int): (fee: int)
    ensures fee == 0 <==> cartTotal >= FreeShippingThreshold
    ensures fee == 0 || fee == ShippingFee
  {
    if cartTotal >= FreeShippingThreshold then 0 else ShippingFee
  }

  /** The amount the page shows and sends: the cart plus shipping. */
  function OrderTotal(cartTotal: int): int
  {
    cartTotal + ShippingCost(cartTotal)
  }

  /**
   * The total never falls below the cart value nor exceeds it by more than
   * the fee, and it is never below the threshold once shipping is added:
   * a cart just under the threshold costs more in total than one at it.
   */
  lemma OrderTotalBounds(cartTotal: int)
    ensures cartTotal <= OrderTotal(cartTotal) <= cartTotal + ShippingFee
    ensures FreeShippingThreshold - ShippingFee <= cartTotal ==> OrderTotal(cartTotal) >= FreeShippingThreshold
    ensures OrderTotal(FreeShippingThreshold - 1) > OrderTotal(FreeShippingThreshold)
  {
  }

  /** One request line per cart item: name, price and quantity copied, the product linked by the item's id. */
  function DetailPayload(item: CartItem): DetailRequest
  {
    DetailRequest(Some(item.name), item.price, item.quantity, Some(item.id))
  }

  function OrderDetailsPayload(cart: seq<CartItem>): seq<DetailRequest>
  {
    Map(cart, DetailPayload)
  }

  /** The request the page posts; contact and address fields are not modelled. */
  function CheckoutRequest(username: string, cart: seq<CartItem>): OrderRequest
  {
    OrderRequest(username, OrderDetailsPayload(cart), OrderTotal(CartTotal(cart)))
  }

  /**
   * The payload has one line per cart item, in cart order, each for the
   * item's product, and its lines add up to the cart total.
   */
  lemma PayloadMirrorsCart(cart: seq<CartItem>)
    ensures var p := OrderDetailsPayload(cart);
      && |p| == |cart|
      && (forall k :: 0 <= k < |p| ==>
            p[k].productId == Some(cart[k].id) && p[k].name == Some(cart[k].name) &&
            p[k].price == cart[k].price && p[k].quantity == cart[k].quantity)
      && Sum(p, RequestSubTotal) == CartTotal(cart)
  {
    SumMap(cart, DetailPayload, RequestSubTotal, LineTotal);
  }

  /**
   * When the server accepts a checkout request it stores the cart total,
   * not the total the page sent: below the free-shipping threshold the
   * stored order is short of what the customer was shown by the fee.
   */
  lemma StoredTotalExcludesShipping(users: seq<User>, products: seq<Product>, orderId: int, detailId: int,
                                    username: string, cart: seq<CartItem>, now: int)
    requires PlaceOrderSpec(users, products, orderId, detailId, CheckoutRequest(username, cart), now).Success?
    ensures var req := CheckoutRequest(username, cart);
      var stored := PlaceOrderSpec(users, products, orderId, detailId, req, now).value.order.totalPrice;
      && stored == CartTotal(cart)
      && stored == req.totalPrice - ShippingCost(CartTotal(cart))
      && (stored == req.totalPrice <==> CartTotal(cart) >= FreeShippingThreshold)
  {
    PlacedOrder(users, products, orderId, detailId, CheckoutRequest(username, cart), now);
    PayloadMirrorsCart(cart);
  }

  /** `parseInt(postCode) || 0`: NaN becomes 0. */
  function PostCode(field: string): int
  {
    match ParseInt(field)
    case None => 0
    case Some(v) => v
  }

  /**
   * A post code typed as digits reads back as its number, also when other
   * text follows the digits; a field that does not start with a digit or a
   * sign reads as 0.
   */
  lemma PostCodeOfDigits(n: nat, rest: string)
    requires |rest| > 0 ==> !IsDigit(rest[0])
    ensures PostCode(NatToString(n) + rest) == n
    ensures PostCode(NatToString(n)) == n
  {
    var s := NatToString(n);
    NatToStringValue(n);
    DigitsFirst(s, rest);
    DigitsFirst(s, []);
    assert s + [] == s;
  }

  lemma PostCodeNotANumber(field: string)
    requires var t := TrimStart(field); |t| == 0 || !(IsDigit(t[0]) || t[0] == '-' || t[0] == '+')
    ensures PostCode(field) == 0
  {
  }

  /** The page sends the shopper back to the cart when it is empty and no order has just been placed. */
  function RedirectsToCart(cart: seq<CartItem>, orderSuccess: bool): bool
  {
    |cart| == 0 && !orderSuccess
  }

  /**
   * Placing the order clears the cart but also marks the order done, so the
   * confirmation stays; a cart emptied any other way leads back to the cart
   * page, and a non-empty cart never does.
   */
  lemma RedirectRule(cart: seq<CartItem>, orderSuccess: bool)
    ensures |cart| > 0 ==> !RedirectsToCart(cart, orderSuccess)
    ensures !RedirectsToCart([], true)
    ensures RedirectsToCart([], false)
    ensures RedirectsToCart(cart, orderSuccess) ==> CartCount(cart) == 0 && CartTotal(cart) == 0
  {
  }
}
