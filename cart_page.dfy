/**
 * The cart page's order summary: line totals, the shipping fee, the grand
 * total and the free-shipping hint.
 *
 * The page decides the fee with a strict comparison but words its hint
 * with a non-strict one, so a cart worth exactly the threshold is promised
 * free shipping and charged the fee.  `ShippingAsWritten` is the page's
 * rule, which its grand total uses; `Shipping` charges what the hint and the
 * checkout page say.
 */
module CartPage {
  import opened Seqs
  import opened Cart
  import Checkout

  /** The fee as the page computes it: free only strictly above the threshold. */
  function ShippingAsWritten(cartTotal: int): (fee: int)
    ensures fee == 0 <==> cartTotal > Checkout.FreeShippingThreshold
  {
    if cartTotal > Checkout.FreeShippingThreshold then 0 else Checkout.ShippingFee
  }

  /** The hint claims free shipping from the threshold on. */
  predicate PromisesFreeShipping(cartTotal: int)
  {
    cartTotal >= Checkout.FreeShippingThreshold
  }

  /** What is still missing for free shipping, shown while the hint does not promise it. */
  function RemainingForFreeShipping(cartTotal: int): (r: int)
    requires !PromisesFreeShipping(cartTotal)
    ensures r > 0
    ensures PromisesFreeShipping(cartTotal + r)
    ensures !PromisesFreeShipping(cartTotal + r - 1)
  {
    Checkout.FreeShippingThreshold - cartTotal
  }

  /**
   * At exactly the threshold the hint promises free shipping while the fee
   * is charged; a shopper who adds just the remaining amount shown reaches
   * that point.
   */
  lemma HintContradictsFeeAsWritten(cartTotal: int)
    requires !PromisesFreeShipping(cartTotal)
    ensures var reached := cartTotal + RemainingForFreeShipping(cartTotal);
      PromisesFreeShipping(reached) && ShippingAsWritten(reached) == Checkout.ShippingFee
  {
  }

  /** The fee the summary charges: the checkout page's rule, which the hint describes. */
  function Shipping(cartTotal: int): (fee: int)
    ensures fee == 0 <==> PromisesFreeShipping(cartTotal)
    ensures fee == Checkout.ShippingCost(cartTotal)
  {
    if cartTotal >= Checkout.FreeShippingThreshold then 0 else Checkout.ShippingFee
  }

  /** The two rules differ at exactly one cart value. */
  lemma ShippingDiffersOnlyAtThreshold(cartTotal: int)
    ensures Shipping(cartTotal) != ShippingAsWritten(cartTotal) <==> cartTotal == Checkout.FreeShippingThreshold
  {
  }

  /**
   * The "Tổng cộng" line: the cart total plus the page's fee.  It is the
   * amount the checkout page sends for every cart except one worth exactly
   * the threshold, where the cart page shows the fee more.
   */
  function GrandTotal(items: seq<CartItem>): (t: int)
    ensures t - CartTotal(items) == ShippingAsWritten(CartTotal(items))
    ensures t == Checkout.OrderTotal(CartTotal(items)) <==> CartTotal(items) != Checkout.FreeShippingThreshold
    ensures CartTotal(items) == Checkout.FreeShippingThreshold ==>
      t == Checkout.OrderTotal(CartTotal(items)) + Checkout.ShippingFee
  {
    CartTotal(items) + ShippingAsWritten(CartTotal(items))
  }

  /** The per-line amounts shown beside the items add up to the subtotal shown under them. */
  lemma {:induction false} LineTotalsAddUp(items: seq<CartItem>)
    ensures Sum(Map(items, LineTotal), (v: int) => v) == CartTotal(items)
  {
    SumMap(items, LineTotal, (v: int) => v, LineTotal);
  }
}
