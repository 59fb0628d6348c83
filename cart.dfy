/**
 * The storefront cart (`CartContext`): a list of cart items keyed by product
 * id, the four updaters the pages call, and the item count and price total
 * recomputed after every change.
 *
 * Each updater is a pure function from the previous item list to the next
 * one, as React's `setCartItems(prev => ...)` is; `CartState` is the context
 * itself, whose methods replace the list and recompute the two totals.
 * Persistence to the browser's local storage and the toast notifications
 * are not modelled.
 */
module Cart {
  import opened Seqs

  /** One cart line: a copy of the product's display fields and a quantity. */
  datatype CartItem = CartItem(id: int, name: string, price: int, image: string, quantity: int)

  /** The product fields `addToCart` reads. */
  datatype CartProduct = CartProduct(id: int, name: string, price: int, image: string)

  function Quantity(item: CartItem): int
  {
    item.quantity
  }

  /** What a cart line costs, as shown beside it and summed into the total. */
  function LineTotal(item: CartItem): int
  {
    item.price * item.quantity
  }

  /** `cartCount`: the quantities added up. */
  function CartCount(items: seq<CartItem>): int
  {
    Sum(items, Quantity)
  }

  /** `cartTotal`: price times quantity added up. */
  function CartTotal(items: seq<CartItem>): int
  {
    Sum(items, LineTotal)
  }

  /** No two lines of the cart are for the same product. */
  predicate UniqueIds(items: seq<CartItem>)
  {
    forall i, j :: 0 <= i < j < |items| ==> items[i].id != items[j].id
  }

  /** `findIndex(item => item.id === id)`: the first line for that product, or -1. */
  function FindIndex(items: seq<CartItem>, id: int): (k: int)
    ensures -1 <= k < |items|
    ensures k == -1 <==> forall i :: 0 <= i < |items| ==> items[i].id != id
    ensures k >= 0 ==> items[k].id == id && forall j :: 0 <= j < k ==> items[j].id != id
    decreases |items|
  {
    if |items| == 0 then -1
    else
      var k := FindIndex(items[..|items| - 1], id);
      if k >= 0 then k
      else if items[|items| - 1].id == id then |items| - 1
      else -1
  }

  /** The quantity `addToCart` uses when its caller passes none. */
  function DefaultQuantity(quantity: Option<int>): int
  {
    match quantity
    case None => 1
    case Some(q) => q
  }

  /** `addToCart(product, quantity)`: merge into the product's line if there is one, else append a new line. */
  function Added(items: seq<CartItem>, product: CartProduct, quantity: int): seq<CartItem>
  {
    var k := FindIndex(items, product.id);
    if k >= 0 then items[k := items[k].(quantity := items[k].quantity + quantity)]
    else items + [CartItem(product.id, product.name, product.price, product.image, quantity)]
  }

  function KeepsOtherIds(id: int): CartItem -> bool
  {
    (item: CartItem) => item.id != id
  }

  /** `removeFromCart(id)`: every line for that product is dropped. */
  function Removed(items: seq<CartItem>, id: int): seq<CartItem>
  {
    Filter(items, KeepsOtherIds(id))
  }

  function WithQuantity(id: int, quantity: int): CartItem -> CartItem
  {
    (item: CartItem) => if item.id == id then item.(quantity := quantity) else item
  }

  /** `updateQuantity(id, quantity)`: a quantity of zero or less removes the line, otherwise it is set. */
  function QuantityUpdated(items: seq<CartItem>, id: int, quantity: int): seq<CartItem>
  {
    if quantity <= 0 then Removed(items, id)
    else Map(items, WithQuantity(id, quantity))
  }

  /** Adding a product already in the cart changes only its line's quantity; its stored price is kept. */
  lemma AddExisting(items: seq<CartItem>, product: CartProduct, quantity: int)
    requires FindIndex(items, product.id) >= 0
    ensures var k := FindIndex(items, product.id);
      var r := Added(items, product, quantity);
      && |r| == |items|
      && r[k] == items[k].(quantity := items[k].quantity + quantity)
      && (forall j :: 0 <= j < |r| && j != k ==> r[j] == items[j])
      && CartCount(r) == CartCount(items) + quantity
      && CartTotal(r) == CartTotal(items) + items[k].price * quantity
  {
    var k := FindIndex(items, product.id);
    var y := items[k].(quantity := items[k].quantity + quantity);
    var r := items[k := y];
    assert Added(items, product, quantity) == r;
    SumUpdate(items, k, y, Quantity);
    SumUpdate(items, k, y, LineTotal);
    assert LineTotal(y) == items[k].price * items[k].quantity + items[k].price * quantity;
  }

  /** Adding a product not yet in the cart appends one line at the end with the given quantity. */
  lemma AddNew(items: seq<CartItem>, product: CartProduct, quantity: int)
    requires FindIndex(items, product.id) == -1
    ensures var r := Added(items, product, quantity);
      && r == items + [CartItem(product.id, product.name, product.price, product.image, quantity)]
      && CartCount(r) == CartCount(items) + quantity
      && CartTotal(r) == CartTotal(items) + product.price * quantity
  {
    var line := CartItem(product.id, product.name, product.price, product.image, quantity);
    SumAppend(items, [line], Quantity);
    SumAppend(items, [line], LineTotal);
  }

  /** Adding never creates a second line for a product, and the cart then holds exactly the old ids and the new one. */
  lemma AddKeepsIdsUnique(items: seq<CartItem>, product: CartProduct, quantity: int)
    requires UniqueIds(items)
    ensures var r := Added(items, product, quantity);
      && UniqueIds(r)
      && (forall id :: FindIndex(r, id) >= 0 <==> FindIndex(items, id) >= 0 || id == product.id)
  {
    var r := Added(items, product, quantity);
    forall id
      ensures FindIndex(r, id) >= 0 <==> FindIndex(items, id) >= 0 || id == product.id
    {
      var k := FindIndex(items, product.id);
      if k == -1 && id == product.id {
        assert r[|items|].id == id;
      }
      var j := FindIndex(items, id);
      if j >= 0 {
        assert r[j].id == id;
      }
      var i := FindIndex(r, id);
      if i >= 0 && i < |items| {
        assert items[i].id == r[i].id;
      }
    }
  }

  /** The sum over the lines kept by a removal is the whole sum less the removed lines' share. */
  lemma {:induction false} RemovedSum(items: seq<CartItem>, id: int, f: CartItem -> int)
    ensures Sum(Removed(items, id), f) == Sum(items, f) - Sum(items, (x: CartItem) => if x.id == id then f(x) else 0)
    decreases |items|
  {
    if |items| > 0 {
      var init := items[..|items| - 1];
      var last := items[|items| - 1];
      RemovedSum(init, id, f);
      SumAppend(Removed(init, id), if last.id != id then [last] else [], f);
    }
  }

  /** With unique ids, the removed lines' share is that of the one line for the id, or nothing. */
  lemma MatchingShare(items: seq<CartItem>, id: int, f: CartItem -> int)
    requires UniqueIds(items)
    ensures var k := FindIndex(items, id);
      Sum(items, (x: CartItem) => if x.id == id then f(x) else 0) == if k >= 0 then f(items[k]) else 0
  {
    var g := (x: CartItem) => if x.id == id then f(x) else 0;
    var k := FindIndex(items, id);
    if k < 0 {
      SumZeroes(items, g);
    } else {
      var before, after := items[..k], items[k + 1..];
      assert items == before + [items[k]] + after;
      SumZeroes(before, g);
      SumZeroes(after, g);
      SumAppend(before + [items[k]], after, g);
      SumAppend(before, [items[k]], g);
    }
  }

  /** Removing keeps the other lines in order and drops every line for the id. */
  lemma RemoveSpec(items: seq<CartItem>, id: int)
    ensures var r := Removed(items, id);
      && IsSubsequence(r, items)
      && (forall x :: x in r <==> x in items && x.id != id)
      && (FindIndex(items, id) == -1 ==> r == items)
  {
    FilterIsSubsequence(items, KeepsOtherIds(id));
    if FindIndex(items, id) == -1 {
      FilterKeepsAll(items, KeepsOtherIds(id));
    }
  }

  function HasId(id: int): CartItem -> bool
  {
    (item: CartItem) => item.id == id
  }

  /** With unique ids exactly one line matches an id that is in the cart. */
  lemma CountOfId(items: seq<CartItem>, id: int)
    requires UniqueIds(items) && FindIndex(items, id) >= 0
    ensures Count(items, HasId(id)) == 1
  {
    var k := FindIndex(items, id);
    var before, after := items[..k], items[k + 1..];
    assert items == before + [items[k]] + after;
    assert Count(before, HasId(id)) == 0;
    assert forall i :: 0 <= i < |after| ==> after[i].id != id by {
      forall i | 0 <= i < |after|
        ensures after[i].id != id
      {
        assert after[i] == items[k + 1 + i];
      }
    }
    assert Count(after, HasId(id)) == 0;
    assert Count([items[k]], HasId(id)) == 1;
    CountAppend(before + [items[k]], after, HasId(id));
    CountAppend(before, [items[k]], HasId(id));
  }

  /** With unique ids, removing takes out exactly the one line's quantity and price. */
  lemma RemoveTotals(items: seq<CartItem>, id: int)
    requires UniqueIds(items)
    ensures var k := FindIndex(items, id);
      var r := Removed(items, id);
      && (k >= 0 ==> |r| == |items| - 1)
      && CartCount(r) == CartCount(items) - (if k >= 0 then items[k].quantity else 0)
      && CartTotal(r) == CartTotal(items) - (if k >= 0 then LineTotal(items[k]) else 0)
  {
    if FindIndex(items, id) >= 0 {
      CountOfId(items, id);
      CountComplement(items, HasId(id), KeepsOtherIds(id));
    }
    RemovedSum(items, id, Quantity);
    MatchingShare(items, id, Quantity);
    RemovedSum(items, id, LineTotal);
    MatchingShare(items, id, LineTotal);
  }

  /** Removing keeps the remaining ids distinct. */
  lemma RemoveKeepsIdsUnique(items: seq<CartItem>, id: int)
    requires UniqueIds(items)
    ensures UniqueIds(Removed(items, id))
    ensures FindIndex(Removed(items, id), id) == -1
  {
    var r := Removed(items, id);
    FilterIsSubsequence(items, KeepsOtherIds(id));
    SubsequenceUnique(r, items);
    forall i | 0 <= i < |r|
      ensures r[i].id != id
    {
      assert r[i] in r;
    }
  }

  /** A subsequence of a cart with distinct ids has distinct ids. */
  lemma {:induction false} SubsequenceUnique(r: seq<CartItem>, s: seq<CartItem>)
    requires IsSubsequence(r, s) && UniqueIds(s)
    ensures UniqueIds(r)
    ensures forall x :: x in r ==> x in s
    decreases |s|
  {
    if |r| > 0 {
      var rinit, sinit := r[..|r| - 1], s[..|s| - 1];
      if r[|r| - 1] == s[|s| - 1] {
        SubsequenceUnique(rinit, sinit);
        forall i | 0 <= i < |rinit|
          ensures rinit[i].id != r[|r| - 1].id
        {
          assert rinit[i] in sinit;
          var j :| 0 <= j < |sinit| && sinit[j] == rinit[i];
          assert s[j] == rinit[i];
        }
        assert forall x :: x in r ==> x in rinit || x == r[|r| - 1];
      } else {
        SubsequenceUnique(r, sinit);
      }
    }
  }

  /**
   * A quantity of zero or less is a removal; any other quantity replaces the
   * matching line's quantity and leaves every other line as it was.
   */
  lemma UpdateSpec(items: seq<CartItem>, id: int, quantity: int)
    ensures quantity <= 0 ==> QuantityUpdated(items, id, quantity) == Removed(items, id)
    ensures quantity > 0 ==>
      var r := QuantityUpdated(items, id, quantity);
      && |r| == |items|
      && (forall i :: 0 <= i < |r| && items[i].id == id ==> r[i] == items[i].(quantity := quantity))
      && (forall i :: 0 <= i < |r| && items[i].id != id ==> r[i] == items[i])
  {
  }

  /** With unique ids, setting a positive quantity moves the count and total by the change on that one line. */
  lemma UpdateTotals(items: seq<CartItem>, id: int, quantity: int)
    requires UniqueIds(items) && quantity > 0
    ensures var k := FindIndex(items, id);
      var r := QuantityUpdated(items, id, quantity);
      && UniqueIds(r)
      && (k == -1 ==> r == items)
      && (k >= 0 ==> CartCount(r) == CartCount(items) - items[k].quantity + quantity)
      && (k >= 0 ==> CartTotal(r) == CartTotal(items) - LineTotal(items[k]) + items[k].price * quantity)
  {
    var k := FindIndex(items, id);
    var r := QuantityUpdated(items, id, quantity);
    if k == -1 {
      assert r == items;
    } else {
      var y := items[k].(quantity := quantity);
      assert r == items[k := y];
      SumUpdate(items, k, y, Quantity);
      SumUpdate(items, k, y, LineTotal);
    }
  }

  /** The cart context: its item list and the two totals derived from it. */
  class CartState {
    var items: seq<CartItem>
    var count: int
    var total: int

    /** The totals match the items, and no product has two lines. */
    ghost predicate Valid()
      reads this
    {
      && count == CartCount(items)
      && total == CartTotal(items)
      && UniqueIds(items)
    }

    /** An empty cart. */
    constructor()
      ensures items == [] && count == 0 && total == 0
      ensures Valid()
    {
      items := [];
      count := 0;
      total := 0;
    }

    /** The effect that runs whenever the items change: recompute count and total. */
    method Recompute()
      modifies this
      ensures items == old(items)
      ensures count == CartCount(items) && total == CartTotal(items)
    {
      count := CartCount(items);
      total := CartTotal(items);
    }

    method AddToCart(product: CartProduct, quantity: Option<int>)
      requires Valid()
      modifies this
      ensures items == Added(old(items), product, DefaultQuantity(quantity))
      ensures count == old(count) + DefaultQuantity(quantity)
      ensures Valid()
    {
      var q := DefaultQuantity(quantity);
      AddKeepsIdsUnique(items, product, q);
      if FindIndex(items, product.id) >= 0 {
        AddExisting(items, product, q);
      } else {
        AddNew(items, product, q);
      }
      items := Added(items, product, q);
      Recompute();
    }

    method RemoveFromCart(id: int)
      requires Valid()
      modifies this
      ensures items == Removed(old(items), id)
      ensures FindIndex(items, id) == -1
      ensures Valid()
    {
      RemoveKeepsIdsUnique(items, id);
      RemoveTotals(items, id);
      items := Removed(items, id);
      Recompute();
    }

    method UpdateQuantity(id: int, quantity: int)
      requires Valid()
      modifies this
      ensures items == QuantityUpdated(old(items), id, quantity)
      ensures Valid()
    {
      if quantity <= 0 {
        RemoveFromCart(id);
        return;
      }
      UpdateTotals(items, id, quantity);
      items := QuantityUpdated(items, id, quantity);
      Recompute();
    }

    method ClearCart()
      modifies this
      ensures items == [] && count == 0 && total == 0
      ensures Valid()
    {
      items := [];
      Recompute();
    }
  }
}
