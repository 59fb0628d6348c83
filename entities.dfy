/**
 * The persistent records the reports read (users, orders, order lines,
 * products, categories), the order line's subtotal rule, and the two
 * derived order finders the controllers call.
 *
 * A nullable reference or column is an `Option`; a user or product link is
 * the linked record's id, or the record itself where its fields are read.
 * Timestamps are local wall-clock milliseconds (see module Calendar).
 */
module Entities {
  import opened Seqs

  datatype User = User(
    id: int,
    username: string,
    email: string,
    firstname: Option<string>,
    lastname: Option<string>,
    createAt: Option<int>)

  datatype Category = Category(id: int, name: string)

  datatype Product = Product(id: int, name: string, category: Option<Category>)

  datatype Order = Order(
    id: int,
    user: Option<int>,
    totalPrice: int,
    status: Option<string>,
    createAt: Option<int>)

  /** An order line.  `subTotal` is the stored column; the getter ignores it. */
  datatype OrderDetail = OrderDetail(
    id: int,
    name: Option<string>,
    price: int,
    quantity: int,
    order: Option<Order>,
    product: Option<Product>,
    subTotal: int)

  /** `getSubTotal()`: price times quantity, computed from the line itself. */
  function SubTotal(d: OrderDetail): (r: int)
  {
    d.price * d.quantity
  }

  /** `setSubTotal(v)`: stores the column, which `getSubTotal()` never reads. */
  function SetSubTotal(d: OrderDetail, v: int): (r: OrderDetail)
    ensures r.subTotal == v
    ensures SubTotal(r) == SubTotal(d)
    ensures r.(subTotal := d.subTotal) == d
  {
    d.(subTotal := v)
  }

  /** The subtotal depends only on price and quantity, never on the links or the stored column. */
  lemma SubTotalIndependent(d: OrderDetail, e: OrderDetail)
    requires d.price == e.price && d.quantity == e.quantity
    ensures SubTotal(d) == SubTotal(e)
  {
  }

  /** A line with no price or no quantity contributes nothing. */
  lemma SubTotalZero(d: OrderDetail)
    requires d.price == 0 || d.quantity == 0
    ensures SubTotal(d) == 0
  {
  }

  /** Σ subtotals, the order total that placing an order stores. */
  function LinesTotal(ds: seq<OrderDetail>): int
  {
    Sum(ds, SubTotal)
  }

  function TotalPrice(o: Order): int
  {
    o.totalPrice
  }

  /** Σ totalPrice, the revenue figure every report starts from. */
  function Revenue(os: seq<Order>): int
  {
    Sum(os, TotalPrice)
  }

  predicate HasStamp(o: Order)
  {
    o.createAt.Some?
  }

  /** `findByCreateAtAfter(t)`: orders stamped strictly after t; a missing stamp never compares. */
  function FindByCreateAtAfter(os: seq<Order>, t: int): (r: seq<Order>)
    ensures forall o :: o in r <==> o in os && o.createAt.Some? && o.createAt.value > t
    ensures IsSubsequence(r, os)
  {
    FilterIsSubsequence(os, (o: Order) => o.createAt.Some? && o.createAt.value > t);
    Filter(os, (o: Order) => o.createAt.Some? && o.createAt.value > t)
  }

  /** `findByCreateAtBetween(lo, hi)`: stamps in [lo, hi], both ends included. */
  function FindByCreateAtBetween(os: seq<Order>, lo: int, hi: int): (r: seq<Order>)
    ensures forall o :: o in r <==> o in os && o.createAt.Some? && lo <= o.createAt.value <= hi
    ensures IsSubsequence(r, os)
  {
    FilterIsSubsequence(os, (o: Order) => o.createAt.Some? && lo <= o.createAt.value <= hi);
    Filter(os, (o: Order) => o.createAt.Some? && lo <= o.createAt.value <= hi)
  }

  /** The orders grouped under one user id (orders without a user are in no group). */
  function OrdersOf(orders: seq<Order>, userId: int): (mine: seq<Order>)
    ensures forall o :: o in mine <==> o in orders && o.user == Some(userId)
  {
    Filter(orders, (o: Order) => o.user == Some(userId))
  }

  predicate AllStamped(os: seq<Order>)
  {
    forall i :: 0 <= i < |os| ==> os[i].createAt.Some?
  }

  /** Distinct ids of the users that placed the given orders (orders without a user are skipped). */
  function CustomerIds(os: seq<Order>): set<int>
  {
    set i | 0 <= i < |os| && os[i].user.Some? :: os[i].user.value
  }

  /** A set of ids drawn from a sequence is no larger than the sequence. */
  lemma {:induction false} CustomerIdsBound(os: seq<Order>)
    ensures |CustomerIds(os)| <= |os|
    decreases |os|
  {
    if |os| > 0 {
      var init := os[..|os| - 1];
      CustomerIdsBound(init);
      var last := os[|os| - 1];
      assert CustomerIds(os) <= CustomerIds(init) + (if last.user.Some? then {last.user.value} else {});
      SubsetCardinality(CustomerIds(os), CustomerIds(init) + (if last.user.Some? then {last.user.value} else {}));
    }
  }

  /** `userRepository.findById(id)` over a user list: the first user with that id. */
  function FindUser(users: seq<User>, id: int): (r: Option<User>)
    ensures r.Some? ==> r.value in users && r.value.id == id
    ensures r.None? <==> forall u :: u in users ==> u.id != id
    decreases |users|
  {
    if |users| == 0 then None
    else if users[0].id == id then Some(users[0])
    else FindUser(users[1..], id)
  }

  /** The grouping key: the id of the order's user. */
  function UserIdOf(o: Order): int
  {
    if o.user.Some? then o.user.value else 0
  }

  predicate HasUser(o: Order)
  {
    o.user.Some?
  }

  /** The user ids with orders, each once (the map's keys). */
  function CustomerKeys(orders: seq<Order>): (ids: seq<int>)
    ensures forall id :: id in ids <==> exists o :: o in orders && o.user == Some(id)
  {
    var withUser := Filter(orders, HasUser);
    var ids := Keys(withUser, UserIdOf);
    forall id | id in ids
      ensures exists o :: o in orders && o.user == Some(id)
    {
      var i :| 0 <= i < |withUser| && UserIdOf(withUser[i]) == id;
      assert withUser[i] in withUser;
    }
    forall id | exists o :: o in orders && o.user == Some(id)
      ensures id in ids
    {
      var o :| o in orders && o.user == Some(id);
      assert o in withUser;
      var i :| 0 <= i < |withUser| && withUser[i] == o;
    }
    ids
  }

  /** Each user id is a key of the grouping once. */
  lemma CustomerKeysDistinct(orders: seq<Order>)
    ensures forall i, j :: 0 <= i < j < |CustomerKeys(orders)| ==> CustomerKeys(orders)[i] != CustomerKeys(orders)[j]
  {
    assert CustomerKeys(orders) == Keys(Filter(orders, HasUser), UserIdOf);
  }
}
