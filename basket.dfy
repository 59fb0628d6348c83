/**
 * Products bought together: the cross-sell query of `OrderDetailRepository`
 * (`findProductCrossSellRelationships`) and the row filtering of
 * `AdvancedAnalyticsController.getBasketAnalysis`.
 *
 * The query joins the line table with itself on the order, keeps pairs of
 * lines whose products differ, and counts the joined rows per ordered pair of
 * products; both products must exist (inner joins).  Rows come most frequent
 * first, cut at the limit; ties are in no particular order.
 */
module BasketAnalysis {
  import opened Seqs
  import opened Entities

  /** The grouping key `p1.id, p1.name, p2.id, p2.name`. */
  datatype PairKey = PairKey(id1: int, name1: string, id2: int, name2: string)

  datatype PairRow = PairRow(product1Id: int, product1Name: string, product2Id: int, product2Name: string, frequency: nat)

  /** Two lines join: same order, both with a product, different product ids. */
  predicate Matches(x: OrderDetail, y: OrderDetail)
  {
    x.order.Some? && y.order.Some? && x.order.value.id == y.order.value.id &&
    x.product.Some? && y.product.Some? && x.product.value.id != y.product.value.id
  }

  function KeyOf(x: OrderDetail, y: OrderDetail): PairKey
    requires x.product.Some? && y.product.Some?
  {
    PairKey(x.product.value.id, x.product.value.name, y.product.value.id, y.product.value.name)
  }

  function Swap(k: PairKey): PairKey
  {
    PairKey(k.id2, k.name2, k.id1, k.name1)
  }

  /** Lines i and j join into a row of group k. */
  predicate JoinedAs(lines: seq<OrderDetail>, i: int, j: int, k: PairKey)
  {
    0 <= i < |lines| && 0 <= j < |lines| && Matches(lines[i], lines[j]) && KeyOf(lines[i], lines[j]) == k
  }

  /** The joined rows (index pairs od1, od2) that fall in group k. */
  function MatchSet(lines: seq<OrderDetail>, k: PairKey): set<(int, int)>
  {
    set i, j | 0 <= i < |lines| && 0 <= j < |lines| && JoinedAs(lines, i, j, k) :: (i, j)
  }

  /** The keys of the rows line i joins into with one of the first m lines. */
  function RowKeys(lines: seq<OrderDetail>, i: int, m: nat): seq<PairKey>
    requires 0 <= i < |lines| && m <= |lines|
  {
    if m == 0 then []
    else RowKeys(lines, i, m - 1) + (if Matches(lines[i], lines[m - 1]) then [KeyOf(lines[i], lines[m - 1])] else [])
  }

  /** The keys of all joined rows whose first line is among the first n. */
  function PairKeys(lines: seq<OrderDetail>, n: nat): seq<PairKey>
    requires n <= |lines|
  {
    if n == 0 then [] else PairKeys(lines, n - 1) + RowKeys(lines, n - 1, |lines|)
  }

  lemma {:induction false} RowKeysSound(lines: seq<OrderDetail>, i: int, m: nat, k: PairKey) returns (j: int)
    requires 0 <= i < |lines| && m <= |lines|
    requires k in RowKeys(lines, i, m)
    ensures JoinedAs(lines, i, j, k)
    decreases m
  {
    assert m > 0;
    if k !in RowKeys(lines, i, m - 1) {
      j := m - 1;
    } else {
      j := RowKeysSound(lines, i, m - 1, k);
    }
  }

  lemma {:induction false} RowKeysComplete(lines: seq<OrderDetail>, i: int, j: int, m: nat, k: PairKey)
    requires m <= |lines| && j < m && JoinedAs(lines, i, j, k)
    ensures k in RowKeys(lines, i, m)
    decreases m
  {
    if j < m - 1 {
      RowKeysComplete(lines, i, j, m - 1, k);
    }
  }

  lemma {:induction false} PairKeysSound(lines: seq<OrderDetail>, n: nat, k: PairKey) returns (i: int, j: int)
    requires n <= |lines|
    requires k in PairKeys(lines, n)
    ensures JoinedAs(lines, i, j, k)
    decreases n
  {
    assert n > 0;
    var earlier := PairKeys(lines, n - 1);
    var own := RowKeys(lines, n - 1, |lines|);
    assert PairKeys(lines, n) == earlier + own;
    if k in own {
      i := n - 1;
      j := RowKeysSound(lines, n - 1, |lines|, k);
    } else {
      assert k in earlier;
      i, j := PairKeysSound(lines, n - 1, k);
    }
  }

  lemma {:induction false} PairKeysComplete(lines: seq<OrderDetail>, n: nat, i: int, j: int, k: PairKey)
    requires n <= |lines| && i < n && JoinedAs(lines, i, j, k)
    ensures k in PairKeys(lines, n)
    decreases n
  {
    if i < n - 1 {
      PairKeysComplete(lines, n - 1, i, j, k);
    } else {
      RowKeysComplete(lines, i, j, |lines|, k);
    }
  }

  function Identity(k: PairKey): PairKey
  {
    k
  }

  function RowOf(lines: seq<OrderDetail>, k: PairKey): PairRow
  {
    PairRow(k.id1, k.name1, k.id2, k.name2, |MatchSet(lines, k)|)
  }

  predicate FrequencyDesc(a: PairRow, b: PairRow)
  {
    a.frequency >= b.frequency
  }

  /** The grouping key a result row carries. */
  function KeyOfRow(r: PairRow): PairKey
  {
    PairKey(r.product1Id, r.product1Name, r.product2Id, r.product2Name)
  }

  /** A key some joined pair produces is the key of its own row, and that row has joined rows. */
  lemma KeyRowSound(lines: seq<OrderDetail>, k: PairKey)
    requires k in PairKeys(lines, |lines|)
    ensures KeyOfRow(RowOf(lines, k)) == k
    ensures RowOf(lines, k).frequency > 0
  {
    var i, j := PairKeysSound(lines, |lines|, k);
    assert (i, j) in MatchSet(lines, k);
  }

  /** One row per distinct key, in first-seen order, each with joined rows. */
  lemma GroupRowsSound(lines: seq<OrderDetail>, ks: seq<PairKey>)
    requires ks == Keys(PairKeys(lines, |lines|), Identity)
    ensures var g := Map(ks, (k: PairKey) => RowOf(lines, k));
      (forall n :: 0 <= n < |g| ==> g[n] == RowOf(lines, KeyOfRow(g[n])) && g[n].frequency > 0) &&
      (forall a, b :: 0 <= a < b < |g| ==> g[a] != g[b])
  {
    var g := Map(ks, (k: PairKey) => RowOf(lines, k));
    forall n | 0 <= n < |g|
      ensures g[n] == RowOf(lines, KeyOfRow(g[n])) && g[n].frequency > 0
    {
      assert ks[n] in ks;
      var m :| 0 <= m < |PairKeys(lines, |lines|)| && Identity(PairKeys(lines, |lines|)[m]) == ks[n];
      assert PairKeys(lines, |lines|)[m] == ks[n];
      KeyRowSound(lines, ks[n]);
    }
    forall a, b | 0 <= a < b < |g|
      ensures g[a] != g[b]
    {
      assert KeyOfRow(g[a]) == ks[a] && KeyOfRow(g[b]) == ks[b];
    }
  }

  /**
   * Every group of joined rows, most frequent first (before the limit): each
   * row is the row of its own key and has joined rows, and no key is listed twice.
   */
  function CrossSellGroups(lines: seq<OrderDetail>): (rows: seq<PairRow>)
    ensures SortedBy(rows, FrequencyDesc)
    ensures forall n :: 0 <= n < |rows| ==> rows[n] == RowOf(lines, KeyOfRow(rows[n])) && rows[n].frequency > 0
    ensures forall a, b :: 0 <= a < b < |rows| ==> KeyOfRow(rows[a]) != KeyOfRow(rows[b])
  {
    var ks := Keys(PairKeys(lines, |lines|), Identity);
    var groups := Map(ks, (k: PairKey) => RowOf(lines, k));
    GroupRowsSound(lines, ks);
    var rows := SortBy(groups, FrequencyDesc);
    PermutationDistinct(groups, rows);
    assert forall n :: 0 <= n < |rows| ==> rows[n] in multiset(groups);
    rows
  }

  /**
   * `findProductCrossSellRelationships(limit)`: the first `limit` groups.  A
   * negative limit is not a valid `LIMIT`, and the database refuses the query.
   */
  function CrossSell(lines: seq<OrderDetail>, limit: int): (r: Result<seq<PairRow>>)
    ensures r.Failure? <==> limit < 0
    ensures r.Success? ==> |r.value| == if limit < |CrossSellGroups(lines)| then limit else |CrossSellGroups(lines)|
    ensures r.Success? ==> r.value == CrossSellGroups(lines)[..|r.value|]
    ensures r.Success? ==> SortedBy(r.value, FrequencyDesc)
  {
    if limit < 0 then Failure("SQLException")
    else
      var all := CrossSellGroups(lines);
      var rows := Take(all, limit);
      assert rows == all[..|rows|];
      Success(rows)
  }

  /** Every pair of lines that joins has its group listed before the limit is applied. */
  lemma CrossSellComplete(lines: seq<OrderDetail>, i: int, j: int, k: PairKey)
    requires JoinedAs(lines, i, j, k)
    ensures RowOf(lines, k) in CrossSellGroups(lines)
  {
    PairKeysComplete(lines, |lines|, i, j, k);
    var ks := Keys(PairKeys(lines, |lines|), Identity);
    var n :| 0 <= n < |PairKeys(lines, |lines|)| && PairKeys(lines, |lines|)[n] == k;
    assert Identity(PairKeys(lines, |lines|)[n]) == k;
    assert k in ks;
    var g := (k: PairKey) => RowOf(lines, k);
    assert g(k) in Map(ks, g);
    assert g(k) in multiset(Map(ks, g));
    assert g(k) in multiset(CrossSellGroups(lines));
  }

  /** The swap of a set of index pairs has as many elements. */
  lemma {:induction false} SwapCardinality(a: set<(int, int)>)
    ensures |set p | p in a :: (p.1, p.0)| == |a|
    decreases |a|
  {
    if a != {} {
      var x :| x in a;
      var rest := a - {x};
      SwapCardinality(rest);
      var sw := set p | p in a :: (p.1, p.0);
      var swRest := set p | p in rest :: (p.1, p.0);
      assert sw == swRest + {(x.1, x.0)};
      assert (x.1, x.0) !in swRest;
    }
  }

  /** (A, B) and (B, A) are joined equally often: each joined row read backwards is a row of the swapped group. */
  lemma PairFrequencySymmetric(lines: seq<OrderDetail>, k: PairKey)
    ensures |MatchSet(lines, Swap(k))| == |MatchSet(lines, k)|
  {
    var a := MatchSet(lines, k);
    var b := MatchSet(lines, Swap(k));
    assert b == set p | p in a :: (p.1, p.0) by {
      forall p | p in b
        ensures p in set q | q in a :: (q.1, q.0)
      {
        assert (p.1, p.0) in a;
      }
    }
    SwapCardinality(a);
  }

  /** A product is never paired with itself: every group with joined rows has two different product ids. */
  lemma NoSelfPairs(lines: seq<OrderDetail>, k: PairKey)
    requires |MatchSet(lines, k)| > 0
    ensures k.id1 != k.id2
  {
    var p :| p in MatchSet(lines, k);
  }

  /** Every listed pair has joined rows, so it pairs two different products, and its frequency is the number of those rows. */
  lemma CrossSellRows(lines: seq<OrderDetail>, limit: int, r: PairRow)
    requires CrossSell(lines, limit).Success? && r in CrossSell(lines, limit).value
    ensures r.frequency >= 1 && r.product1Id != r.product2Id
    ensures r.frequency == |MatchSet(lines, KeyOfRow(r))|
  {
    var all := CrossSellGroups(lines);
    var rows := CrossSell(lines, limit).value;
    var i :| 0 <= i < |rows| && rows[i] == r;
    assert r == all[i];
    NoSelfPairs(lines, KeyOfRow(r));
  }

  // ---- getBasketAnalysis ----------------------------------------------------

  /** A query row as the controller reads it: any column may be NULL. */
  datatype RawPair = RawPair(
    product1Id: Option<int>,
    product1Name: Option<string>,
    product2Id: Option<int>,
    product2Name: Option<string>,
    frequency: Option<int>)

  datatype BasketPair = BasketPair(product1Id: int, product1Name: string, product2Id: int, product2Name: string, frequency: int)

  /** Rows with both ids and the frequency present are kept. */
  predicate Complete(r: RawPair)
  {
    r.product1Id.Some? && r.product2Id.Some? && r.frequency.Some?
  }

  /** A kept row, with a missing name shown as "Unknown". */
  function Format(r: RawPair): BasketPair
    requires Complete(r)
  {
    BasketPair(r.product1Id.value, if r.product1Name.Some? then r.product1Name.value else "Unknown",
               r.product2Id.value, if r.product2Name.Some? then r.product2Name.value else "Unknown",
               r.frequency.value)
  }

  /** The controller's loop: incomplete rows are skipped, the others formatted in order. */
  function BasketRows(raw: seq<RawPair>): (out: seq<BasketPair>)
    ensures |out| == Count(raw, Complete)
    ensures forall p :: p in out <==> exists r :: r in raw && Complete(r) && p == Format(r)
    decreases |raw|
  {
    if |raw| == 0 then []
    else
      var init := raw[..|raw| - 1];
      var r := raw[|raw| - 1];
      assert forall x :: x in raw <==> x in init || x == r;
      BasketRows(init) + (if Complete(r) then [Format(r)] else [])
  }

  function AsRaw(r: PairRow): RawPair
  {
    RawPair(Some(r.product1Id), Some(r.product1Name), Some(r.product2Id), Some(r.product2Name), Some(r.frequency))
  }

  /** On what the query returns nothing is skipped and no name is replaced. */
  lemma {:induction false} BasketKeepsQueryRows(rows: seq<PairRow>)
    ensures BasketRows(Map(rows, AsRaw)) ==
      Map(rows, (r: PairRow) => BasketPair(r.product1Id, r.product1Name, r.product2Id, r.product2Name, r.frequency))
    decreases |rows|
  {
    if |rows| > 0 {
      var init := rows[..|rows| - 1];
      var last := rows[|rows| - 1];
      BasketKeepsQueryRows(init);
      var raw := Map(rows, AsRaw);
      MapSnoc(rows, AsRaw);
      assert raw[..|raw| - 1] == Map(init, AsRaw);
      var g := (r: PairRow) => BasketPair(r.product1Id, r.product1Name, r.product2Id, r.product2Name, r.frequency);
      assert Complete(AsRaw(last)) && Format(AsRaw(last)) == g(last);
      assert BasketRows(raw) == BasketRows(Map(init, AsRaw)) + [g(last)];
      MapSnoc(rows, g);
    }
  }
}
