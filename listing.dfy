/**
 * Client-side paging shared by the search page and the admin lists: page p
 * (counted from 1) of a list shows its items from (p - 1) * size up to
 * p * size, and the number of pages is the ceiling of the item count over
 * the page size.
 */
module Listing {
  import opened Seqs

  /** `Math.ceil(n / size)`. */
  function PageCount(n: nat, size: nat): (c: nat)
    requires size > 0
    ensures n <= c * size
    ensures c > 0 ==> (c - 1) * size < n
    ensures c == 0 <==> n == 0
  {
    (n + size - 1) / size
  }

  /** `items.slice((page - 1) * size, page * size)`. */
  function PageOf<T>(items: seq<T>, page: int, size: nat): seq<T>
  {
    Slice(items, (page - 1) * size, page * size)
  }

  lemma MulStep(a: int, n: int)
    ensures (a + 1) * n == a * n + n
  {
  }

  lemma MulMonotone(a: int, b: int, n: nat)
    requires a <= b
    ensures a * n <= b * n
  {
    assert b * n - a * n == (b - a) * n;
  }

  /** A page from the first on holds at most size items, the ones at its offsets, and is full unless it is the last. */
  lemma PageContents<T>(items: seq<T>, page: int, size: nat)
    requires page >= 1 && size > 0
    ensures var r := PageOf(items, page, size);
      var start := (page - 1) * size;
      |r| <= size &&
      (forall i :: 0 <= i < |r| ==> start + i < |items| && r[i] == items[start + i]) &&
      |r| == (if start >= |items| then 0 else if |items| - start < size then |items| - start else size)
  {
    var start := (page - 1) * size;
    MulStep(page - 1, size);
    MulMonotone(0, page - 1, size);
    SliceWindow(items, start, size);
  }

  /** Every item is shown on exactly one page among 1 .. PageCount, at its offset within that page. */
  lemma EveryItemOnAPage<T>(items: seq<T>, size: nat, i: int)
    requires size > 0 && 0 <= i < |items|
    ensures var p := i / size + 1;
      1 <= p <= PageCount(|items|, size) &&
      0 <= i - (p - 1) * size < |PageOf(items, p, size)| &&
      PageOf(items, p, size)[i - (p - 1) * size] == items[i]
  {
    var q := i / size;
    DivBounds(i, size);
    var p := q + 1;
    assert (p - 1) * size == q * size;
    PageContents(items, p, size);
    var c := PageCount(|items|, size);
    if c <= q {
      MulMonotone(c, q, size);
    }
  }

  lemma DivBounds(i: nat, size: nat)
    requires size > 0
    ensures (i / size) * size <= i < (i / size) * size + size
  {
  }

  /** Pages are disjoint: an item at offset k of page p is not at any offset of another page. */
  lemma PagesDisjoint(size: nat, p: int, q: int, k: int, m: int)
    requires size > 0 && p >= 1 && q >= 1 && p != q
    requires 0 <= k < size && 0 <= m < size
    ensures (p - 1) * size + k != (q - 1) * size + m
  {
    if p < q {
      MulStep(p - 1, size);
      MulMonotone(p, q - 1, size);
    } else {
      MulStep(q - 1, size);
      MulMonotone(q, p - 1, size);
    }
  }
}
