/**
 * Sequence folds shared by every report: sums, counts, filters, distinct keys
 * in first-seen order, and a sort.  Each fold walks its input from the
 * left, as the Java loops, streams and JavaScript `reduce` calls do, so the
 * loop invariants elsewhere can say "the state so far is the fold of the
 * prefix read so far".
 */
module Seqs {

  datatype Option<T> = None | Some(value: T)

  /** The outcome of a computation that can fail; `Failure` carries the exception that ends it. */
  datatype Result<T> = Success(value: T) | Failure(error: string)

  /**
   * An exact quotient standing for a floating-point rate: `num * 1.0 / den`,
   * before the reports round it.  The denominator is positive.
   */
  datatype Ratio = Ratio(num: int, den: int)

  /** `whole > 0 ? part * 100.0 / whole : 0`, the percentage every report computes. */
  function Percent(part: int, whole: int): Ratio
  {
    if whole > 0 then Ratio(part * 100, whole) else Ratio(0, 1)
  }

  /**
   * Java's integer `/` on `long`/`int`: the quotient truncated toward zero,
   * so the remainder takes the sign of the dividend.
   */
  function Quot(a: int, b: int): (q: int)
    requires b != 0
    ensures a >= 0 ==> 0 <= a - q * b < (if b > 0 then b else -b)
    ensures a < 0 ==> -(if b > 0 then b else -b) < a - q * b <= 0
  {
    if b > 0 then (if a >= 0 then a / b else -((-a) / b))
    else (if a >= 0 then -(a / (-b)) else (-a) / (-b))
  }

  /**
   * Java's `Math.round` of an exact ratio: the integer nearest to num/den,
   * halves rounded up (the floor of num/den + 1/2).  Only ratios with a
   * positive denominator are rounded; any other gives 0.
   */
  function MathRound(v: Ratio): (r: int)
    ensures v.den > 0 ==> 2 * r * v.den <= 2 * v.num + v.den < 2 * (r + 1) * v.den
  {
    if v.den > 0 then
      var d := 2 * v.den;
      var q := (2 * v.num + v.den) / d;
      assert 2 * v.num + v.den == d * q + (2 * v.num + v.den) % d;
      q
    else 0
  }

  /** Exactly one integer lies within a half of num/den from below: the rounding is the nearest integer, halves up. */
  lemma MathRoundUnique(v: Ratio, k: int)
    requires v.den > 0
    requires 2 * k * v.den <= 2 * v.num + v.den < 2 * (k + 1) * v.den
    ensures k == MathRound(v)
  {
    var r := MathRound(v);
    LessByFactor(2 * k, 2 * (r + 1), v.den);
    LessByFactor(2 * r, 2 * (k + 1), v.den);
  }

  /** Dividing both sides of a strict inequality by a positive factor. */
  lemma LessByFactor(a: int, b: int, d: int)
    requires d > 0 && a * d < b * d
    ensures a < b
  {
    assert (b - a) * d == b * d - a * d;
  }

  /** Σ f(x) for x in s. */
  function Sum<T>(s: seq<T>, f: T -> int): int
    decreases |s|
  {
    if |s| == 0 then 0 else Sum(s[..|s| - 1], f) + f(s[|s| - 1])
  }

  lemma {:induction false} SumAppend<T>(a: seq<T>, b: seq<T>, f: T -> int)
    ensures Sum(a + b, f) == Sum(a, f) + Sum(b, f)
    decreases |b|
  {
    if |b| == 0 {
      assert a + b == a;
    } else {
      assert (a + b)[..|a + b| - 1] == a + b[..|b| - 1];
      SumAppend(a, b[..|b| - 1], f);
    }
  }

  lemma {:induction false} SumNonNegative<T>(s: seq<T>, f: T -> int)
    requires forall i :: 0 <= i < |s| ==> f(s[i]) >= 0
    ensures Sum(s, f) >= 0
    decreases |s|
  {
    if |s| > 0 {
      SumNonNegative(s[..|s| - 1], f);
    }
  }

  lemma {:induction false} SumZeroes<T>(s: seq<T>, f: T -> int)
    requires forall i :: 0 <= i < |s| ==> f(s[i]) == 0
    ensures Sum(s, f) == 0
    decreases |s|
  {
    if |s| > 0 {
      SumZeroes(s[..|s| - 1], f);
    }
  }

  /** Replacing one element changes the sum by the difference of the two summands. */
  lemma {:induction false} SumUpdate<T>(s: seq<T>, k: int, y: T, f: T -> int)
    requires 0 <= k < |s|
    ensures Sum(s[k := y], f) == Sum(s, f) - f(s[k]) + f(y)
    decreases |s|
  {
    var init := s[..|s| - 1];
    if k == |s| - 1 {
      assert s[k := y][..|s| - 1] == init;
    } else {
      assert s[k := y][..|s| - 1] == init[k := y];
      SumUpdate(init, k, y, f);
    }
  }

  /** f applied to every element, in order. */
  function Map<T(!new), U(!new)>(s: seq<T>, f: T -> U): (r: seq<U>)
    ensures |r| == |s|
    ensures forall i :: 0 <= i < |s| ==> r[i] == f(s[i])
    ensures forall y :: y in r <==> exists x :: x in s && y == f(x)
  {
    var r := seq(|s|, i requires 0 <= i < |s| => f(s[i]));
    assert forall x :: x in s ==> exists i :: 0 <= i < |s| && s[i] == x && r[i] == f(x);
    r
  }

  /** Sums of pointwise-equal summands agree. */
  lemma {:induction false} SumCongruent<T>(s: seq<T>, f: T -> int, g: T -> int)
    requires forall i :: 0 <= i < |s| ==> f(s[i]) == g(s[i])
    ensures Sum(s, f) == Sum(s, g)
    decreases |s|
  {
    if |s| > 0 {
      SumCongruent(s[..|s| - 1], f, g);
    }
  }

  /** Mapping a sequence with one more element at the end maps the element onto the end. */
  lemma MapSnoc<T(!new), U(!new)>(s: seq<T>, f: T -> U)
    requires |s| > 0
    ensures Map(s, f) == Map(s[..|s| - 1], f) + [f(s[|s| - 1])]
  {
    var a := Map(s, f);
    var b := Map(s[..|s| - 1], f) + [f(s[|s| - 1])];
    assert |a| == |b|;
    forall i | 0 <= i < |a|
      ensures a[i] == b[i]
    {
      if i < |s| - 1 {
        assert b[i] == Map(s[..|s| - 1], f)[i] == f(s[..|s| - 1][i]);
      }
    }
  }

  /** Summing over a mapped sequence is summing the composed function. */
  lemma {:induction false} SumMap<T(!new), U(!new)>(s: seq<T>, g: T -> U, f: U -> int, h: T -> int)
    requires forall x :: h(x) == f(g(x))
    ensures Sum(Map(s, g), f) == Sum(s, h)
    decreases |s|
  {
    if |s| > 0 {
      var init := s[..|s| - 1];
      assert Map(s, g)[..|s| - 1] == Map(init, g);
      SumMap(init, g, f, h);
    }
  }

  /** Number of elements of s satisfying p. */
  function Count<T>(s: seq<T>, p: T -> bool): (n: nat)
    ensures n <= |s|
    ensures n == |s| <==> forall i :: 0 <= i < |s| ==> p(s[i])
    ensures n == 0 <==> forall i :: 0 <= i < |s| ==> !p(s[i])
    decreases |s|
  {
    if |s| == 0 then 0
    else
      var init := s[..|s| - 1];
      assert forall i :: 0 <= i < |init| ==> init[i] == s[i];
      Count(init, p) + (if p(s[|s| - 1]) then 1 else 0)
  }

  /** Extending a prefix by one element adds one to the count when that element is picked. */
  lemma CountStep<T>(s: seq<T>, i: int, p: T -> bool)
    requires 0 <= i < |s|
    ensures Count(s[..i + 1], p) == Count(s[..i], p) + (if p(s[i]) then 1 else 0)
  {
    assert s[..i + 1][..i] == s[..i];
  }

  /** A weaker predicate picks out at least as many elements. */
  lemma {:induction false} CountImplies<T>(s: seq<T>, p: T -> bool, q: T -> bool)
    requires forall x :: p(x) ==> q(x)
    ensures Count(s, p) <= Count(s, q)
    decreases |s|
  {
    if |s| > 0 {
      CountImplies(s[..|s| - 1], p, q);
    }
  }

  /** Two predicates that never hold together pick out at most |s| elements between them. */
  lemma {:induction false} CountDisjoint<T>(s: seq<T>, p: T -> bool, q: T -> bool)
    requires forall x :: !(p(x) && q(x))
    ensures Count(s, p) + Count(s, q) <= |s|
    decreases |s|
  {
    if |s| > 0 {
      CountDisjoint(s[..|s| - 1], p, q);
    }
  }

  /** An element either satisfies p or its complement, so the two counts add up to |s|. */
  lemma {:induction false} CountComplement<T>(s: seq<T>, p: T -> bool, q: T -> bool)
    requires forall x :: q(x) == !p(x)
    ensures Count(s, p) + Count(s, q) == |s|
    decreases |s|
  {
    if |s| > 0 {
      CountComplement(s[..|s| - 1], p, q);
    }
  }

  lemma {:induction false} CountAppend<T>(a: seq<T>, b: seq<T>, p: T -> bool)
    ensures Count(a + b, p) == Count(a, p) + Count(b, p)
    decreases |b|
  {
    if |b| == 0 {
      assert a + b == a;
    } else {
      assert (a + b)[..|a + b| - 1] == a + b[..|b| - 1];
      CountAppend(a, b[..|b| - 1], p);
    }
  }

  /** Elements of s satisfying p, in their original order (`Array.filter`). */
  function Filter<T(!new)>(s: seq<T>, p: T -> bool): (r: seq<T>)
    ensures |r| == Count(s, p)
    ensures forall x :: x in r <==> x in s && p(x)
    decreases |s|
  {
    if |s| == 0 then []
    else
      var init := s[..|s| - 1];
      assert s == init + [s[|s| - 1]];
      Filter(init, p) + (if p(s[|s| - 1]) then [s[|s| - 1]] else [])
  }

  /** r can be obtained from s by deleting elements (order kept). */
  predicate IsSubsequence<T(==)>(r: seq<T>, s: seq<T>)
    decreases |s|
  {
    if |r| == 0 then true
    else if |s| == 0 then false
    else if r[|r| - 1] == s[|s| - 1] then IsSubsequence(r[..|r| - 1], s[..|s| - 1])
    else IsSubsequence(r, s[..|s| - 1])
  }

  lemma {:induction false} FilterIsSubsequence<T(!new)>(s: seq<T>, p: T -> bool)
    ensures IsSubsequence(Filter(s, p), s)
    decreases |s|
  {
    if |s| > 0 {
      var init := s[..|s| - 1];
      FilterIsSubsequence(init, p);
      if p(s[|s| - 1]) {
        var r := Filter(s, p);
        assert r[..|r| - 1] == Filter(init, p);
      } else {
        var r := Filter(init, p);
        assert Filter(s, p) == r;
        if |r| > 0 {
          assert r[|r| - 1] in r;
        }
      }
    }
  }

  /** Filtering by a predicate every element satisfies keeps the sequence. */
  lemma {:induction false} FilterKeepsAll<T(!new)>(s: seq<T>, p: T -> bool)
    requires forall i :: 0 <= i < |s| ==> p(s[i])
    ensures Filter(s, p) == s
    decreases |s|
  {
    if |s| > 0 {
      var init := s[..|s| - 1];
      assert s == init + [s[|s| - 1]];
      FilterKeepsAll(init, p);
    }
  }

  /** Filtering twice is filtering once by both predicates. */
  lemma {:induction false} FilterFilter<T(!new)>(s: seq<T>, p: T -> bool, q: T -> bool, pq: T -> bool)
    requires forall x :: pq(x) == (p(x) && q(x))
    ensures Filter(Filter(s, p), q) == Filter(s, pq)
    decreases |s|
  {
    if |s| > 0 {
      var init := s[..|s| - 1];
      var last := s[|s| - 1];
      FilterFilter(init, p, q, pq);
      var a := Filter(init, p);
      if p(last) {
        assert Filter(s, p) == a + [last];
        assert (a + [last])[..|a|] == a;
      } else {
        assert Filter(s, p) == a;
      }
    }
  }

  /** Sum over the elements that satisfy p equals the sum over the filtered sequence. */
  lemma {:induction false} SumFilter<T(!new)>(s: seq<T>, p: T -> bool, f: T -> int)
    ensures Sum(Filter(s, p), f) == Sum(s, (x: T) => if p(x) then f(x) else 0)
    decreases |s|
  {
    if |s| > 0 {
      var init := s[..|s| - 1];
      SumFilter(init, p, f);
      SumAppend(Filter(init, p), if p(s[|s| - 1]) then [s[|s| - 1]] else [], f);
    }
  }

  /** The same, with the masked summand given as a function of its own. */
  lemma SumFilterBy<T(!new)>(s: seq<T>, p: T -> bool, f: T -> int, h: T -> int)
    requires forall x :: h(x) == if p(x) then f(x) else 0
    ensures Sum(Filter(s, p), f) == Sum(s, h)
  {
    SumFilter(s, p, f);
    SumCongruent(s, (x: T) => if p(x) then f(x) else 0, h);
  }

  /** The value of `Collectors.groupingBy(key, counting())` at k. */
  function CountKey<T, K(==)>(s: seq<T>, key: T -> K, k: K): (n: nat)
    ensures n <= |s|
    ensures n > 0 <==> exists i :: 0 <= i < |s| && key(s[i]) == k
    decreases |s|
  {
    if |s| == 0 then 0
    else
      var init := s[..|s| - 1];
      assert forall i :: 0 <= i < |init| ==> init[i] == s[i];
      CountKey(init, key, k) + (if key(s[|s| - 1]) == k then 1 else 0)
  }

  /** Counting the elements a predicate picks out equals counting a key, when the predicate tests that key. */
  lemma {:induction false} CountIsCountKey<T, K(!new)>(s: seq<T>, p: T -> bool, key: T -> K, k: K)
    requires forall x :: p(x) == (key(x) == k)
    ensures Count(s, p) == CountKey(s, key, k)
    decreases |s|
  {
    if |s| > 0 {
      CountIsCountKey(s[..|s| - 1], p, key, k);
    }
  }

  /** Distinct keys of s in first-seen order (the key order of a LinkedHashMap). */
  function Keys<T, K(==, !new)>(s: seq<T>, key: T -> K): (ks: seq<K>)
    ensures forall k :: k in ks <==> exists i :: 0 <= i < |s| && key(s[i]) == k
    ensures forall i, j :: 0 <= i < j < |ks| ==> ks[i] != ks[j]
  {
    KeyOrderSpec(s, key);
    KeyOrder(s, key)
  }

  /** The key order built one element at a time: a key is appended the first time it is seen. */
  function KeyOrder<T, K(==, !new)>(s: seq<T>, key: T -> K): seq<K>
    decreases |s|
  {
    if |s| == 0 then []
    else
      var ks := KeyOrder(s[..|s| - 1], key);
      var k := key(s[|s| - 1]);
      if k in ks then ks else ks + [k]
  }

  lemma {:induction false} KeyOrderSpec<T, K(!new)>(s: seq<T>, key: T -> K)
    ensures forall k :: k in KeyOrder(s, key) <==> exists i :: 0 <= i < |s| && key(s[i]) == k
    ensures forall i, j :: 0 <= i < j < |KeyOrder(s, key)| ==> KeyOrder(s, key)[i] != KeyOrder(s, key)[j]
    decreases |s|
  {
    if |s| > 0 {
      var init := s[..|s| - 1];
      var last := key(s[|s| - 1]);
      KeyOrderSpec(init, key);
      assert forall i :: 0 <= i < |init| ==> init[i] == s[i];
      var ks := KeyOrder(s, key);
      forall k
        ensures k in ks <==> exists i :: 0 <= i < |s| && key(s[i]) == k
      {
        if k == last {
          assert key(s[|s| - 1]) == k;
        } else {
          assert k in ks <==> k in KeyOrder(init, key);
        }
      }
    }
  }

  /** The keys of a prefix one element longer: that element's key is appended when it is new. */
  lemma KeysStep<T, K(!new)>(s: seq<T>, i: int, key: T -> K)
    requires 0 <= i < |s|
    ensures var ks := Keys(s[..i], key);
      Keys(s[..i + 1], key) == if key(s[i]) in ks then ks else ks + [key(s[i])]
  {
    assert s[..i + 1][..i] == s[..i];
  }

  /** Every key listed has at least one element. */
  lemma KeysCounted<T, K(!new)>(s: seq<T>, key: T -> K)
    ensures forall i :: 0 <= i < |Keys(s, key)| ==> CountKey(s, key, Keys(s, key)[i]) > 0
  {
    forall i | 0 <= i < |Keys(s, key)|
      ensures CountKey(s, key, Keys(s, key)[i]) > 0
    {
      assert Keys(s, key)[i] in Keys(s, key);
    }
  }

  /** `m` maps each key of `s` to the number of elements with that key, and holds no other key. */
  ghost predicate Tallies<T, K(!new)>(m: map<K, nat>, s: seq<T>, key: T -> K)
  {
    forall b :: (b in m <==> CountKey(s, key, b) > 0) && (b in m ==> m[b] == CountKey(s, key, b))
  }

  /** `m.put(k, m.getOrDefault(k, 0) + 1)` keeps a tally of a growing prefix. */
  lemma TallyStep<T, K(!new)>(s: seq<T>, i: int, key: T -> K, m: map<K, nat>, next: map<K, nat>)
    requires 0 <= i < |s|
    requires Tallies(m, s[..i], key)
    requires next == m[key(s[i]) := (if key(s[i]) in m then m[key(s[i])] else 0) + 1]
    ensures Tallies(next, s[..i + 1], key)
  {
    assert s[..i + 1][..i] == s[..i];
  }

  /** A tally's keys are the keys of the sequence. */
  lemma TallyKeys<T, K(!new)>(s: seq<T>, key: T -> K, m: map<K, nat>)
    requires Tallies(m, s, key)
    ensures forall b :: b in m <==> b in Keys(s, key)
    ensures forall b :: b in m ==> m[b] == CountKey(s, key, b) > 0
  {
  }

  /** Counting every key once covers every element once: Σ_k CountKey(k) = |s|. */
  lemma {:induction false} CountKeysPartition<T, K(!new)>(s: seq<T>, key: T -> K)
    ensures Sum(Keys(s, key), (k: K) => CountKey(s, key, k)) == |s|
    decreases |s|
  {
    if |s| > 0 {
      var init := s[..|s| - 1];
      var x := s[|s| - 1];
      var k := key(x);
      var ks := Keys(init, key);
      CountKeysPartition(init, key);
      var fNew := (j: K) => CountKey(s, key, j);
      var fOld := (j: K) => CountKey(init, key, j);
      SumShiftAt(ks, fNew, fOld, k);
      if k !in ks {
        SumAppend(ks, [k], fNew);
        SumAbsent(ks, init, key, k);
      }
    }
  }

  /** Distinct g-values among the elements with key k: `COUNT(DISTINCT g)` within one group. */
  function DistinctKeyed<T, K(==), V(!new)>(s: seq<T>, key: T -> K, k: K, g: T -> V): set<V>
  {
    set i | 0 <= i < |s| && key(s[i]) == k :: g(s[i])
  }

  /** A group has no more distinct values than elements, and at least one when it is non-empty. */
  lemma {:induction false} DistinctKeyedBound<T, K, V(!new)>(s: seq<T>, key: T -> K, k: K, g: T -> V)
    ensures |DistinctKeyed(s, key, k, g)| <= CountKey(s, key, k)
    ensures CountKey(s, key, k) > 0 ==> |DistinctKeyed(s, key, k, g)| > 0
    decreases |s|
  {
    if |s| > 0 {
      var init := s[..|s| - 1];
      var x := s[|s| - 1];
      DistinctKeyedBound(init, key, k, g);
      var extra: set<V> := if key(x) == k then {g(x)} else {};
      assert DistinctKeyed(s, key, k, g) <= DistinctKeyed(init, key, k, g) + extra by {
        forall v | v in DistinctKeyed(s, key, k, g)
          ensures v in DistinctKeyed(init, key, k, g) + extra
        {
          var i :| 0 <= i < |s| && key(s[i]) == k && g(s[i]) == v;
          if i < |init| {
            assert init[i] == s[i];
          }
        }
      }
      SubsetCardinality(DistinctKeyed(s, key, k, g), DistinctKeyed(init, key, k, g) + extra);
      if CountKey(s, key, k) > 0 {
        var i :| 0 <= i < |s| && key(s[i]) == k;
        assert g(s[i]) in DistinctKeyed(s, key, k, g);
      }
    }
  }

  /** Two functions that agree except for +1 at one key of a duplicate-free sequence. */
  lemma {:induction false} SumShiftAt<K(!new)>(ks: seq<K>, g: K -> int, f: K -> int, k: K)
    requires forall i, j :: 0 <= i < j < |ks| ==> ks[i] != ks[j]
    requires forall j :: j != k ==> g(j) == f(j)
    requires g(k) == f(k) + 1
    ensures Sum(ks, g) == Sum(ks, f) + (if k in ks then 1 else 0)
    decreases |ks|
  {
    if |ks| > 0 {
      var init := ks[..|ks| - 1];
      assert forall j :: j in ks <==> j in init || j == ks[|ks| - 1];
      SumShiftAt(init, g, f, k);
    }
  }

  lemma SumAbsent<T, K>(ks: seq<K>, s: seq<T>, key: T -> K, k: K)
    requires forall i :: 0 <= i < |s| ==> key(s[i]) != k
    ensures CountKey(s, key, k) == 0
  {
  }

  /** Two functions that agree except at one key of a duplicate-free sequence, where they differ by v. */
  lemma {:induction false} SumShiftBy<K(!new)>(ks: seq<K>, g: K -> int, f: K -> int, k: K, v: int)
    requires forall i, j :: 0 <= i < j < |ks| ==> ks[i] != ks[j]
    requires forall j :: j != k ==> g(j) == f(j)
    requires g(k) == f(k) + v
    ensures Sum(ks, g) == Sum(ks, f) + (if k in ks then v else 0)
    decreases |ks|
  {
    if |ks| > 0 {
      var init := ks[..|ks| - 1];
      assert forall j :: j in ks <==> j in init || j == ks[|ks| - 1];
      SumShiftBy(init, g, f, k, v);
    }
  }

  /** The value of `groupingBy(key, summing(f))` at k: Σ f(x) over the x with key k. */
  function SumKeyed<T, K(==)>(s: seq<T>, key: T -> K, k: K, f: T -> int): int
    decreases |s|
  {
    if |s| == 0 then 0
    else SumKeyed(s[..|s| - 1], key, k, f) + (if key(s[|s| - 1]) == k then f(s[|s| - 1]) else 0)
  }

  lemma {:induction false} SumKeyedAbsent<T, K>(s: seq<T>, key: T -> K, k: K, f: T -> int)
    requires forall i :: 0 <= i < |s| ==> key(s[i]) != k
    ensures SumKeyed(s, key, k, f) == 0
    decreases |s|
  {
    if |s| > 0 {
      SumKeyedAbsent(s[..|s| - 1], key, k, f);
    }
  }

  /** `m.put(k, m.getOrDefault(k, 0) + f(x))` keeps the per-key sums of a growing prefix. */
  lemma SumKeyedStep<T, K(!new)>(s: seq<T>, i: int, key: T -> K, f: T -> int, m: map<K, int>, next: map<K, int>)
    requires 0 <= i < |s|
    requires forall k :: k in m <==> k in Keys(s[..i], key)
    requires forall k :: k in m ==> m[k] == SumKeyed(s[..i], key, k, f)
    requires next == m[key(s[i]) := (if key(s[i]) in m then m[key(s[i])] else 0) + f(s[i])]
    ensures forall k :: k in next ==> next[k] == SumKeyed(s[..i + 1], key, k, f)
  {
    assert s[..i + 1][..i] == s[..i];
    if key(s[i]) !in m {
      SumKeyedAbsent(s[..i], key, key(s[i]), f);
    }
  }

  /** Summing every group's total covers every element once: Σ_k SumKeyed(k) = Σ f. */
  lemma {:induction false} SumKeysPartition<T, K(!new)>(s: seq<T>, key: T -> K, f: T -> int)
    ensures Sum(Keys(s, key), (k: K) => SumKeyed(s, key, k, f)) == Sum(s, f)
    decreases |s|
  {
    if |s| > 0 {
      var init := s[..|s| - 1];
      var x := s[|s| - 1];
      var k := key(x);
      var ks := Keys(init, key);
      SumKeysPartition(init, key, f);
      var gNew := (j: K) => SumKeyed(s, key, j, f);
      var gOld := (j: K) => SumKeyed(init, key, j, f);
      SumShiftBy(ks, gNew, gOld, k, f(x));
      if k !in ks {
        SumAppend(ks, [k], gNew);
        SumKeyedAbsent(init, key, k, f);
      }
    }
  }

  lemma MultisetCancel<T>(m: multiset<T>, n: multiset<T>, x: T)
    requires m + multiset{x} == n + multiset{x}
    ensures m == n
  {
    forall y
      ensures m[y] == n[y]
    {
      assert (m + multiset{x})[y] == (n + multiset{x})[y];
    }
  }

  lemma RemoveAtMultiset<T>(b: seq<T>, i: int)
    requires 0 <= i < |b|
    ensures multiset(b) == multiset(b[..i] + b[i + 1..]) + multiset{b[i]}
  {
    assert b == b[..i] + [b[i]] + b[i + 1..];
  }

  /** How often y occurs in the image: the number of elements f sends to y. */
  lemma {:induction false} MapMultiplicity<T(!new), U(!new)>(s: seq<T>, f: T -> U, y: U)
    ensures multiset(Map(s, f))[y] == Sum(s, (x: T) => if f(x) == y then 1 else 0)
    decreases |s|
  {
    if |s| > 0 {
      MapMultiplicity(s[..|s| - 1], f, y);
      MapSnoc(s, f);
    }
  }

  /** Mapping two reorderings of one sequence gives two reorderings of one sequence. */
  lemma MapPermutation<T(!new), U(!new)>(a: seq<T>, b: seq<T>, f: T -> U)
    requires multiset(a) == multiset(b)
    ensures multiset(Map(a, f)) == multiset(Map(b, f))
  {
    forall y
      ensures multiset(Map(a, f))[y] == multiset(Map(b, f))[y]
    {
      MapMultiplicity(a, f, y);
      MapMultiplicity(b, f, y);
      SumPermutation(a, b, (x: T) => if f(x) == y then 1 else 0);
    }
  }

  /** Filtering a sequence without repeats keeps each chosen value exactly once. */
  lemma {:induction false} FilterMultiplicity<T(!new)>(s: seq<T>, p: T -> bool, v: T)
    requires forall i, j :: 0 <= i < j < |s| ==> s[i] != s[j]
    ensures multiset(Filter(s, p))[v] == if v in s && p(v) then 1 else 0
    decreases |s|
  {
    if |s| > 0 {
      var init := s[..|s| - 1];
      var x := s[|s| - 1];
      assert s == init + [x];
      FilterMultiplicity(init, p, v);
      if v == x {
        assert x !in init;
      }
    }
  }

  lemma RemoveAtSum<T>(b: seq<T>, i: int, f: T -> int)
    requires 0 <= i < |b|
    ensures Sum(b, f) == Sum(b[..i] + b[i + 1..], f) + f(b[i])
  {
    var before, upTo, after := b[..i], b[..i + 1], b[i + 1..];
    assert Sum(b, f) == Sum(upTo, f) + Sum(after, f) by {
      assert upTo + after == b;
      SumAppend(upTo, after, f);
    }
    assert Sum(upTo, f) == Sum(before, f) + f(b[i]) by {
      assert upTo[..i] == before;
    }
    SumAppend(before, after, f);
  }

  /** Taking out the element at i: the multiset and the sum each lose exactly that element. */
  lemma RemoveAt<T>(b: seq<T>, i: int, f: T -> int)
    requires 0 <= i < |b|
    ensures multiset(b) == multiset(b[..i] + b[i + 1..]) + multiset{b[i]}
    ensures Sum(b, f) == Sum(b[..i] + b[i + 1..], f) + f(b[i])
  {
    RemoveAtMultiset(b, i);
    RemoveAtSum(b, i, f);
  }

  /** Reordering does not change a sum. */
  lemma {:induction false} SumPermutation<T>(a: seq<T>, b: seq<T>, f: T -> int)
    requires multiset(a) == multiset(b)
    ensures Sum(a, f) == Sum(b, f)
    decreases |a|
  {
    if |a| == 0 {
      assert |b| == |multiset(b)| == 0;
    } else {
      var x := a[|a| - 1];
      var init := a[..|a| - 1];
      assert a == init + [x];
      assert x in multiset(b);
      var i :| 0 <= i < |b| && b[i] == x;
      RemoveAt(b, i, f);
      MultisetCancel(multiset(b[..i] + b[i + 1..]), multiset(init), x);
      SumPermutation(init, b[..i] + b[i + 1..], f);
    }
  }

  /** Rows built one per group, in any order, add up a per-group sum to the sum over all elements. */
  lemma GroupedTotal<T(!new), K(!new), R(!new)>(s: seq<T>, key: T -> K, g: K -> R, proj: R -> int, f: T -> int, rows: seq<R>)
    requires multiset(rows) == multiset(Map(Keys(s, key), g))
    requires forall k :: proj(g(k)) == SumKeyed(s, key, k, f)
    ensures Sum(rows, proj) == Sum(s, f)
  {
    SumPermutation(rows, Map(Keys(s, key), g), proj);
    SumMap(Keys(s, key), g, proj, (k: K) => SumKeyed(s, key, k, f));
    SumKeysPartition(s, key, f);
  }

  /** A row built one per group is the row of the key of some element. */
  lemma GroupedRow<T(!new), K(!new), R(!new)>(s: seq<T>, key: T -> K, g: K -> R, rows: seq<R>, r: R)
    requires multiset(rows) == multiset(Map(Keys(s, key), g))
    requires r in rows
    ensures exists i :: 0 <= i < |s| && r == g(key(s[i]))
  {
    var ks := Keys(s, key);
    var m := Map(ks, g);
    assert r in multiset(rows);
    assert r in multiset(m);
    assert r in m;
    var j :| 0 <= j < |m| && m[j] == r;
    var k := ks[j];
    assert k in ks;
    var i :| 0 <= i < |s| && key(s[i]) == k;
  }

  /** A total preorder: what `Comparator` promises and what a sort needs. */
  ghost predicate TotalPreorder<T(!new)>(le: (T, T) -> bool)
  {
    (forall a, b :: le(a, b) || le(b, a)) &&
    (forall a, b, c :: le(a, b) && le(b, c) ==> le(a, c))
  }

  predicate SortedBy<T>(s: seq<T>, le: (T, T) -> bool)
  {
    forall i, j :: 0 <= i < j < |s| ==> le(s[i], s[j])
  }

  /** Inserts x after every element not above it, which keeps equal elements in input order. */
  function Insert<T(!new)>(r: seq<T>, x: T, le: (T, T) -> bool): (q: seq<T>)
    requires TotalPreorder(le)
    requires SortedBy(r, le)
    ensures SortedBy(q, le)
    ensures multiset(q) == multiset(r) + multiset{x}
    decreases |r|
  {
    if |r| == 0 then [x]
    else if le(r[|r| - 1], x) then r + [x]
    else
      var init := r[..|r| - 1];
      var last := r[|r| - 1];
      assert r == init + [last];
      var q := Insert(init, x, le);
      AllBelow(q, init, x, last, le);
      q + [last]
  }

  /** Every element of a permutation of init + [x] is below last when init's elements and x are. */
  lemma AllBelow<T(!new)>(q: seq<T>, init: seq<T>, x: T, last: T, le: (T, T) -> bool)
    requires TotalPreorder(le)
    requires multiset(q) == multiset(init) + multiset{x}
    requires forall i :: 0 <= i < |init| ==> le(init[i], last)
    requires !le(last, x)
    ensures forall i :: 0 <= i < |q| ==> le(q[i], last)
  {
    forall i | 0 <= i < |q|
      ensures le(q[i], last)
    {
      assert q[i] in multiset(q);
      if q[i] != x {
        assert q[i] in multiset(init);
        var j :| 0 <= j < |init| && init[j] == q[i];
      }
    }
  }

  /**
   * The sort behind Java's `List.sort`/`Stream.sorted` and JavaScript's
   * `Array.prototype.sort`: the result is ordered by le and is a permutation
   * of the input.  The order of elements that compare equal is not stated.
   */
  function SortBy<T(!new)>(s: seq<T>, le: (T, T) -> bool): (r: seq<T>)
    requires TotalPreorder(le)
    ensures SortedBy(r, le)
    ensures multiset(r) == multiset(s)
    ensures |r| == |s|
    decreases |s|
  {
    if |s| == 0 then []
    else
      assert s == s[..|s| - 1] + [s[|s| - 1]];
      var r := Insert(SortBy(s[..|s| - 1], le), s[|s| - 1], le);
      assert |r| == |multiset(r)| == |multiset(s)| == |s|;
      r
  }

  /** `stream().filter(p).findFirst()`: the first element that satisfies p, if any. */
  function FindFirst<T>(s: seq<T>, p: T -> bool): (r: Option<T>)
    ensures r.None? <==> forall i :: 0 <= i < |s| ==> !p(s[i])
    ensures r.Some? ==> p(r.value) && exists i :: 0 <= i < |s| && s[i] == r.value && forall j :: 0 <= j < i ==> !p(s[j])
    decreases |s|
  {
    if |s| == 0 then None
    else if p(s[0]) then Some(s[0])
    else
      var r := FindFirst(s[1..], p);
      assert forall i :: 0 <= i < |s| - 1 ==> s[1..][i] == s[i + 1];
      r
  }

  /** The last element that satisfies p, if any: what a loop overwriting a field on every match leaves behind. */
  function FindLast<T>(s: seq<T>, p: T -> bool): (r: Option<T>)
    ensures r.None? <==> forall i :: 0 <= i < |s| ==> !p(s[i])
    ensures r.Some? ==> p(r.value) && exists i :: 0 <= i < |s| && s[i] == r.value && forall j :: i < j < |s| ==> !p(s[j])
    decreases |s|
  {
    if |s| == 0 then None
    else if p(s[|s| - 1]) then
      assert LastMatchAt(s, p, |s| - 1);
      Some(s[|s| - 1])
    else
      var init := s[..|s| - 1];
      assert forall i :: 0 <= i < |init| ==> init[i] == s[i];
      var r := FindLast(init, p);
      assert r.Some? ==> exists i :: 0 <= i < |s| && s[i] == r.value && forall j :: i < j < |s| ==> !p(s[j]) by {
        if r.Some? {
          var i :| 0 <= i < |init| && init[i] == r.value && forall j :: i < j < |init| ==> !p(init[j]);
          assert LastMatchAt(s, p, i);
        }
      }
      r
  }

  /** s[i] satisfies p and no later element does. */
  predicate LastMatchAt<T>(s: seq<T>, p: T -> bool, i: int)
  {
    0 <= i < |s| && p(s[i]) && forall j :: i < j < |s| ==> !p(s[j])
  }

  /** In a sequence without repeats every value occurs at most once. */
  lemma {:induction false} DistinctMultiplicity<T>(s: seq<T>, v: T)
    requires forall i, j :: 0 <= i < j < |s| ==> s[i] != s[j]
    ensures multiset(s)[v] <= 1
    decreases |s|
  {
    if |s| > 0 {
      var init := s[..|s| - 1];
      assert s == init + [s[|s| - 1]];
      DistinctMultiplicity(init, v);
      if v == s[|s| - 1] {
        assert v !in init;
      }
    }
  }

  /** A value found at two positions occurs at least twice. */
  lemma MultiplicityTwo<T>(s: seq<T>, x: int, y: int)
    requires 0 <= x < y < |s| && s[x] == s[y]
    ensures multiset(s)[s[x]] >= 2
  {
    assert s == s[..y] + [s[y]] + s[y + 1..];
    assert s[..y][x] == s[x];
  }

  /** Reordering a sequence without repeats gives a sequence without repeats. */
  lemma PermutationDistinct<T>(a: seq<T>, b: seq<T>)
    requires multiset(a) == multiset(b)
    requires forall i, j :: 0 <= i < j < |a| ==> a[i] != a[j]
    ensures forall i, j :: 0 <= i < j < |b| ==> b[i] != b[j]
  {
    forall i, j | 0 <= i < j < |b|
      ensures b[i] != b[j]
    {
      if b[i] == b[j] {
        MultiplicityTwo(b, i, j);
        DistinctMultiplicity(a, b[i]);
        assert false;
      }
    }
  }

  /** Java `Stream.limit(n)` and SQL `LIMIT n`: at most the first n elements. */
  function Take<T>(s: seq<T>, n: int): (r: seq<T>)
    ensures |r| == if n <= 0 then 0 else if n < |s| then n else |s|
    ensures forall i :: 0 <= i < |r| ==> r[i] == s[i]
  {
    if n <= 0 then [] else if n < |s| then s[..n] else s
  }

  /** JavaScript `Array.prototype.slice(start, end)`: negative bounds count from the end, both are clamped. */
  function Slice<T>(s: seq<T>, start: int, end: int): (r: seq<T>)
    ensures 0 <= start <= end ==> |r| <= end - start
    ensures 0 <= start && |s| <= end ==> r == s[if start < |s| then start else |s|..]
    ensures forall i :: 0 <= i < |r| ==> 0 <= start + i < |s| ==> r[i] == s[start + i]
    ensures start >= 0 ==> forall i :: 0 <= i < |r| ==> 0 <= start + i < |s| && r[i] == s[start + i]
    ensures forall x :: x in r ==> x in s
  {
    var lo := Clamp(if start < 0 then |s| + start else start, |s|);
    var hi := Clamp(if end < 0 then |s| + end else end, |s|);
    if hi <= lo then [] else s[lo..hi]
  }

  /** A window of size items from a non-negative start. */
  lemma SliceWindow<T>(items: seq<T>, start: int, size: nat)
    requires start >= 0
    ensures var r := Slice(items, start, start + size);
      |r| <= size &&
      (forall i :: 0 <= i < |r| ==> start + i < |items| && r[i] == items[start + i]) &&
      |r| == (if start >= |items| then 0 else if |items| - start < size then |items| - start else size)
  {
  }

  function Clamp(i: int, n: nat): (c: nat)
    ensures c <= n
    ensures 0 <= i <= n ==> c == i
  {
    if i < 0 then 0 else if i > n then n else i
  }

  /** Cardinality is monotone under inclusion. */
  lemma {:induction false} SubsetCardinality<T>(a: set<T>, b: set<T>)
    requires a <= b
    ensures |a| <= |b|
    decreases |a|
  {
    if a != {} {
      var x :| x in a;
      SubsetCardinality(a - {x}, b - {x});
    }
  }

  /** A set whose every member is the image of some element of s is no larger than s. */
  lemma {:induction false} ImageBound<T, U>(s: seq<T>, f: T -> U, t: set<U>)
    requires forall x :: x in t ==> exists i :: 0 <= i < |s| && f(s[i]) == x
    ensures |t| <= |s|
    decreases |s|
  {
    if |s| > 0 {
      var init := s[..|s| - 1];
      var y := f(s[|s| - 1]);
      var rest := t - {y};
      forall x | x in rest
        ensures exists i :: 0 <= i < |init| && f(init[i]) == x
      {
        var i :| 0 <= i < |s| && f(s[i]) == x;
        assert i < |init| && init[i] == s[i];
      }
      ImageBound(init, f, rest);
      assert t <= rest + {y};
      SubsetCardinality(t, rest + {y});
    } else {
      assert forall x :: x !in t;
      assert t == {};
    }
  }
}
