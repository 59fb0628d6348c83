/**
 * The accumulation loop the reports share: for each element in turn,
 * `totals.put(k, totals.getOrDefault(k, 0) + f(x))` and
 * `counts.put(k, counts.getOrDefault(k, 0) + 1)` on insertion-ordered maps.
 * The maps' key order is kept as a sequence beside them.
 */
module Grouping {
  import opened Seqs

  /** The totals map after the loop has seen s: `getOrDefault(k, 0) + f(x)` for each element in turn. */
  function TotalsMap<T, K(!new)>(s: seq<T>, key: T -> K, f: T -> int): map<K, int>
    decreases |s|
  {
    if |s| == 0 then map[]
    else
      var m := TotalsMap(s[..|s| - 1], key, f);
      var k := key(s[|s| - 1]);
      m[k := (if k in m then m[k] else 0) + f(s[|s| - 1])]
  }

  /** The counts map after the loop has seen s: `getOrDefault(k, 0) + 1` for each element in turn. */
  function CountsMap<T, K(!new)>(s: seq<T>, key: T -> K): map<K, nat>
    decreases |s|
  {
    if |s| == 0 then map[]
    else
      var m := CountsMap(s[..|s| - 1], key);
      var k := key(s[|s| - 1]);
      m[k := (if k in m then m[k] else 0) + 1]
  }

  /** The totals map holds exactly the keys seen, each with its group's sum. */
  lemma {:induction false} TotalsMapSpec<T, K(!new)>(s: seq<T>, key: T -> K, f: T -> int)
    ensures forall k :: k in TotalsMap(s, key, f) <==> k in Keys(s, key)
    ensures forall k :: k in TotalsMap(s, key, f) ==> TotalsMap(s, key, f)[k] == SumKeyed(s, key, k, f)
    decreases |s|
  {
    if |s| > 0 {
      var i := |s| - 1;
      assert s[..i + 1] == s;
      TotalsMapSpec(s[..i], key, f);
      KeysStep(s, i, key);
      SumKeyedStep(s, i, key, f, TotalsMap(s[..i], key, f), TotalsMap(s, key, f));
    }
  }

  /** The counts map is a tally of s. */
  lemma {:induction false} CountsMapSpec<T, K(!new)>(s: seq<T>, key: T -> K)
    ensures Tallies(CountsMap(s, key), s, key)
    decreases |s|
  {
    if |s| > 0 {
      var i := |s| - 1;
      assert s[..i + 1] == s;
      CountsMapSpec(s[..i], key);
      TallyStep(s, i, key, CountsMap(s[..i], key), CountsMap(s, key));
    }
  }

  /** After the loop the key order is the first-seen order of the keys, and each entry is its group's sum and size. */
  method AccumulateByKey<T, K(==, !new)>(s: seq<T>, key: T -> K, f: T -> int)
    returns (keys: seq<K>, totals: map<K, int>, counts: map<K, nat>)
    ensures keys == Keys(s, key) && totals == TotalsMap(s, key, f) && counts == CountsMap(s, key)
    ensures forall k :: k in totals <==> k in keys
    ensures forall k :: k in counts <==> k in keys
    ensures forall k :: k in totals ==> totals[k] == SumKeyed(s, key, k, f)
    ensures forall k :: k in counts ==> counts[k] == CountKey(s, key, k) > 0
  {
    keys := [];
    totals := map[];
    counts := map[];
    for i := 0 to |s|
      invariant keys == KeyOrder(s[..i], key)
      invariant totals == TotalsMap(s[..i], key, f)
      invariant counts == CountsMap(s[..i], key)
    {
      var k := key(s[i]);
      assert s[..i + 1][..i] == s[..i];
      if k !in keys {
        keys := keys + [k];
      }
      var total := if k in totals then totals[k] else 0;
      var count := if k in counts then counts[k] else 0;
      totals := totals[k := total + f(s[i])];
      counts := counts[k := count + 1];
    }
    assert s[..|s|] == s;
    TotalsMapSpec(s, key, f);
    CountsMapSpec(s, key);
    TallyKeys(s, key, counts);
  }
}
