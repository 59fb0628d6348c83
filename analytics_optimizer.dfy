/**
 * The chart-data helpers of the admin analytics pages: down-sampling a
 * long series into at most a given number of points, summary statistics of
 * one field, reshaping rows for CSV export, paging and filtering.
 *
 * A data row is a JavaScript object: a map from field name to value, where
 * an absent key is `undefined`.  Numbers are integers here; the averages the
 * code divides out are exact `Ratio`s.  Rows arrive as JSON and so hold no
 * NaN, but a sum computed with JavaScript's `+` can produce one.
 */
module AnalyticsOptimizer {
  import opened Seqs
  import opened Strings

  datatype Value = Num(n: int) | Str(s: string) | Bool(b: bool) | Null | NaN

  /** `typeof v === 'number'`, which holds for NaN too. */
  predicate IsNumber(v: Value)
  {
    v.Num? || v.NaN?
  }

  type Row = map<string, Value>

  /** JavaScript `String(v)` for the values a row holds; an absent field prints as "undefined". */
  function Show(v: Option<Value>): string
  {
    match v
    case None => "undefined"
    case Some(Num(n)) => IntToString(n)
    case Some(Str(s)) => s
    case Some(Bool(b)) => if b then "true" else "false"
    case Some(Null) => "null"
    case Some(NaN) => "NaN"
  }

  function Get(row: Row, key: string): Option<Value>
  {
    if key in row then Some(row[key]) else None
  }

  /**
   * JavaScript `a + b`: with a string on either side the two are joined as
   * text; otherwise both are read as numbers, where `undefined` and NaN give
   * NaN, `null` 0 and a boolean 0 or 1.
   */
  function Plus(a: Value, b: Option<Value>): (r: Value)
    ensures r.Str? <==> a.Str? || (b.Some? && b.value.Str?)
  {
    if a.Str? || (b.Some? && b.value.Str?) then Str(Show(Some(a)) + Show(b))
    else
      match (NumberOf(Some(a)), NumberOf(b))
      case (Some(x), Some(y)) => Num(x + y)
      case _ => NaN
  }

  /** `chunk.reduce((sum, item) => sum + item[key], 0)`. */
  function ReduceSum(chunk: seq<Row>, key: string): Value
    decreases |chunk|
  {
    if |chunk| == 0 then Num(0)
    else Plus(ReduceSum(chunk[..|chunk| - 1], key), Get(chunk[|chunk| - 1], key))
  }

  /** Every row holds a number (not NaN) at key. */
  predicate AllNumbers(chunk: seq<Row>, key: string)
  {
    forall i :: 0 <= i < |chunk| ==> key in chunk[i] && chunk[i][key].Num?
  }

  /** Some row holds text at key. */
  predicate HasText(chunk: seq<Row>, key: string)
  {
    exists i :: 0 <= i < |chunk| && key in chunk[i] && chunk[i][key].Str?
  }

  /** Some row lacks key, so reads `undefined` there. */
  predicate HasUndefined(chunk: seq<Row>, key: string)
  {
    exists i :: 0 <= i < |chunk| && key !in chunk[i]
  }

  /** Over numbers only, the reduction is the arithmetic sum. */
  lemma {:induction false} ReduceSumOfNumbers(chunk: seq<Row>, key: string)
    requires AllNumbers(chunk, key)
    ensures ReduceSum(chunk, key) == Num(Sum(chunk, NumAt(key)))
    decreases |chunk|
  {
    if |chunk| > 0 {
      ReduceSumOfNumbers(chunk[..|chunk| - 1], key);
    }
  }

  /** Once text is met the running value is text, and stays text to the end. */
  lemma {:induction false} ReduceSumText(chunk: seq<Row>, key: string)
    requires HasText(chunk, key)
    ensures ReduceSum(chunk, key).Str?
    decreases |chunk|
  {
    var i :| 0 <= i < |chunk| && key in chunk[i] && chunk[i][key].Str?;
    if i < |chunk| - 1 {
      ReduceSumText(chunk[..|chunk| - 1], key);
    }
  }

  /** Without text, a missing field anywhere makes the whole reduction NaN. */
  lemma {:induction false} ReduceSumUndefined(chunk: seq<Row>, key: string)
    requires !HasText(chunk, key) && HasUndefined(chunk, key)
    ensures ReduceSum(chunk, key) == NaN
    decreases |chunk|
  {
    var init := chunk[..|chunk| - 1];
    assert forall i :: 0 <= i < |init| ==> init[i] == chunk[i];
    assert Get(chunk[|chunk| - 1], key).None? || !Get(chunk[|chunk| - 1], key).value.Str?;
    if key in chunk[|chunk| - 1] {
      var i :| 0 <= i < |chunk| && key !in chunk[i];
      assert init[i] == chunk[i];
      ReduceSumUndefined(init, key);
    } else {
      ReduceSumNotText(init, key);
    }
  }

  /** Without text the reduction is a number or NaN. */
  lemma {:induction false} ReduceSumNotText(chunk: seq<Row>, key: string)
    requires !HasText(chunk, key)
    ensures !ReduceSum(chunk, key).Str?
    decreases |chunk|
  {
    if |chunk| > 0 {
      var init := chunk[..|chunk| - 1];
      assert forall i :: 0 <= i < |init| ==> init[i] == chunk[i];
      ReduceSumNotText(init, key);
    }
  }

  /** A later text value is appended as text, `true` adds 1, and a missing field gives NaN. */
  lemma ReduceSumExamples()
    ensures ReduceSum([map["v" := Num(1)], map["v" := Str("x")]], "v") == Str("1x")
    ensures ReduceSum([map["v" := Num(1)], map["v" := Bool(true)]], "v") == Num(2)
    ensures ReduceSum([map["v" := Num(1)], map[]], "v") == NaN
  {
    var a: seq<Row> := [map["v" := Num(1)], map["v" := Str("x")]];
    assert a[..1][..0] == [];
    assert IntToString(1) == "1" by {
      assert NatToString(1) == "1";
    }
    var b: seq<Row> := [map["v" := Num(1)], map["v" := Bool(true)]];
    assert b[..1][..0] == [];
    var c: seq<Row> := [map["v" := Num(1)], map[]];
    assert c[..1][..0] == [];
  }

  /** The value a row holds at key when it is a number, else 0. */
  function NumAt(key: string): Row -> int
  {
    (row: Row) => if key in row && row[key].Num? then row[key].n else 0
  }

  // ---------------------------------------------------------------------------
  // optimizeDataset

  /** `Math.ceil(a / b)` for a non-negative a and a positive b. */
  function CeilDiv(a: nat, b: nat): (q: nat)
    requires b > 0
    ensures q * b >= a
    ensures a > 0 ==> (q - 1) * b < a
  {
    (a + b - 1) / b
  }

  /** The label a later chunk gets for a non-numeric field: "first - last", or just "first" for a chunk of one row. */
  function RangeLabel(chunk: seq<Row>, key: string): string
    requires |chunk| > 0
  {
    Show(Get(chunk[0], key)) + (if |chunk| > 1 then " - " + Show(Get(chunk[|chunk| - 1], key)) else "")
  }

  /**
   * One field of an output point: a field that is a number in the first row
   * is reduced with `+` over the chunk, any other is copied from the first
   * chunk and labelled as a range in every later one.
   */
  function AggregateField(chunk: seq<Row>, first: bool, key: string): (v: Value)
    requires |chunk| > 0 && key in chunk[0]
    ensures AllNumbers(chunk, key) ==> v == Num(Sum(chunk, NumAt(key)))
    ensures IsNumber(chunk[0][key]) && HasText(chunk, key) ==> v.Str?
    ensures !IsNumber(chunk[0][key]) && first ==> v == chunk[0][key]
    ensures !IsNumber(chunk[0][key]) && !first ==> v == Str(RangeLabel(chunk, key))
  {
    if IsNumber(chunk[0][key]) then
      if AllNumbers(chunk, key) then ReduceSumOfNumbers(chunk, key); ReduceSum(chunk, key)
      else if HasText(chunk, key) then ReduceSumText(chunk, key); ReduceSum(chunk, key)
      else ReduceSum(chunk, key)
    else if first then chunk[0][key]
    else Str(RangeLabel(chunk, key))
  }

  /** One output point: the first row's keys, each holding its aggregated field. */
  function Aggregate(chunk: seq<Row>, first: bool): (r: Row)
    requires |chunk| > 0
    ensures r.Keys == chunk[0].Keys
    ensures forall key {:trigger r[key]} :: key in chunk[0] ==> r[key] == AggregateField(chunk, first, key)
  {
    map key | key in chunk[0] :: AggregateField(chunk, first, key)
  }

  /** The points for the rows from a chunk boundary on, `factor` rows per chunk; `first` marks the series' first chunk. */
  function Aggregated(rows: seq<Row>, factor: nat, first: bool): (r: seq<Row>)
    requires factor > 0
    decreases |rows|
  {
    if |rows| == 0 then []
    else
      var m := if factor < |rows| then factor else |rows|;
      [Aggregate(rows[..m], first)] + Aggregated(rows[m..], factor, false)
  }

  /** What `optimizeDataset(data, maxDataPoints, 'sum')` returns. */
  function Optimized(data: seq<Row>, maxDataPoints: nat): seq<Row>
    requires maxDataPoints > 0
  {
    if |data| == 0 then []
    else if |data| <= maxDataPoints then data
    else Aggregated(data, CeilDiv(|data|, maxDataPoints), true)
  }

  /** `optimizeDataset` with sum aggregation: walk the data a chunk at a time, pushing one point per chunk. */
  method OptimizeDataset(data: seq<Row>, maxDataPoints: nat) returns (result: seq<Row>)
    requires maxDataPoints > 0
    ensures result == Optimized(data, maxDataPoints)
  {
    if |data| == 0 {
      return [];
    }
    if |data| <= maxDataPoints {
      return data;
    }
    var factor := CeilDiv(|data|, maxDataPoints);
    result := [];
    var i := 0;
    while i < |data|
      invariant 0 <= i <= |data|
      invariant result + Aggregated(data[i..], factor, i == 0) == Aggregated(data, factor, true)
      decreases |data| - i
    {
      var end := if i + factor < |data| then i + factor else |data|;
      var point := Aggregate(data[i..end], i == 0);
      AggregatedStep(data, i, end, factor);
      assert (result + [point]) + Aggregated(data[end..], factor, false) == result + Aggregated(data[i..], factor, i == 0);
      result := result + [point];
      i := end;
    }
  }

  /** Peeling one chunk off the rows from position i on. */
  lemma AggregatedStep(data: seq<Row>, i: nat, end: nat, factor: nat)
    requires factor > 0 && i < |data|
    requires end == if i + factor < |data| then i + factor else |data|
    ensures Aggregated(data[i..], factor, i == 0) ==
      [Aggregate(data[i..end], i == 0)] + Aggregated(data[end..], factor, false)
  {
    var rows := data[i..];
    assert rows[..end - i] == data[i..end];
    assert rows[end - i..] == data[end..];
    assert Aggregated(rows, factor, i == 0) ==
      [Aggregate(rows[..end - i], i == 0)] + Aggregated(rows[end - i..], factor, false);
  }

  /** A division with a remainder below the divisor has the expected quotient. */
  lemma DivOfSum(q: nat, r: nat, b: nat)
    requires r < b
    ensures (q * b + r) / b == q
  {
    var q2, r2 := (q * b + r) / b, (q * b + r) % b;
    assert q * b + r == q2 * b + r2;
    if q2 < q {
      MulMonotone(q2 + 1, q, b);
      assert false;
    } else if q2 > q {
      MulMonotone(q + 1, q2, b);
      assert false;
    }
  }

  /** ceil(a / b) is one more than ceil((a - b) / b) when a exceeds b, and 1 when 0 < a <= b. */
  lemma CeilDivStep(a: nat, b: nat)
    requires 0 < a && b > 0
    ensures a > b ==> CeilDiv(a, b) == CeilDiv(a - b, b) + 1
    ensures a <= b ==> CeilDiv(a, b) == 1
  {
    var q, r := (a - 1) / b, (a - 1) % b;
    assert a - 1 == q * b + r;
    assert a + b - 1 == (q + 1) * b + r;
    DivOfSum(q + 1, r, b);
    if a > b {
      assert q >= 1;
      assert a - b + b - 1 == q * b + r;
      DivOfSum(q, r, b);
    } else {
      assert q == 0 by {
        if q > 0 {
          MulMonotone(1, q, b);
        }
      }
    }
  }

  /** Chunking n rows by `factor` gives ceil(n / factor) points. */
  lemma {:induction false} AggregatedLength(rows: seq<Row>, factor: nat, first: bool)
    requires factor > 0
    ensures |Aggregated(rows, factor, first)| == CeilDiv(|rows|, factor)
    decreases |rows|
  {
    if |rows| > 0 {
      var m := if factor < |rows| then factor else |rows|;
      AggregatedLength(rows[m..], factor, false);
      AggregatedLengthStep(rows, factor, first);
      CeilDivStep(|rows|, factor);
    }
  }

  /** One chunk's step: one point, followed by the points of the rows after the chunk. */
  lemma AggregatedLengthStep(rows: seq<Row>, factor: nat, first: bool)
    requires factor > 0 && |rows| > 0
    ensures var m := if factor < |rows| then factor else |rows|;
      |Aggregated(rows, factor, first)| == 1 + |Aggregated(rows[m..], factor, false)|
  {
  }

  /** With factor ceil(n / max), ceil(n / factor) is at most max. */
  lemma CeilBound(n: nat, max: nat)
    requires max > 0 && n > max
    ensures CeilDiv(n, CeilDiv(n, max)) <= max
  {
    var k := CeilDiv(n, max);
    assert k * max >= n;
    assert k > 0;
    var q := CeilDiv(n, k);
    if q > max {
      MulMonotone(max, q - 1, k);
      assert false;
    }
  }

  lemma MulMonotone(a: int, b: int, k: nat)
    requires a <= b
    ensures a * k <= b * k
  {
  }

  /**
   * The output never has more than maxDataPoints points, and a series that
   * needs down-sampling becomes exactly ceil(n / factor) points.
   */
  lemma OptimizedLength(data: seq<Row>, maxDataPoints: nat)
    requires maxDataPoints > 0
    ensures |Optimized(data, maxDataPoints)| <= maxDataPoints
    ensures |data| <= maxDataPoints ==> Optimized(data, maxDataPoints) == data
    ensures |data| > maxDataPoints ==>
      |Optimized(data, maxDataPoints)| == CeilDiv(|data|, CeilDiv(|data|, maxDataPoints))
  {
    if |data| > maxDataPoints {
      AggregatedLength(data, CeilDiv(|data|, maxDataPoints), true);
      CeilBound(|data|, maxDataPoints);
    }
  }

  /**
   * A field that is a number in the first row is reduced with `+`: the sum
   * when every row holds a number there, text when some row holds text, and
   * NaN when no row holds text and some row lacks the field.
   */
  lemma AggregateNumeric(chunk: seq<Row>, first: bool, key: string)
    requires |chunk| > 0 && key in chunk[0] && chunk[0][key].Num?
    ensures AllNumbers(chunk, key) ==> Aggregate(chunk, first)[key] == Num(Sum(chunk, NumAt(key)))
    ensures HasText(chunk, key) ==> Aggregate(chunk, first)[key].Str?
    ensures !HasText(chunk, key) && HasUndefined(chunk, key) ==> Aggregate(chunk, first)[key] == NaN
  {
    if !HasText(chunk, key) && HasUndefined(chunk, key) {
      ReduceSumUndefined(chunk, key);
    }
  }

  /** A point of a chunk that holds a number at key in every row carries the chunk's sum there. */
  lemma PointSum(chunk: seq<Row>, first: bool, key: string)
    requires |chunk| > 0 && AllNumbers(chunk, key)
    ensures NumAt(key)(Aggregate(chunk, first)) == Sum(chunk, NumAt(key))
  {
    AggregateNumeric(chunk, first, key);
  }

  /** Summed over all points, a field that is a number in every row adds up as it did over the rows. */
  lemma {:induction false} AggregatedSum(rows: seq<Row>, factor: nat, first: bool, key: string)
    requires factor > 0
    requires AllNumbers(rows, key)
    ensures Sum(Aggregated(rows, factor, first), NumAt(key)) == Sum(rows, NumAt(key))
    decreases |rows|
  {
    if |rows| > 0 {
      var m := if factor < |rows| then factor else |rows|;
      var chunk, rest := rows[..m], rows[m..];
      AllNumbersSplit(rows, m, key);
      AggregatedSum(rest, factor, false, key);
      AggregatedSumStep(rows, factor, first, key);
      assert rows == chunk + rest;
      SumAppend(chunk, rest, NumAt(key));
    }
  }

  /** Both sides of a split of rows that all hold a number at key hold one there too. */
  lemma AllNumbersSplit(rows: seq<Row>, m: nat, key: string)
    requires m <= |rows| && AllNumbers(rows, key)
    ensures AllNumbers(rows[..m], key) && AllNumbers(rows[m..], key)
  {
    assert forall i :: 0 <= i < m ==> rows[..m][i] == rows[i];
    assert forall i :: 0 <= i < |rows| - m ==> rows[m..][i] == rows[m + i];
  }

  /** One chunk's step: the first point carries the chunk's sum, followed by the later points. */
  lemma AggregatedSumStep(rows: seq<Row>, factor: nat, first: bool, key: string)
    requires factor > 0 && |rows| > 0
    requires AllNumbers(rows[..if factor < |rows| then factor else |rows|], key)
    ensures var m := if factor < |rows| then factor else |rows|;
      Sum(Aggregated(rows, factor, first), NumAt(key))
        == Sum(rows[..m], NumAt(key)) + Sum(Aggregated(rows[m..], factor, false), NumAt(key))
  {
    var m := if factor < |rows| then factor else |rows|;
    var point := Aggregate(rows[..m], first);
    var later := Aggregated(rows[m..], factor, false);
    PointSum(rows[..m], first, key);
    SumAppend([point], later, NumAt(key));
    assert [point][..0] == [];
  }

  /** Down-sampling keeps the total of a field that is a number in every row. */
  lemma OptimizedKeepsTotals(data: seq<Row>, maxDataPoints: nat, key: string)
    requires maxDataPoints > 0
    requires AllNumbers(data, key)
    ensures Sum(Optimized(data, maxDataPoints), NumAt(key)) == Sum(data, NumAt(key))
  {
    if |data| > maxDataPoints {
      var factor := CeilDiv(|data|, maxDataPoints);
      assert Optimized(data, maxDataPoints) == Aggregated(data, factor, true);
      AggregatedSum(data, factor, true, key);
    }
  }

  /**
   * The first point keeps the first row's non-numeric values; a later point
   * labels them "first - last" over its chunk.
   */
  lemma AggregateLabels(chunk: seq<Row>, first: bool, key: string)
    requires |chunk| > 0 && key in chunk[0] && !IsNumber(chunk[0][key])
    ensures first ==> Aggregate(chunk, first)[key] == chunk[0][key]
    ensures !first && |chunk| > 1 ==>
      Aggregate(chunk, first)[key] == Str(Show(Some(chunk[0][key])) + " - " + Show(Get(chunk[|chunk| - 1], key)))
    ensures !first && |chunk| == 1 ==> Aggregate(chunk, first)[key] == Str(Show(Some(chunk[0][key])))
  {
  }

  // ---------------------------------------------------------------------------
  // Number(...) and calculateStatistics

  /** Decimal value of an optionally signed run of digits, or None for anything else. */
  function SignedDigits(t: string): (r: Option<int>)
  {
    if |t| > 0 && (t[0] == '-' || t[0] == '+') then
      var d := t[1..];
      if |d| > 0 && forall i :: 0 <= i < |d| ==> IsDigit(d[i]) then
        Some(if t[0] == '-' then 0 - DigitsValue(d) else DigitsValue(d))
      else None
    else if |t| > 0 && forall i :: 0 <= i < |t| ==> IsDigit(t[i]) then Some(DigitsValue(t))
    else None
  }

  /**
   * JavaScript `Number(v)`, `None` standing for NaN: white space around a
   * numeric string is ignored and a blank string is 0; `true` is 1, `false`,
   * and `null` are 0, and `undefined` is NaN.
   */
  function NumberOf(v: Option<Value>): Option<int>
  {
    match v
    case None => None
    case Some(Num(n)) => Some(n)
    case Some(Bool(b)) => Some(if b then 1 else 0)
    case Some(Null) => Some(0)
    case Some(NaN) => None
    case Some(Str(s)) => if Trim(s) == [] then Some(0) else SignedDigits(Trim(s))
  }

  function NumericValues(data: seq<Row>, field: string): (r: seq<int>)
    ensures |r| <= |data|
    decreases |data|
  {
    if |data| == 0 then []
    else
      var init := NumericValues(data[..|data| - 1], field);
      match NumberOf(Get(data[|data| - 1], field))
      case None => init
      case Some(v) => init + [v]
  }

  function IntLe(): (int, int) -> bool
  {
    (a: int, b: int) => a <= b
  }

  lemma IntLeTotalPreorder()
    ensures TotalPreorder(IntLe())
  {
  }

  function Identity(v: int): int
  {
    v
  }

  /** The summary `calculateStatistics` returns; `average` and `median` are exact quotients. */
  datatype Statistics = Statistics(min: int, max: int, average: Ratio, sum: int, median: Ratio)

  const ZeroStatistics := Statistics(0, 0, Ratio(0, 1), 0, Ratio(0, 1))

  /** `calculateStatistics(data, field)`: the numeric values of the field, sorted ascending, then summarised. */
  function CalculateStatistics(data: seq<Row>, field: string): (r: Statistics)
    ensures |NumericValues(data, field)| == 0 ==> r == ZeroStatistics
  {
    var values := NumericValues(data, field);
    if |values| == 0 then ZeroStatistics
    else
      IntLeTotalPreorder();
      var sorted := SortBy(values, IntLe());
      var n := |sorted|;
      var median := if n % 2 == 0 then Ratio(sorted[n / 2 - 1] + sorted[n / 2], 2) else Ratio(sorted[n / 2], 1);
      Statistics(sorted[0], sorted[n - 1], Ratio(Sum(sorted, Identity), n), Sum(sorted, Identity), median)
  }

  /**
   * With at least one numeric value, min and max are the extremes of the
   * values, the median lies between them, the sum is the values' sum and the
   * average is that sum over their count.
   */
  lemma StatisticsBounds(data: seq<Row>, field: string)
    requires |NumericValues(data, field)| > 0
    ensures var values := NumericValues(data, field);
      var r := CalculateStatistics(data, field);
      && r.min in values && r.max in values
      && (forall v :: v in values ==> r.min <= v <= r.max)
      && r.median.den > 0
      && r.min * r.median.den <= r.median.num <= r.max * r.median.den
      && r.sum == Sum(values, Identity)
      && r.average == Ratio(r.sum, |values|)
  {
    var values := NumericValues(data, field);
    IntLeTotalPreorder();
    var sorted := SortBy(values, IntLe());
    var n := |sorted|;
    var median := if n % 2 == 0 then Ratio(sorted[n / 2 - 1] + sorted[n / 2], 2) else Ratio(sorted[n / 2], 1);
    assert CalculateStatistics(data, field) ==
      Statistics(sorted[0], sorted[n - 1], Ratio(Sum(sorted, Identity), n), Sum(sorted, Identity), median);
    SortedExtremes(values, sorted);
    SortedMedian(sorted);
    SumPermutation(sorted, values, Identity);
  }

  /** The first and last of an ascending permutation of the values are their minimum and maximum. */
  lemma SortedExtremes(values: seq<int>, sorted: seq<int>)
    requires |sorted| > 0 && SortedBy(sorted, IntLe()) && multiset(sorted) == multiset(values)
    ensures sorted[0] in values && sorted[|sorted| - 1] in values
    ensures forall v :: v in values ==> sorted[0] <= v <= sorted[|sorted| - 1]
  {
    var n := |sorted|;
    assert sorted[0] in multiset(sorted) && sorted[n - 1] in multiset(sorted);
    forall v | v in values
      ensures sorted[0] <= v <= sorted[n - 1]
    {
      assert v in multiset(sorted);
      var i :| 0 <= i < n && sorted[i] == v;
      assert IntLe()(sorted[0], sorted[i]);
      assert IntLe()(sorted[i], sorted[n - 1]);
    }
  }

  /** The median of an ascending sequence lies between its first and last element. */
  lemma SortedMedian(sorted: seq<int>)
    requires |sorted| > 0 && SortedBy(sorted, IntLe())
    ensures var n := |sorted|;
      var median := if n % 2 == 0 then Ratio(sorted[n / 2 - 1] + sorted[n / 2], 2) else Ratio(sorted[n / 2], 1);
      median.den > 0 && sorted[0] * median.den <= median.num <= sorted[n - 1] * median.den
  {
    var n := |sorted|;
    if n % 2 == 0 {
      assert IntLe()(sorted[0], sorted[n / 2 - 1]);
      assert IntLe()(sorted[n / 2], sorted[n - 1]);
      assert IntLe()(sorted[n / 2 - 1], sorted[n / 2]);
    } else {
      assert IntLe()(sorted[0], sorted[n / 2]);
      assert IntLe()(sorted[n / 2], sorted[n - 1]);
    }
  }

  /** Numbers, booleans, null, blank and numeric strings count; absent fields and other strings are skipped. */
  lemma NumericValuesCount(data: seq<Row>, field: string)
    ensures (forall i :: 0 <= i < |data| ==> NumberOf(Get(data[i], field)).Some?) ==>
      |NumericValues(data, field)| == |data|
    ensures (forall i :: 0 <= i < |data| ==> NumberOf(Get(data[i], field)).None?) ==>
      CalculateStatistics(data, field) == ZeroStatistics
  {
    NumericValuesCounted(data, field);
  }

  lemma {:induction false} NumericValuesCounted(data: seq<Row>, field: string)
    ensures |NumericValues(data, field)| == Count(data, (row: Row) => NumberOf(Get(row, field)).Some?)
    decreases |data|
  {
    if |data| > 0 {
      NumericValuesCounted(data[..|data| - 1], field);
    }
  }

  // ---------------------------------------------------------------------------
  // formatForCSVExport

  /** One row for export: each (original, exported) pair copies a defined field under its new name, later pairs winning. */
  function ExportRow(item: Row, fieldMap: seq<(string, string)>): (r: Row)
    decreases |fieldMap|
  {
    if |fieldMap| == 0 then map[]
    else
      var r := ExportRow(item, fieldMap[..|fieldMap| - 1]);
      var (original, exported) := fieldMap[|fieldMap| - 1];
      if original in item then r[exported := item[original]] else r
  }

  function FormatForCsvExport(data: seq<Row>, fieldMap: seq<(string, string)>): (r: seq<Row>)
    ensures |r| == |data|
  {
    seq(|data|, i requires 0 <= i < |data| => ExportRow(data[i], fieldMap))
  }

  /** Whether a field-map entry copies a defined field under `name`. */
  predicate Feeds(item: Row, entry: (string, string), name: string)
  {
    entry.1 == name && entry.0 in item
  }

  /** The last entry that copies a defined field under `name`, or -1. */
  function LastFeed(item: Row, fieldMap: seq<(string, string)>, name: string): (j: int)
    ensures -1 <= j < |fieldMap|
    ensures j >= 0 ==> Feeds(item, fieldMap[j], name) && forall l :: j < l < |fieldMap| ==> !Feeds(item, fieldMap[l], name)
    ensures j == -1 ==> forall l :: 0 <= l < |fieldMap| ==> !Feeds(item, fieldMap[l], name)
    decreases |fieldMap|
  {
    if |fieldMap| == 0 then -1
    else if Feeds(item, fieldMap[|fieldMap| - 1], name) then |fieldMap| - 1
    else LastFeed(item, fieldMap[..|fieldMap| - 1], name)
  }

  /**
   * An exported row has a column exactly for the names some entry maps a
   * defined field to, holding the field of the last such entry.
   */
  lemma {:induction false} ExportRowSpec(item: Row, fieldMap: seq<(string, string)>, name: string)
    ensures var j := LastFeed(item, fieldMap, name);
      && (name in ExportRow(item, fieldMap) <==> j >= 0)
      && (j >= 0 ==> ExportRow(item, fieldMap)[name] == item[fieldMap[j].0])
    decreases |fieldMap|
  {
    if |fieldMap| > 0 {
      ExportRowSpec(item, fieldMap[..|fieldMap| - 1], name);
    }
  }

  // ---------------------------------------------------------------------------
  // paginateData

  /** The index of a page's first element: `page * pageSize`. */
  function PageStart(page: int, pageSize: int): (lo: int)
    ensures page >= 0 && pageSize >= 0 ==> lo >= 0
  {
    page * pageSize
  }

  /** `paginateData(data, page, pageSize)`: `data.slice(page * pageSize, page * pageSize + pageSize)`. */
  function PaginateData<T>(data: seq<T>, page: int, pageSize: int): (r: seq<T>)
    ensures page >= 0 && pageSize >= 0 ==>
      && |r| == (if PageStart(page, pageSize) >= |data| then 0
                 else if PageStart(page, pageSize) + pageSize <= |data| then pageSize
                 else |data| - PageStart(page, pageSize))
      && forall i :: 0 <= i < |r| ==> r[i] == data[PageStart(page, pageSize) + i]
  {
    if |data| == 0 then []
    else
      var lo := PageStart(page, pageSize);
      var r := Slice(data, lo, lo + pageSize);
      if page >= 0 && pageSize >= 0 then
        SliceWindow(data, lo, pageSize);
        r
      else r
  }

  /** Consecutive pages follow each other in the data: page p, then page p + 1, is the slice of two pages from p. */
  lemma PagesAdjoin<T>(data: seq<T>, page: nat, pageSize: nat)
    requires page * pageSize + pageSize <= |data|
    ensures var lo := page * pageSize;
      var hi := if lo + 2 * pageSize <= |data| then lo + 2 * pageSize else |data|;
      PaginateData(data, page, pageSize) + PaginateData(data, page + 1, pageSize) == data[lo..hi]
  {
    var lo := page * pageSize;
    var mid := lo + pageSize;
    assert (page + 1) * pageSize == mid;
    var hi := if lo + 2 * pageSize <= |data| then lo + 2 * pageSize else |data|;
    var a := PaginateData(data, page, pageSize);
    var b := PaginateData(data, page + 1, pageSize);
    assert a == data[lo..mid];
    assert |b| == hi - mid;
    assert b == data[mid..hi];
    assert data[lo..mid] + data[mid..hi] == data[lo..hi];
  }

  // ---------------------------------------------------------------------------
  // filterDataset

  /** A filter value: a plain value, a numeric range with optional bounds, or undefined. */
  datatype Criterion = Undefined | Is(v: Value) | Range(min: Option<int>, max: Option<int>)

  /** undefined, null and '' impose no constraint. */
  predicate Skipped(c: Criterion)
  {
    c.Undefined? || c == Is(Null) || c == Is(Str(""))
  }

  /** A row's field read as a number lies within a range's bounds. */
  predicate InRange(row: Row, field: string, lo: Option<int>, hi: Option<int>)
  {
    var x := NumberOf(Get(row, field));
    x.Some? && (lo.None? || lo.value <= x.value) && (hi.None? || x.value <= hi.value)
  }

  /**
   * Whether a row passes one field's filter.  A range without bounds is an
   * object no field holds, so the strict equality it falls back to fails.
   */
  predicate Passes(row: Row, field: string, c: Criterion)
  {
    if Skipped(c) then true
    else if c.Range? then (c.min.Some? || c.max.Some?) && InRange(row, field, c.min, c.max)
    else if c.Is? && c.v.Str? && field in row && row[field].Str? then
      Contains(Lower(row[field].s), Lower(c.v.s))
    else c.Is? && field in row && row[field] == c.v && !c.v.NaN?
  }

  function PassesAll(filters: map<string, Criterion>): Row -> bool
  {
    (row: Row) => forall field :: field in filters ==> Passes(row, field, filters[field])
  }

  /** `filterDataset(data, filters)`; `None` is a null filters object. */
  function FilterDataset(data: seq<Row>, filters: Option<map<string, Criterion>>): (r: seq<Row>)
  {
    if |data| == 0 || filters.None? || |filters.value| == 0 then data
    else Filter(data, PassesAll(filters.value))
  }

  /**
   * The result keeps rows in order, and keeps exactly the rows passing every
   * filter; filters that are all undefined, null or '' keep everything.
   */
  lemma FilterDatasetSpec(data: seq<Row>, filters: Option<map<string, Criterion>>)
    ensures IsSubsequence(FilterDataset(data, filters), data)
    ensures filters.Some? ==>
      forall row :: row in FilterDataset(data, filters) <==> row in data && PassesAll(filters.value)(row)
    ensures filters.None? || (forall f :: f in filters.value ==> Skipped(filters.value[f])) ==>
      FilterDataset(data, filters) == data
  {
    if |data| == 0 || filters.None? || |filters.value| == 0 {
      IsSubsequenceRefl(data);
    } else {
      FilterIsSubsequence(data, PassesAll(filters.value));
      if forall f :: f in filters.value ==> Skipped(filters.value[f]) {
        FilterKeepsAll(data, PassesAll(filters.value));
      }
    }
  }

  lemma {:induction false} IsSubsequenceRefl(s: seq<Row>)
    ensures IsSubsequence(s, s)
    decreases |s|
  {
    if |s| > 0 {
      IsSubsequenceRefl(s[..|s| - 1]);
    }
  }

  /** A non-empty text filter on a text field is a case-insensitive "contains". */
  lemma TextFilter(row: Row, field: string, text: string, t: string)
    requires text != [] && field in row && row[field] == Str(t)
    ensures Passes(row, field, Is(Str(text))) <==> Contains(Lower(t), Lower(text))
  {
  }

  /** A range filter with a bound passes only rows whose field reads as a number within the bounds. */
  lemma RangeFilter(row: Row, field: string, lo: int, hi: int)
    ensures Passes(row, field, Range(Some(lo), Some(hi))) <==>
      NumberOf(Get(row, field)).Some? && lo <= NumberOf(Get(row, field)).value <= hi
    ensures Passes(row, field, Range(Some(lo), None)) <==>
      NumberOf(Get(row, field)).Some? && lo <= NumberOf(Get(row, field)).value
    ensures !Passes(row, field, Range(None, None))
  {
  }
}
