/**
 * The string operations the Java and JavaScript code relies on: trimming,
 * case mapping, searching, splitting and joining, and decimal rendering of
 * integers.  Characters are Unicode scalar values.
 */
module Strings {
  import opened Seqs

  /** The characters JavaScript's `trim` and the regular-expression class `\s` treat as white space. */
  predicate IsSpace(c: char)
  {
    c == ' ' || c == '\t' || c == '\n' || c == '\U{B}' || c == '\U{C}' || c == '\r' ||
    c == '\U{A0}' || c == '\U{1680}' || ('\U{2000}' <= c <= '\U{200A}') || c == '\U{2028}' ||
    c == '\U{2029}' || c == '\U{202F}' || c == '\U{205F}' || c == '\U{3000}' || c == '\U{FEFF}'
  }

  predicate IsBlank(s: string)
  {
    forall i :: 0 <= i < |s| ==> IsSpace(s[i])
  }

  /** Drops leading white space. */
  function TrimStart(s: string): (r: string)
    ensures |r| <= |s| && r == s[|s| - |r|..]
    ensures |r| > 0 ==> !IsSpace(r[0])
    ensures IsBlank(s[..|s| - |r|])
    decreases |s|
  {
    if |s| > 0 && IsSpace(s[0]) then TrimStart(s[1..]) else s
  }

  /** Drops trailing white space. */
  function TrimEnd(s: string): (r: string)
    ensures |r| <= |s| && r == s[..|r|]
    ensures |r| > 0 ==> !IsSpace(r[|r| - 1])
    ensures IsBlank(s[|r|..])
    decreases |s|
  {
    if |s| > 0 && IsSpace(s[|s| - 1]) then TrimEnd(s[..|s| - 1]) else s
  }

  /** JavaScript `String.prototype.trim`. */
  function Trim(s: string): (r: string)
    ensures |r| <= |s|
    ensures |r| == 0 || (!IsSpace(r[0]) && !IsSpace(r[|r| - 1]))
  {
    TrimEnd(TrimStart(s))
  }

  /** A string trims to nothing exactly when it is all white space: the "required field" test of the forms. */
  lemma {:induction false} TrimEmptyIffBlank(s: string)
    ensures Trim(s) == [] <==> IsBlank(s)
  {
    var t := TrimStart(s);
    if Trim(s) == [] {
      assert IsBlank(t[0..]);
      assert s == s[..|s| - |t|] + t;
    } else {
      var r := Trim(s);
      assert r[0] in s;
    }
  }

  /** Case mapping of ASCII letters; other characters are unchanged. */
  function LowerChar(c: char): char
  {
    if 'A' <= c <= 'Z' then (c as int + 32) as char else c
  }

  function UpperChar(c: char): char
  {
    if 'a' <= c <= 'z' then (c as int - 32) as char else c
  }

  /** `toLowerCase`, on ASCII letters. */
  function Lower(s: string): (r: string)
    ensures |r| == |s|
    ensures forall i :: 0 <= i < |s| ==> r[i] == LowerChar(s[i])
  {
    seq(|s|, i requires 0 <= i < |s| => LowerChar(s[i]))
  }

  /** `toUpperCase`, on ASCII letters. */
  function Upper(s: string): (r: string)
    ensures |r| == |s|
    ensures forall i :: 0 <= i < |s| ==> r[i] == UpperChar(s[i])
  {
    seq(|s|, i requires 0 <= i < |s| => UpperChar(s[i]))
  }

  /** Lower-casing an upper-cased or lower-cased text is lower-casing the original: case does not survive. */
  lemma LowerForgetsCase(s: string)
    ensures Lower(Upper(s)) == Lower(s)
    ensures Lower(Lower(s)) == Lower(s)
  {
    assert forall i :: 0 <= i < |s| ==> LowerChar(UpperChar(s[i])) == LowerChar(s[i]);
  }

  predicate OccursAt(s: string, pat: string, i: int)
  {
    0 <= i && i + |pat| <= |s| && s[i..i + |pat|] == pat
  }

  /** Java `indexOf(pat, from)` / JavaScript `indexOf`: the first occurrence at or after from, or -1. */
  function IndexOfFrom(s: string, pat: string, from: nat): (r: int)
    ensures r == -1 || (from <= r && OccursAt(s, pat, r))
    ensures r == -1 ==> forall i :: from <= i ==> !OccursAt(s, pat, i)
    ensures r >= 0 ==> forall i :: from <= i < r ==> !OccursAt(s, pat, i)
    decreases |s| - from
  {
    if from + |pat| > |s| then -1
    else if s[from..from + |pat|] == pat then from
    else IndexOfFrom(s, pat, from + 1)
  }

  function IndexOf(s: string, pat: string): (r: int)
    ensures r == -1 || OccursAt(s, pat, r)
    ensures r == -1 <==> forall i :: !OccursAt(s, pat, i)
    ensures r >= 0 ==> forall i :: i < r ==> !OccursAt(s, pat, i)
  {
    IndexOfFrom(s, pat, 0)
  }

  /** `includes` / `contains`. */
  predicate Contains(s: string, pat: string)
  {
    IndexOf(s, pat) >= 0
  }

  /** Looking for a one-character string is looking for that character. */
  lemma ContainsChar(s: string, c: char)
    ensures Contains(s, [c]) <==> IndexOfChar(s, c) >= 0
  {
    var r := IndexOfChar(s, c);
    if r >= 0 {
      assert s[r..r + 1] == [c];
      assert OccursAt(s, [c], r);
    }
    if Contains(s, [c]) {
      var i := IndexOf(s, [c]);
      assert s[i..i + 1][0] == s[i];
    }
  }

  predicate StartsWith(s: string, pat: string)
  {
    |pat| <= |s| && s[..|pat|] == pat
  }

  /** Index of the first c, or -1. */
  function IndexOfChar(s: string, c: char): (r: int)
    ensures -1 <= r < |s|
    ensures r >= 0 ==> s[r] == c
    ensures forall j :: 0 <= j < |s| && (r < 0 || j < r) ==> s[j] != c
    decreases |s|
  {
    if |s| == 0 then -1
    else if s[0] == c then 0
    else
      var r := IndexOfChar(s[1..], c);
      if r == -1 then -1 else r + 1
  }

  /** Index of the first c at or after from, or -1. */
  function IndexOfCharFrom(s: string, c: char, from: nat): (r: int)
    ensures r == -1 || (from <= r < |s| && s[r] == c)
    ensures forall j :: from <= j < |s| && (r < 0 || j < r) ==> s[j] != c
    decreases |s| - from
  {
    if from >= |s| then -1
    else if s[from] == c then from
    else IndexOfCharFrom(s, c, from + 1)
  }

  /** No white space anywhere: what the regular-expression class `\S` accepts, character by character. */
  predicate NoSpace(s: string)
  {
    forall i :: 0 <= i < |s| ==> !IsSpace(s[i])
  }

  /** The first c of a + [c] + b is the one after a, when a has none. */
  lemma FirstSeparator(a: string, c: char, b: string)
    requires c !in a
    ensures IndexOfChar(a + [c] + b, c) == |a|
    ensures (a + [c] + b)[..|a|] == a && (a + [c] + b)[|a| + 1..] == b
  {
    var s := a + [c] + b;
    assert s[|a|] == c;
    assert forall j :: 0 <= j < |a| ==> s[j] == a[j];
  }

  /** Index of the last c, or -1. */
  function LastIndexOfChar(s: string, c: char): (r: int)
    ensures -1 <= r < |s|
    ensures r >= 0 ==> s[r] == c
    ensures forall j :: r < j < |s| ==> s[j] != c
    decreases |s|
  {
    if |s| == 0 then -1
    else if s[|s| - 1] == c then |s| - 1
    else LastIndexOfChar(s[..|s| - 1], c)
  }

  /** JavaScript `split(c)` with a one-character separator. */
  function Split(s: string, c: char): (parts: seq<string>)
    ensures |parts| >= 1
    decreases |s|
  {
    var i := IndexOfChar(s, c);
    if i < 0 then [s] else [s[..i]] + Split(s[i + 1..], c)
  }

  /** JavaScript `join(c)`. */
  function Join(parts: seq<string>, c: char): string
    decreases |parts|
  {
    if |parts| == 0 then []
    else if |parts| == 1 then parts[0]
    else parts[0] + [c] + Join(parts[1..], c)
  }

  /** Joining the pieces of a split restores the string. */
  lemma {:induction false} JoinSplit(s: string, c: char)
    ensures Join(Split(s, c), c) == s
    decreases |s|
  {
    var i := IndexOfChar(s, c);
    if i >= 0 {
      var rest := s[i + 1..];
      SplitStep(s, c);
      JoinSplit(rest, c);
      JoinCons(s[..i], Split(rest, c), c);
      Reassemble(s, i, c);
    } else {
      assert Split(s, c) == [s];
    }
  }

  lemma SplitStep(s: string, c: char)
    requires IndexOfChar(s, c) >= 0
    ensures var i := IndexOfChar(s, c);
      Split(s, c) == [s[..i]] + Split(s[i + 1..], c)
  {
  }

  lemma Reassemble(s: string, i: int, c: char)
    requires 0 <= i < |s| && s[i] == c
    ensures s[..i] + [c] + s[i + 1..] == s
  {
  }

  lemma JoinCons(head: string, tail: seq<string>, c: char)
    requires |tail| >= 1
    ensures Join([head] + tail, c) == head + [c] + Join(tail, c)
  {
    assert ([head] + tail)[1..] == tail;
  }

  /** The first piece ends at the first separator; there is a second piece exactly when a separator occurs. */
  lemma SplitHead(s: string, c: char)
    ensures Split(s, c)[0] == if IndexOfChar(s, c) < 0 then s else s[..IndexOfChar(s, c)]
    ensures |Split(s, c)| == 1 <==> IndexOfChar(s, c) < 0
  {
  }

  /** With a separator present, the second piece is the first piece of the text after the first separator. */
  lemma SplitFirstTwo(s: string, c: char)
    requires IndexOfChar(s, c) >= 0
    ensures var i := IndexOfChar(s, c);
      |Split(s, c)| >= 2 && Split(s, c)[0] == s[..i] && Split(s, c)[1] == Split(s[i + 1..], c)[0]
  {
  }

  /** Everything after the first piece of a split, joined again, is the text after the first separator. */
  lemma JoinSplitTail(s: string, c: char)
    requires IndexOfChar(s, c) >= 0
    ensures Join(Split(s, c)[1..], c) == s[IndexOfChar(s, c) + 1..]
  {
    var i := IndexOfChar(s, c);
    assert Split(s, c)[1..] == Split(s[i + 1..], c);
    JoinSplit(s[i + 1..], c);
  }

  function DigitChar(d: int): char
    requires 0 <= d <= 9
  {
    ('0' as int + d) as char
  }

  predicate IsDigit(c: char)
  {
    '0' <= c <= '9'
  }

  /** Decimal rendering of a natural number without leading zeros (`String.valueOf`, template literals). */
  function NatToString(n: nat): (s: string)
    ensures |s| >= 1
    ensures forall i :: 0 <= i < |s| ==> IsDigit(s[i])
    decreases n
  {
    if n < 10 then [DigitChar(n)] else NatToString(n / 10) + [DigitChar(n % 10)]
  }

  /** Reading back a decimal rendering gives the number back. */
  lemma {:induction false} NatToStringValue(n: nat)
    ensures DigitsValue(NatToString(n)) == n
    decreases n
  {
    if n >= 10 {
      var s := NatToString(n);
      assert s[..|s| - 1] == NatToString(n / 10);
      NatToStringValue(n / 10);
    }
  }

  /** Decimal rendering of an integer, with a leading '-' when negative. */
  function IntToString(n: int): string
  {
    if n < 0 then "-" + NatToString(-n) else NatToString(n)
  }

  /** Decimal value of a string of digits (Java `Integer.parseInt` on digits only). */
  function DigitsValue(s: string): (n: nat)
    requires forall i :: 0 <= i < |s| ==> IsDigit(s[i])
    decreases |s|
  {
    if |s| == 0 then 0
    else
      assert IsDigit(s[|s| - 1]);
      10 * DigitsValue(s[..|s| - 1]) + (s[|s| - 1] as int - '0' as int)
  }

  /** Zero-padded rendering of n to at least `width` digits; exactly `width` digits when n < 10^width. */
  function PadDigits(n: nat, width: nat): (s: string)
    ensures |s| == width || width == 0
    ensures forall i :: 0 <= i < |s| ==> IsDigit(s[i])
    decreases width
  {
    if width == 0 then []
    else PadDigits(n / 10, width - 1) + [DigitChar(n % 10)]
  }

  /** Reading back a padded rendering gives the number back when it fits. */
  lemma {:induction false} PadDigitsValue(n: nat, width: nat)
    requires n < Pow10(width)
    ensures DigitsValue(PadDigits(n, width)) == n
    decreases width
  {
    if width > 0 {
      var s := PadDigits(n, width);
      assert s[..|s| - 1] == PadDigits(n / 10, width - 1);
      PadDigitsValue(n / 10, width - 1);
    }
  }

  function Pow10(k: nat): (p: nat)
    ensures p >= 1
  {
    if k == 0 then 1 else 10 * Pow10(k - 1)
  }

  /** Java `compareTo(...) < 0` on strings and JavaScript `<`: lexicographic order of characters. */
  predicate StrLess(a: string, b: string)
    decreases |a|
  {
    if |a| == 0 then |b| > 0
    else if |b| == 0 then false
    else if a[0] != b[0] then a[0] < b[0]
    else StrLess(a[1..], b[1..])
  }

  /** Comparing two concatenations whose first parts have equal length: the first parts decide unless they are equal. */
  lemma {:induction false} StrLessConcat(a1: string, a2: string, b1: string, b2: string)
    requires |a1| == |b1|
    ensures StrLess(a1 + a2, b1 + b2) <==> StrLess(a1, b1) || (a1 == b1 && StrLess(a2, b2))
    decreases |a1|
  {
    if |a1| > 0 {
      assert (a1 + a2)[1..] == a1[1..] + a2;
      assert (b1 + b2)[1..] == b1[1..] + b2;
      StrLessConcat(a1[1..], a2, b1[1..], b2);
      if a1[0] == b1[0] && a1[1..] == b1[1..] {
        assert a1 == [a1[0]] + a1[1..];
        assert b1 == [b1[0]] + b1[1..];
      }
    } else {
      assert a1 + a2 == a2;
      assert b1 + b2 == b2;
    }
  }

  lemma {:induction false} StrLessIrreflexive(a: string)
    ensures !StrLess(a, a)
    decreases |a|
  {
    if |a| > 0 {
      StrLessIrreflexive(a[1..]);
    }
  }

  /** Any two different strings are ordered one way. */
  lemma {:induction false} StrLessTotal(a: string, b: string)
    ensures a == b || StrLess(a, b) || StrLess(b, a)
    decreases |a|
  {
    if |a| > 0 && |b| > 0 && a[0] == b[0] {
      StrLessTotal(a[1..], b[1..]);
      if a[1..] == b[1..] {
        assert a == [a[0]] + a[1..];
        assert b == [b[0]] + b[1..];
      }
    }
  }

  lemma {:induction false} StrLessTransitive(a: string, b: string, c: string)
    requires StrLess(a, b) && StrLess(b, c)
    ensures StrLess(a, c)
    decreases |a|
  {
    if |a| > 0 && a[0] == b[0] && b[0] == c[0] {
      StrLessTransitive(a[1..], b[1..], c[1..]);
    }
  }

  lemma {:induction false} StrLessAsymmetric(a: string, b: string)
    requires StrLess(a, b)
    ensures !StrLess(b, a)
    decreases |a|
  {
    if |a| > 0 && |b| > 0 && a[0] == b[0] {
      StrLessAsymmetric(a[1..], b[1..]);
    }
  }

  /** "Not greater": the order string sorts use. */
  predicate StrLe(a: string, b: string)
  {
    !StrLess(b, a)
  }

  lemma StrLeTotalPreorder()
    ensures forall a, b :: StrLe(a, b) || StrLe(b, a)
    ensures forall a, b, c :: StrLe(a, b) && StrLe(b, c) ==> StrLe(a, c)
  {
    forall a, b
      ensures StrLe(a, b) || StrLe(b, a)
    {
      if StrLess(b, a) {
        StrLessAsymmetric(b, a);
      }
    }
    forall a, b, c | StrLe(a, b) && StrLe(b, c)
      ensures StrLe(a, c)
    {
      if StrLess(c, a) {
        StrLessTotal(a, b);
        if StrLess(a, b) {
          StrLessTransitive(c, a, b);
        }
      }
    }
  }

  /** Zero-padded renderings of the same width sort like the numbers they render. */
  lemma {:induction false} PadDigitsOrder(n: nat, m: nat, width: nat)
    requires n < m < Pow10(width)
    ensures StrLess(PadDigits(n, width), PadDigits(m, width))
    decreases width
  {
    if width == 0 {
      assert false;
    } else {
      var p := Pow10(width - 1);
      assert m / 10 < p;
      if n / 10 < m / 10 {
        PadDigitsOrder(n / 10, m / 10, width - 1);
      } else {
        StrLessIrreflexive(PadDigits(n / 10, width - 1));
      }
      StrLessConcat(PadDigits(n / 10, width - 1), [DigitChar(n % 10)], PadDigits(m / 10, width - 1), [DigitChar(m % 10)]);
    }
  }

  /** The longest prefix of s made of decimal digits. */
  function LeadingDigits(s: string): (d: string)
    ensures |d| <= |s| && d == s[..|d|]
    ensures forall i :: 0 <= i < |d| ==> IsDigit(d[i])
    ensures |d| < |s| ==> !IsDigit(s[|d|])
    decreases |s|
  {
    if |s| > 0 && IsDigit(s[0]) then [s[0]] + LeadingDigits(s[1..]) else []
  }

  /**
   * JavaScript `parseInt(s)` in base 10: leading white space skipped, an
   * optional sign, then as many digits as follow; no digits at all is NaN
   * (`None`).
   */
  function ParseInt(s: string): (r: Option<int>)
  {
    var t := TrimStart(s);
    var negative := |t| > 0 && t[0] == '-';
    var rest := if |t| > 0 && (t[0] == '-' || t[0] == '+') then t[1..] else t;
    var d := LeadingDigits(rest);
    if |d| == 0 then None
    else if negative then Some(0 - DigitsValue(d))
    else Some(DigitsValue(d))
  }

  /** A string that starts with digits parses as those digits. */
  lemma DigitsFirst(d: string, rest: string)
    requires |d| > 0 && forall i :: 0 <= i < |d| ==> IsDigit(d[i])
    requires |rest| > 0 ==> !IsDigit(rest[0])
    ensures ParseInt(d + rest) == Some(DigitsValue(d))
  {
    var t := d + rest;
    LeadingDigitsOf(d, rest);
    assert t[0] == d[0];
    ParsesLeadingDigits(t, d);
  }

  lemma ParsesLeadingDigits(t: string, d: string)
    requires |t| > 0 && IsDigit(t[0])
    requires |d| > 0 && forall i :: 0 <= i < |d| ==> IsDigit(d[i])
    requires LeadingDigits(t) == d
    ensures ParseInt(t) == Some(DigitsValue(d))
  {
    DigitNotSpace(t);
  }

  lemma DigitNotSpace(t: string)
    requires |t| > 0 && IsDigit(t[0])
    ensures TrimStart(t) == t && t[0] != '-' && t[0] != '+'
  {
    assert !IsSpace(t[0]);
  }

  /** The digit prefix of digits followed by a non-digit is those digits. */
  lemma {:induction false} LeadingDigitsOf(d: string, rest: string)
    requires forall i :: 0 <= i < |d| ==> IsDigit(d[i])
    requires |rest| > 0 ==> !IsDigit(rest[0])
    ensures LeadingDigits(d + rest) == d
    decreases |d|
  {
    if |d| > 0 {
      assert (d + rest)[1..] == d[1..] + rest;
      LeadingDigitsOf(d[1..], rest);
    }
  }
}
