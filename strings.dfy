/**
 * Python string operations the modelled code relies on: the `<` order on `str`,
 * `lower()` on ASCII letters, `startswith`/`endswith`, `split`, `strip`, `str(int)`,
 * and `sorted` on a list of strings.
 */
module Strings {

  /** Python's `<` on strings: code-point lexicographic order, a proper prefix first. */
  predicate LexLess(a: string, b: string)
    decreases |a|
  {
    if |a| == 0 then |b| > 0
    else if |b| == 0 then false
    else if a[0] != b[0] then a[0] < b[0]
    else LexLess(a[1..], b[1..])
  }

  lemma {:induction false} LexLessIrreflexive(a: string)
    ensures !LexLess(a, a)
    decreases |a|
  {
    if |a| > 0 {
      LexLessIrreflexive(a[1..]);
    }
  }

  lemma {:induction false} LexLessTransitive(a: string, b: string, c: string)
    requires LexLess(a, b) && LexLess(b, c)
    ensures LexLess(a, c)
    decreases |a|
  {
    if |a| > 0 && a[0] == b[0] && b[0] == c[0] {
      LexLessTransitive(a[1..], b[1..], c[1..]);
    }
  }

  lemma {:induction false} LexLessTotal(a: string, b: string)
    requires a != b
    ensures LexLess(a, b) || LexLess(b, a)
    decreases |a|
  {
    if |a| > 0 && |b| > 0 && a[0] == b[0] {
      assert a == [a[0]] + a[1..] && b == [b[0]] + b[1..];
      LexLessTotal(a[1..], b[1..]);
    }
  }

  lemma {:induction false} LexLessAsymmetric(a: string, b: string)
    requires LexLess(a, b)
    ensures !LexLess(b, a)
  {
    if LexLess(b, a) {
      LexLessTransitive(a, b, a);
      LexLessIrreflexive(a);
    }
  }

  /** Every element is strictly below the next (so also distinct). */
  ghost predicate StrictlySorted(s: seq<string>)
  {
    forall i, j :: 0 <= i < j < |s| ==> LexLess(s[i], s[j])
  }

  ghost predicate Distinct<T>(s: seq<T>)
  {
    forall i, j :: 0 <= i < j < |s| ==> s[i] != s[j]
  }

  lemma {:induction false} DistinctCons<T>(x: T, s: seq<T>)
    requires x !in s && Distinct(s)
    ensures Distinct([x] + s)
  {
    var w := [x] + s;
    forall i, j | 0 <= i < j < |w| ensures w[i] != w[j] {
      assert w[j] == s[j - 1];
      if i > 0 {
        assert w[i] == s[i - 1];
      }
    }
  }

  /** Places `x` before the first element that is not below it. */
  function Insert(x: string, s: seq<string>): seq<string>
  {
    if s == [] || !LexLess(s[0], x) then [x] + s else [s[0]] + Insert(x, s[1..])
  }

  /** Python's `sorted` on a list of strings (an insertion sort). */
  function SortStrings(s: seq<string>): seq<string>
  {
    if s == [] then [] else Insert(s[0], SortStrings(s[1..]))
  }

  lemma {:induction false} InsertPermutes(x: string, s: seq<string>)
    ensures multiset(Insert(x, s)) == multiset(s) + multiset{x}
  {
    if s != [] && LexLess(s[0], x) {
      InsertPermutes(x, s[1..]);
      assert s == [s[0]] + s[1..];
    }
  }

  /** Inserting an element above a bound keeps every element above it. */
  lemma {:induction false} InsertAbove(x: string, s: seq<string>, low: string)
    requires LexLess(low, x)
    requires forall y :: y in s ==> LexLess(low, y)
    ensures forall y :: y in Insert(x, s) ==> LexLess(low, y)
  {
    if s != [] && LexLess(s[0], x) {
      InsertAbove(x, s[1..], low);
      assert forall y :: y in s[1..] ==> y in s;
    }
  }

  lemma {:induction false} InsertOrdered(x: string, s: seq<string>)
    requires StrictlySorted(s) && x !in s
    ensures StrictlySorted(Insert(x, s))
  {
    if s == [] || !LexLess(s[0], x) {
      if s != [] {
        LexLessTotal(x, s[0]);
        var w := [x] + s;
        forall a, b | 0 <= a < b < |w| ensures LexLess(w[a], w[b]) {
          assert w[b] == s[b - 1];
          if a > 0 {
            assert w[a] == s[a - 1];
          } else if b > 1 {
            LexLessTransitive(x, s[0], s[b - 1]);
          }
        }
      }
    } else {
      assert x !in s[1..] by { assert forall y :: y in s[1..] ==> y in s; }
      InsertOrdered(x, s[1..]);
      var r := Insert(x, s[1..]);
      forall y | y in s[1..] ensures LexLess(s[0], y) {
        var k :| 0 <= k < |s[1..]| && s[1..][k] == y;
        assert s[k + 1] == y;
      }
      InsertAbove(x, s[1..], s[0]);
      var w := [s[0]] + r;
      assert Insert(x, s) == w;
      forall a, b | 0 <= a < b < |w| ensures LexLess(w[a], w[b]) {
        assert w[b] == r[b - 1] && r[b - 1] in r;
        if a > 0 {
          assert w[a] == r[a - 1];
        }
      }
    }
  }

  lemma {:induction false} InsertSorted(x: string, s: seq<string>)
    requires StrictlySorted(s) && x !in s
    ensures StrictlySorted(Insert(x, s))
    ensures multiset(Insert(x, s)) == multiset(s) + multiset{x}
  {
    InsertOrdered(x, s);
    InsertPermutes(x, s);
  }

  lemma {:induction false} SortStringsSorted(s: seq<string>)
    requires Distinct(s)
    ensures StrictlySorted(SortStrings(s))
    ensures multiset(SortStrings(s)) == multiset(s)
  {
    if s != [] {
      assert s == [s[0]] + s[1..];
      SortStringsSorted(s[1..]);
      var r := SortStrings(s[1..]);
      assert s[0] !in s[1..];
      assert s[0] !in multiset(r);
      InsertSorted(s[0], r);
    }
  }

  /** The least element of a strictly sorted sequence comes first. */
  lemma {:induction false} SortedHeadIsLeast(a: seq<string>, x: string)
    requires StrictlySorted(a) && x in a && x != a[0]
    ensures LexLess(a[0], x)
  {
    var i :| 0 <= i < |a| && a[i] == x;
  }

  lemma {:induction false} SameHeads(a: seq<string>, b: seq<string>)
    requires StrictlySorted(a) && StrictlySorted(b)
    requires a != [] && b != [] && multiset(a) == multiset(b)
    ensures a[0] == b[0]
  {
    assert a[0] in multiset(b) && b[0] in multiset(a);
    if a[0] != b[0] {
      SortedHeadIsLeast(a, b[0]);
      SortedHeadIsLeast(b, a[0]);
      LexLessAsymmetric(a[0], b[0]);
    }
  }

  /** Two strictly sorted sequences with the same elements are equal. */
  lemma {:induction false} StrictlySortedUnique(a: seq<string>, b: seq<string>)
    requires StrictlySorted(a) && StrictlySorted(b)
    requires multiset(a) == multiset(b)
    ensures a == b
    decreases |a|
  {
    if a != [] && b != [] {
      SameHeads(a, b);
      assert a == [a[0]] + a[1..] && b == [b[0]] + b[1..];
      assert multiset(a[1..]) == multiset(b[1..]) by {
        assert multiset(a) == multiset{a[0]} + multiset(a[1..]);
        assert multiset(b) == multiset{b[0]} + multiset(b[1..]);
        forall x ensures multiset(a[1..])[x] == multiset(b[1..])[x] {
          assert multiset(a)[x] == multiset{a[0]}[x] + multiset(a[1..])[x];
          assert multiset(b)[x] == multiset{b[0]}[x] + multiset(b[1..])[x];
        }
      }
      StrictlySortedUnique(a[1..], b[1..]);
    }
  }

  predicate StartsWith(s: string, prefix: string)
  {
    |prefix| <= |s| && s[..|prefix|] == prefix
  }

  predicate EndsWith(s: string, suffix: string)
  {
    |suffix| <= |s| && s[|s| - |suffix|..] == suffix
  }

  predicate IsAsciiUpper(c: char) { 'A' <= c <= 'Z' }

  predicate IsAsciiLower(c: char) { 'a' <= c <= 'z' }

  predicate IsAsciiLetter(c: char) { IsAsciiUpper(c) || IsAsciiLower(c) }

  function LowerChar(c: char): (r: char)
    ensures IsAsciiLetter(c) ==> IsAsciiLower(r)
    ensures !IsAsciiLetter(c) ==> !IsAsciiLetter(r)
  {
    if IsAsciiUpper(c) then (c as int - 'A' as int + 'a' as int) as char else c
  }

  /** `str.lower()` on the ASCII letters; every other character is kept. */
  function Lower(s: string): (r: string)
    ensures |r| == |s|
    ensures forall i :: 0 <= i < |s| ==> r[i] == LowerChar(s[i])
  {
    if s == [] then [] else [LowerChar(s[0])] + Lower(s[1..])
  }

  /** `str.split(sep)`: the pieces between occurrences of `sep`, never an empty list. */
  function Split(s: string, sep: char): (r: seq<string>)
    ensures |r| >= 1
  {
    if s == [] then [""]
    else if s[0] == sep then [""] + Split(s[1..], sep)
    else
      var rest := Split(s[1..], sep);
      [[s[0]] + rest[0]] + rest[1..]
  }

  predicate IsSpace(c: char)
  {
    c == ' ' || c == '\t' || c == '\n' || c == '\r' || c == '\U{0B}' || c == '\U{0C}'
  }

  function StripLeft(s: string): (r: string)
    ensures |r| <= |s| && (r == [] || !IsSpace(r[0]))
  {
    if s != [] && IsSpace(s[0]) then StripLeft(s[1..]) else s
  }

  function StripRight(s: string): (r: string)
    ensures |r| <= |s| && (r == [] || !IsSpace(r[|r| - 1]))
  {
    if s != [] && IsSpace(s[|s| - 1]) then StripRight(s[..|s| - 1]) else s
  }

  /** `str.strip()` with the ASCII white-space characters. */
  function Strip(s: string): string
  {
    StripRight(StripLeft(s))
  }

  predicate IsDigit(c: char) { '0' <= c <= '9' }

  function DigitChar(d: nat): char
    requires d < 10
  {
    ('0' as int + d) as char
  }

  /** `str(n)` for a non-negative integer: its decimal digits. */
  function NatToString(n: nat): (r: string)
    ensures |r| >= 1
    ensures forall i :: 0 <= i < |r| ==> IsDigit(r[i])
  {
    if n < 10 then [DigitChar(n)] else NatToString(n / 10) + [DigitChar(n % 10)]
  }

  /** `int(s)` for a string made of decimal digits. */
  function DigitsValue(s: string): nat
    requires forall i :: 0 <= i < |s| ==> IsDigit(s[i])
  {
    if s == [] then 0
    else
      var last := s[|s| - 1];
      assert IsDigit(last);
      10 * DigitsValue(s[..|s| - 1]) + (last as int - '0' as int)
  }

  lemma {:induction false} DigitsValueOfNatToString(n: nat)
    ensures DigitsValue(NatToString(n)) == n
  {
    if n >= 10 {
      var r := NatToString(n);
      assert r[..|r| - 1] == NatToString(n / 10);
      DigitsValueOfNatToString(n / 10);
    }
  }
}
