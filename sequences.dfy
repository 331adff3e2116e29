/** Order-preserving selection from a sequence, and the subsequence relation. */
module Sequences {

  /** The elements of `s` that satisfy `p`, in their order (a Python list comprehension with a filter). */
  function Keep<T>(s: seq<T>, p: T -> bool): (r: seq<T>)
    ensures |r| <= |s|
  {
    if s == [] then [] else (if p(s[0]) then [s[0]] else []) + Keep(s[1..], p)
  }

  /**
   * `r` is obtained from `s` by deleting elements: each element of `s` is used at most
   * once and the order is kept.
   */
  ghost predicate IsSubsequence<T>(r: seq<T>, s: seq<T>)
    decreases |s|
  {
    if r == [] then true
    else if s == [] then false
    else (r[0] == s[0] && IsSubsequence(r[1..], s[1..])) || IsSubsequence(r, s[1..])
  }

  lemma {:induction false} KeepMembership<T>(s: seq<T>, p: T -> bool, x: T)
    ensures x in Keep(s, p) <==> x in s && p(x)
  {
    if s != [] {
      KeepMembership(s[1..], p, x);
      assert s == [s[0]] + s[1..];
    }
  }

  lemma {:induction false} KeepIsSubsequence<T>(s: seq<T>, p: T -> bool)
    ensures IsSubsequence(Keep(s, p), s)
  {
    if s != [] {
      KeepIsSubsequence(s[1..], p);
      var r := Keep(s, p);
      if p(s[0]) {
        assert r == [s[0]] + Keep(s[1..], p);
        assert r[0] == s[0] && r[1..] == Keep(s[1..], p);
      } else {
        assert r == Keep(s[1..], p);
      }
    }
  }

  /** Keeping all elements changes nothing. */
  lemma {:induction false} KeepAll<T>(s: seq<T>, p: T -> bool)
    requires forall i :: 0 <= i < |s| ==> p(s[i])
    ensures Keep(s, p) == s
  {
    if s != [] {
      KeepAll(s[1..], p);
      assert s == [s[0]] + s[1..];
    }
  }

  /** Two selections in a row are one selection by the conjunction. */
  lemma {:induction false} KeepKeep<T>(s: seq<T>, p: T -> bool, q: T -> bool, pq: T -> bool)
    requires forall x :: pq(x) == (p(x) && q(x))
    ensures Keep(Keep(s, p), q) == Keep(s, pq)
  {
    if s != [] {
      KeepKeep(s[1..], p, q, pq);
      var rest := Keep(s[1..], p);
      if p(s[0]) {
        assert Keep(s, p) == [s[0]] + rest;
        assert Keep(s, p)[1..] == rest;
      } else {
        assert Keep(s, p) == rest;
      }
    }
  }

  /** Keep distributes over concatenation. */
  lemma {:induction false} KeepAppend<T>(a: seq<T>, b: seq<T>, p: T -> bool)
    ensures Keep(a + b, p) == Keep(a, p) + Keep(b, p)
  {
    if a != [] {
      var ab, t := a + b, a[1..];
      var x := if p(a[0]) then [a[0]] else [];
      assert ab[0] == a[0] && ab[1..] == t + b;
      KeepAppend(t, b, p);
      KeepHead(ab, p, x, Keep(t + b, p));
      KeepHead(a, p, x, Keep(t, p));
      assert x + (Keep(t, p) + Keep(b, p)) == (x + Keep(t, p)) + Keep(b, p);
    } else {
      assert a + b == b;
    }
  }

  /** One step of `Keep`: the first element, if it passes, then the kept rest. */
  lemma {:induction false} KeepHead<T>(s: seq<T>, p: T -> bool, x: seq<T>, rest: seq<T>)
    requires s != [] && x == (if p(s[0]) then [s[0]] else []) && rest == Keep(s[1..], p)
    ensures Keep(s, p) == x + rest
  {
  }

  lemma {:induction false} SubsequenceOfEmpty<T>(r: seq<T>)
    requires IsSubsequence(r, [])
    ensures r == []
  {
  }

  lemma {:induction false} IsSubsequenceTransitive<T>(a: seq<T>, b: seq<T>, c: seq<T>)
    requires IsSubsequence(a, b) && IsSubsequence(b, c)
    ensures IsSubsequence(a, c)
    decreases |c|
  {
    if a != [] {
      assert b != [];
      assert c != [];
      if b[0] == c[0] && IsSubsequence(b[1..], c[1..]) {
        if a[0] == b[0] && IsSubsequence(a[1..], b[1..]) {
          IsSubsequenceTransitive(a[1..], b[1..], c[1..]);
        } else {
          IsSubsequenceTransitive(a, b[1..], c[1..]);
        }
      } else {
        IsSubsequenceTransitive(a, b, c[1..]);
      }
    }
  }

  /** A selection from a sequence without repetitions has none either. */
  lemma {:induction false} KeepDistinct<T>(s: seq<T>, p: T -> bool)
    requires forall i, j :: 0 <= i < j < |s| ==> s[i] != s[j]
    ensures forall i, j :: 0 <= i < j < |Keep(s, p)| ==> Keep(s, p)[i] != Keep(s, p)[j]
  {
    if s != [] {
      KeepDistinct(s[1..], p);
      KeepMembership(s[1..], p, s[0]);
      assert s[0] !in s[1..] by {
        forall k | 0 <= k < |s| - 1 ensures s[1..][k] != s[0] {
          assert s[1..][k] == s[k + 1];
        }
      }
    }
  }
}
