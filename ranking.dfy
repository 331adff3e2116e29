/**
 * The ranking `top` applies to the filtered torrents:
 * `sorted(torrents, key=lambda x: x.seeders, reverse=True)`, a stable sort by seeders
 * from most to fewest (Python keeps the input order of equal keys also when reversing).
 */
module Ranking {
  import opened Torrents
  import opened Sequences

  /** Places `t` before the first torrent with at most as many seeders. */
  function InsertBySeeders(t: Torrent, s: seq<Torrent>): seq<Torrent>
  {
    if s == [] || s[0].seeders <= t.seeders then [t] + s
    else [s[0]] + InsertBySeeders(t, s[1..])
  }

  /** The sort, as an insertion sort from the back of the list. */
  function SortBySeeders(s: seq<Torrent>): seq<Torrent>
  {
    if s == [] then [] else InsertBySeeders(s[0], SortBySeeders(s[1..]))
  }

  ghost predicate SeedersNonIncreasing(s: seq<Torrent>)
  {
    forall i, j :: 0 <= i < j < |s| ==> s[i].seeders >= s[j].seeders
  }

  /** The torrents of `s` with exactly `k` seeders, in their order. */
  function WithSeeders(s: seq<Torrent>, k: int): seq<Torrent>
  {
    Keep(s, (t: Torrent) => t.seeders == k)
  }

  lemma {:induction false} InsertBySeedersPermutes(t: Torrent, s: seq<Torrent>)
    ensures multiset(InsertBySeeders(t, s)) == multiset(s) + multiset{t}
  {
    if s != [] && s[0].seeders > t.seeders {
      InsertBySeedersPermutes(t, s[1..]);
      assert s == [s[0]] + s[1..];
    }
  }

  /** Every torrent of a non-increasing list has at most as many seeders as its head. */
  lemma {:induction false} HeadIsMost(s: seq<Torrent>)
    requires s != [] && SeedersNonIncreasing(s)
    ensures forall x :: x in s[1..] ==> x.seeders <= s[0].seeders
  {
    forall x | x in s[1..] ensures x.seeders <= s[0].seeders {
      var j :| 0 <= j < |s[1..]| && s[1..][j] == x;
      assert s[j + 1] == x;
    }
  }

  /** Inserting below a bound keeps every seeder count below it. */
  lemma {:induction false} InsertBySeedersBounded(t: Torrent, s: seq<Torrent>, bound: int)
    requires t.seeders <= bound
    requires forall x :: x in s ==> x.seeders <= bound
    ensures forall x :: x in InsertBySeeders(t, s) ==> x.seeders <= bound
  {
    if s != [] && s[0].seeders > t.seeders {
      InsertBySeedersBounded(t, s[1..], bound);
      assert forall x :: x in s[1..] ==> x in s;
    }
  }

  lemma {:induction false} InsertBySeedersOrdered(t: Torrent, s: seq<Torrent>)
    requires SeedersNonIncreasing(s)
    ensures SeedersNonIncreasing(InsertBySeeders(t, s))
  {
    if s != [] && s[0].seeders > t.seeders {
      InsertBySeedersOrdered(t, s[1..]);
      var r := InsertBySeeders(t, s[1..]);
      HeadIsMost(s);
      InsertBySeedersBounded(t, s[1..], s[0].seeders);
      var w := [s[0]] + r;
      assert InsertBySeeders(t, s) == w;
      forall a, b | 0 <= a < b < |w| ensures w[a].seeders >= w[b].seeders {
        assert w[b] == r[b - 1] && r[b - 1] in r;
        if a > 0 {
          assert w[a] == r[a - 1];
        }
      }
    }
  }

  lemma {:induction false} InsertBySeedersSorted(t: Torrent, s: seq<Torrent>)
    requires SeedersNonIncreasing(s)
    ensures SeedersNonIncreasing(InsertBySeeders(t, s))
    ensures multiset(InsertBySeeders(t, s)) == multiset(s) + multiset{t}
  {
    InsertBySeedersOrdered(t, s);
    InsertBySeedersPermutes(t, s);
  }

  /** The sort orders by seeders and is a permutation of its input. */
  lemma {:induction false} SortBySeedersSorted(s: seq<Torrent>)
    ensures SeedersNonIncreasing(SortBySeeders(s))
    ensures multiset(SortBySeeders(s)) == multiset(s)
  {
    if s != [] {
      SortBySeedersSorted(s[1..]);
      InsertBySeedersSorted(s[0], SortBySeeders(s[1..]));
      assert s == [s[0]] + s[1..];
    }
  }

  lemma {:induction false} InsertBySeedersClass(t: Torrent, s: seq<Torrent>, k: int)
    ensures WithSeeders(InsertBySeeders(t, s), k) == (if t.seeders == k then [t] else []) + WithSeeders(s, k)
  {
    if s != [] && s[0].seeders > t.seeders {
      InsertBySeedersClass(t, s[1..], k);
      assert s == [s[0]] + s[1..];
    }
  }

  /** Stability: the torrents with equal seeders keep their input order. */
  lemma {:induction false} SortBySeedersStable(s: seq<Torrent>, k: int)
    ensures WithSeeders(SortBySeeders(s), k) == WithSeeders(s, k)
  {
    if s != [] {
      SortBySeedersStable(s[1..], k);
      InsertBySeedersClass(s[0], SortBySeeders(s[1..]), k);
    }
  }
}
