/**
 * The plugin registry merge-diff of `TorrentEngine._reload_plugins` (tvfamily/core.py):
 * a two-cursor walk over the sorted plugin basenames found on disk and the names of the
 * loaded plugins, with the sentinel `"~"` after the loaded names. A loaded plugin is a
 * `Handle`; loading a module is the allocation of a fresh id.
 */
module Plugins {
  import opened Wrappers
  import opened Strings
  import Sequences

  /** A loaded plugin module: its `__name__` and an identity standing for the module object. */
  datatype Handle = Handle(name: string, id: nat)

  function Names(hs: seq<Handle>): (r: seq<string>)
    ensures |r| == |hs|
    ensures forall k :: 0 <= k < |hs| ==> r[k] == hs[k].name
  {
    if hs == [] then [] else [hs[0].name] + Names(hs[1..])
  }

  function Ids(hs: seq<Handle>): (r: seq<nat>)
    ensures |r| == |hs|
    ensures forall k :: 0 <= k < |hs| ==> r[k] == hs[k].id
  {
    if hs == [] then [] else [hs[0].id] + Ids(hs[1..])
  }

  const Sentinel: string := "~"

  /** A file the registry considers: a `.py` file whose name does not start with `~`. */
  predicate IsPluginFile(f: string)
  {
    EndsWith(f, ".py") && !StartsWith(f, Sentinel)
  }

  /** `f.rsplit('.', 1)[0]` on the `.py` files it is applied to: the name without its extension. */
  function Basename(f: string): (b: string)
    ensures EndsWith(f, ".py") ==> b + ".py" == f
  {
    if EndsWith(f, ".py") then f[..|f| - 3] else f
  }

  function Basenames(fs: seq<string>): (r: seq<string>)
    ensures |r| == |fs|
    ensures forall k :: 0 <= k < |fs| ==> r[k] == Basename(fs[k])
  {
    if fs == [] then [] else [Basename(fs[0])] + Basenames(fs[1..])
  }

  /** The state the walk returns: the new plugin list and the next unused id. */
  datatype Walked = Walked(handles: seq<Handle>, next: nat)

  function Extend(done: seq<Handle>, r: Result<Walked>): Result<Walked>
  {
    if r.Ok? then Ok(Walked(done + r.value.handles, r.value.next)) else r
  }

  /**
   * The `while` loop from cursor `i` over `bases` and cursor `j` over the loaded names
   * followed by the sentinel. Indexing past the sentinel, and reusing the handle "at" the
   * sentinel when a basename equals `"~"`, raise `IndexError`, which is not caught.
   */
  function WalkAt(bases: seq<string>, loaded: seq<Handle>, i: nat, j: nat, next: nat): Result<Walked>
    requires i <= |bases| && j <= |loaded| + 1
    decreases |bases| - i, |loaded| + 1 - j
  {
    if i == |bases| then Ok(Walked([], next))
    else if j > |loaded| then Err(IndexError)
    else
      var current := if j < |loaded| then loaded[j].name else Sentinel;
      if bases[i] == current then
        if j == |loaded| then Err(IndexError)
        else Extend([loaded[j]], WalkAt(bases, loaded, i + 1, j + 1, next))
      else if LexLess(bases[i], current) then
        Extend([Handle(bases[i], next)], WalkAt(bases, loaded, i + 1, j, next + 1))
      else
        WalkAt(bases, loaded, i, j + 1, next)
  }

  /** The walk from the start. */
  function Walk(bases: seq<string>, loaded: seq<Handle>, next: nat): Result<Walked>
  {
    WalkAt(bases, loaded, 0, 0, next)
  }

  /** What a registry holds between reloads: sorted names below the sentinel and fresh, distinct ids. */
  ghost predicate Registry(hs: seq<Handle>, next: nat)
  {
    && StrictlySorted(Names(hs))
    && (forall k :: 0 <= k < |hs| ==> LexLess(hs[k].name, Sentinel))
    && (forall k :: 0 <= k < |hs| ==> hs[k].id < next)
    && Distinct(Ids(hs))
  }

  /**
   * The merge-diff from walk state (i, j): `w` lists exactly the basenames from `i` on; each
   * of its handles is either one of the loaded handles from `j` on, kept as it is, or a new
   * handle for a name that was not loaded, with an id allocated from `next` on; every
   * loaded handle from `j` on whose name is still on disk is kept; and the ids are distinct.
   */
  ghost predicate Merged(bases: seq<string>, loaded: seq<Handle>, i: nat, j: nat, next: nat, w: Walked)
    requires i <= |bases| && j <= |loaded|
  {
    && Names(w.handles) == bases[i..]
    && next <= w.next
    && (forall h :: h in w.handles ==> h in loaded[j..] || (next <= h.id < w.next && h.name !in Names(loaded)))
    && (forall k :: j <= k < |loaded| && loaded[k].name in bases[i..] ==> loaded[k] in w.handles)
    && Distinct(Ids(w.handles))
  }

  /** Sorted basenames below the sentinel merged with a sorted registry whose ids are below `next`. */
  ghost predicate WalkInputs(bases: seq<string>, loaded: seq<Handle>, next: nat)
  {
    && StrictlySorted(bases) && StrictlySorted(Names(loaded))
    && (forall k :: 0 <= k < |bases| ==> LexLess(bases[k], Sentinel))
    && (forall k :: 0 <= k < |loaded| ==> LexLess(loaded[k].name, Sentinel))
    && (forall k :: 0 <= k < |loaded| ==> loaded[k].id < next)
    && Distinct(Ids(loaded))
  }

  lemma {:induction false} WalkAtMerges(bases: seq<string>, loaded: seq<Handle>, i: nat, j: nat, next: nat)
    requires i <= |bases| && j <= |loaded|
    requires WalkInputs(bases, loaded, next)
    requires forall k :: 0 <= k < j ==> i < |bases| ==> LexLess(loaded[k].name, bases[i])
    ensures WalkAt(bases, loaded, i, j, next).Ok?
    ensures Merged(bases, loaded, i, j, next, WalkAt(bases, loaded, i, j, next).value)
    decreases |bases| - i, |loaded| + 1 - j, 1
  {
    if i == |bases| {
      return;
    }
    if j == |loaded| || (bases[i] != loaded[j].name && LexLess(bases[i], loaded[j].name)) {
      WalkAtNew(bases, loaded, i, j, next);
    } else if bases[i] == loaded[j].name {
      WalkAtKeep(bases, loaded, i, j, next);
    } else {
      LexLessTotal(bases[i], loaded[j].name);
      WalkAtDrop(bases, loaded, i, j, next);
    }
  }

  /*
   * The three steps of the walk. Each names the successor cursors (`i1`, `j1`, `n1`) as
   * variables and hands the walk results to the merge lemmas as values.
   */

  /** Raising `next` keeps the inputs of a walk valid. */
  lemma {:induction false} WalkInputsBelow(bases: seq<string>, loaded: seq<Handle>, next: nat, n1: nat)
    requires WalkInputs(bases, loaded, next) && n1 == next + 1
    ensures WalkInputs(bases, loaded, n1)
  {
  }

  /** After consuming `bases[i]` (and `loaded[j]` when it is kept), the loaded names passed stay below the next basename. */
  lemma {:induction false} WalkNextBasename(bases: seq<string>, loaded: seq<Handle>, i: nat, i1: nat, j: nat, j1: nat, kept: bool)
    requires i < |bases| && j <= |loaded| && i1 == i + 1
    requires StrictlySorted(bases)
    requires kept ==> j < |loaded| && bases[i] == loaded[j].name
    requires j1 == if kept then j + 1 else j
    requires forall k :: 0 <= k < j ==> LexLess(loaded[k].name, bases[i])
    ensures forall k :: 0 <= k < j1 ==> i1 < |bases| ==> LexLess(loaded[k].name, bases[i1])
  {
    forall k | 0 <= k < j1 && i1 < |bases| ensures LexLess(loaded[k].name, bases[i1]) {
      if k < j {
        LexLessTransitive(loaded[k].name, bases[i], bases[i1]);
      }
    }
  }

  lemma {:induction false} WalkAtNew(bases: seq<string>, loaded: seq<Handle>, i: nat, j: nat, next: nat)
    requires i < |bases| && j <= |loaded|
    requires WalkInputs(bases, loaded, next)
    requires j == |loaded| || (bases[i] != loaded[j].name && LexLess(bases[i], loaded[j].name))
    requires forall k :: 0 <= k < j ==> LexLess(loaded[k].name, bases[i])
    ensures WalkAt(bases, loaded, i, j, next).Ok?
    ensures Merged(bases, loaded, i, j, next, WalkAt(bases, loaded, i, j, next).value)
    decreases |bases| - i, |loaded| + 1 - j, 0
  {
    var i1, n1 := i + 1, next + 1;
    WalkNextBasename(bases, loaded, i, i1, j, j, false);
    WalkInputsBelow(bases, loaded, next, n1);
    WalkAtMerges(bases, loaded, i1, j, n1);
    NewNameStep(bases, loaded, i, i1, j, next, n1);
    NewMerged(bases, loaded, i, i1, j, next, n1, WalkAt(bases, loaded, i, j, next), WalkAt(bases, loaded, i1, j, n1));
  }

  /** A basename below the current loaded name is new, and the walk loads it with id `next`. */
  lemma {:induction false} NewNameStep(bases: seq<string>, loaded: seq<Handle>, i: nat, i1: nat, j: nat, next: nat, n1: nat)
    requires i < |bases| && j <= |loaded| && i1 == i + 1 && n1 == next + 1
    requires StrictlySorted(Names(loaded))
    requires LexLess(bases[i], Sentinel)
    requires j == |loaded| || (bases[i] != loaded[j].name && LexLess(bases[i], loaded[j].name))
    requires forall k :: 0 <= k < j ==> LexLess(loaded[k].name, bases[i])
    ensures bases[i] !in Names(loaded)
    ensures WalkAt(bases, loaded, i, j, next) == Extend([Handle(bases[i], next)], WalkAt(bases, loaded, i1, j, n1))
  {
    var current := if j < |loaded| then loaded[j].name else Sentinel;
    assert bases[i] != current && LexLess(bases[i], current) by {
      LexLessIrreflexive(bases[i]);
    }
    NotBetween(Names(loaded), bases[i], j);
  }

  /** The walk that loads `bases[i]` in front of a merging rest merges. */
  lemma {:induction false} NewMerged(bases: seq<string>, loaded: seq<Handle>, i: nat, i1: nat, j: nat, next: nat, n1: nat,
                  r: Result<Walked>, rest: Result<Walked>)
    requires i < |bases| && j <= |loaded| && i1 == i + 1 && n1 == next + 1
    requires bases[i] !in Names(loaded)
    requires forall k :: 0 <= k < |loaded| ==> loaded[k].id < next
    requires rest.Ok? && Merged(bases, loaded, i1, j, n1, rest.value)
    requires r == Extend([Handle(bases[i], next)], rest)
    ensures r.Ok? && Merged(bases, loaded, i, j, next, r.value)
  {
    MergedNew(bases, loaded, i, j, next, rest.value);
  }

  lemma {:induction false} WalkAtKeep(bases: seq<string>, loaded: seq<Handle>, i: nat, j: nat, next: nat)
    requires i < |bases| && j < |loaded|
    requires WalkInputs(bases, loaded, next)
    requires bases[i] == loaded[j].name
    requires forall k :: 0 <= k < j ==> LexLess(loaded[k].name, bases[i])
    ensures WalkAt(bases, loaded, i, j, next).Ok?
    ensures Merged(bases, loaded, i, j, next, WalkAt(bases, loaded, i, j, next).value)
    decreases |bases| - i, |loaded| + 1 - j, 0
  {
    var i1, j1 := i + 1, j + 1;
    WalkNextBasename(bases, loaded, i, i1, j, j1, true);
    WalkAtMerges(bases, loaded, i1, j1, next);
    forall k | j1 <= k < |loaded| ensures loaded[k].name != bases[i] {
      assert LexLess(Names(loaded)[j], Names(loaded)[k]);
      LexLessIrreflexive(bases[i]);
    }
    assert WalkAt(bases, loaded, i, j, next) == Extend([loaded[j]], WalkAt(bases, loaded, i1, j1, next));
    KeptMerged(bases, loaded, i, i1, j, j1, next, WalkAt(bases, loaded, i, j, next), WalkAt(bases, loaded, i1, j1, next));
  }

  /** The walk that keeps `loaded[j]` in front of a merging rest merges. */
  lemma {:induction false} KeptMerged(bases: seq<string>, loaded: seq<Handle>, i: nat, i1: nat, j: nat, j1: nat, next: nat,
                   r: Result<Walked>, rest: Result<Walked>)
    requires i < |bases| && j < |loaded| && i1 == i + 1 && j1 == j + 1
    requires bases[i] == loaded[j].name && loaded[j].id < next
    requires forall k :: j1 <= k < |loaded| ==> loaded[k].name != bases[i]
    requires Distinct(Ids(loaded))
    requires rest.Ok? && Merged(bases, loaded, i1, j1, next, rest.value)
    requires r == Extend([loaded[j]], rest)
    ensures r.Ok? && Merged(bases, loaded, i, j, next, r.value)
  {
    MergedKeep(bases, loaded, i, j, next, rest.value);
  }

  lemma {:induction false} WalkAtDrop(bases: seq<string>, loaded: seq<Handle>, i: nat, j: nat, next: nat)
    requires i < |bases| && j < |loaded|
    requires WalkInputs(bases, loaded, next)
    requires LexLess(loaded[j].name, bases[i])
    requires forall k :: 0 <= k < j ==> LexLess(loaded[k].name, bases[i])
    ensures WalkAt(bases, loaded, i, j, next).Ok?
    ensures Merged(bases, loaded, i, j, next, WalkAt(bases, loaded, i, j, next).value)
    decreases |bases| - i, |loaded| + 1 - j, 0
  {
    var j1 := j + 1;
    WalkAtMerges(bases, loaded, i, j1, next);
    DropStep(bases, loaded, i, j, j1, next);
    NotOnDisk(bases, loaded, i, j);
    DroppedMerged(bases, loaded, i, j, j1, next, WalkAt(bases, loaded, i, j, next), WalkAt(bases, loaded, i, j1, next));
  }

  /** A loaded name below the current basename is passed over. */
  lemma {:induction false} DropStep(bases: seq<string>, loaded: seq<Handle>, i: nat, j: nat, j1: nat, next: nat)
    requires i < |bases| && j < |loaded| && j1 == j + 1
    requires LexLess(loaded[j].name, bases[i])
    ensures WalkAt(bases, loaded, i, j, next) == WalkAt(bases, loaded, i, j1, next)
  {
    assert bases[i] != loaded[j].name by { LexLessIrreflexive(bases[i]); }
    assert !LexLess(bases[i], loaded[j].name) by { LexLessAsymmetric(loaded[j].name, bases[i]); }
  }

  /** The walk that passes over `loaded[j]`, no longer on disk, merges when the rest does. */
  lemma {:induction false} DroppedMerged(bases: seq<string>, loaded: seq<Handle>, i: nat, j: nat, j1: nat, next: nat,
                      r: Result<Walked>, rest: Result<Walked>)
    requires i <= |bases| && j < |loaded| && j1 == j + 1
    requires loaded[j].name !in bases[i..]
    requires rest.Ok? && Merged(bases, loaded, i, j1, next, rest.value)
    requires r == rest
    ensures r.Ok? && Merged(bases, loaded, i, j, next, r.value)
  {
    MergedDrop(bases, loaded, i, j, next, rest.value);
  }

  /** A name strictly between `names[j - 1]` and `names[j]` of a sorted list is not in it. */
  lemma {:induction false} NotBetween(names: seq<string>, b: string, j: nat)
    requires j <= |names|
    requires StrictlySorted(names)
    requires j == |names| || LexLess(b, names[j])
    requires forall k :: 0 <= k < j ==> LexLess(names[k], b)
    ensures b !in names
  {
    LexLessIrreflexive(b);
    forall k | 0 <= k < |names| ensures names[k] != b {
      if k > j {
        LexLessTransitive(b, names[j], names[k]);
      }
    }
  }

  /** A loaded name below the current basename is no longer on disk. */
  lemma {:induction false} NotOnDisk(bases: seq<string>, loaded: seq<Handle>, i: nat, j: nat)
    requires i < |bases| && j < |loaded|
    requires StrictlySorted(bases)
    requires LexLess(loaded[j].name, bases[i])
    ensures loaded[j].name !in bases[i..]
  {
    forall k | i <= k < |bases| ensures bases[k] != loaded[j].name {
      if k > i {
        LexLessTransitive(loaded[j].name, bases[i], bases[k]);
      }
      LexLessIrreflexive(loaded[j].name);
    }
  }

  /** Loading `bases[i]` with id `next` in front of the rest of the walk. */
  lemma {:induction false} MergedNew(bases: seq<string>, loaded: seq<Handle>, i: nat, j: nat, next: nat, rest: Walked)
    requires i < |bases| && j <= |loaded|
    requires bases[i] !in Names(loaded)
    requires forall k :: 0 <= k < |loaded| ==> loaded[k].id < next
    requires Merged(bases, loaded, i + 1, j, next + 1, rest)
    ensures Merged(bases, loaded, i, j, next, Walked([Handle(bases[i], next)] + rest.handles, rest.next))
  {
    var h := Handle(bases[i], next);
    var w := Walked([h] + rest.handles, rest.next);
    ConsNames(bases, i, h, rest.handles);
    assert Names(w.handles) == bases[i..];
    NewIdApart(loaded, j, next, rest.handles);
    ConsDistinct(h, rest.handles);
    assert Distinct(Ids(w.handles));
    NewFromDisk(bases, loaded, i, j, next, rest);
    NewCovers(bases, loaded, i, j, rest.handles);
    assert forall k :: j <= k < |loaded| && loaded[k].name in bases[i..] ==> loaded[k] in w.handles;
  }

  /** The fresh id `next` differs from every id in the rest of the walk. */
  lemma {:induction false} NewIdApart(loaded: seq<Handle>, j: nat, next: nat, hs: seq<Handle>)
    requires j <= |loaded|
    requires forall k :: 0 <= k < |loaded| ==> loaded[k].id < next
    requires forall x :: x in hs ==> x in loaded[j..] || next + 1 <= x.id
    ensures forall x :: x in hs ==> x.id != next
  {
    forall x | x in hs ensures x.id != next {
      if x in loaded[j..] {
        var m :| j <= m < |loaded| && loaded[m] == x;
      }
    }
  }

  /** The walk that loads `bases[i]` draws its handles from the registry from `j` on, or loads them fresh. */
  lemma {:induction false} NewFromDisk(bases: seq<string>, loaded: seq<Handle>, i: nat, j: nat, next: nat, rest: Walked)
    requires i < |bases| && j <= |loaded|
    requires bases[i] !in Names(loaded)
    requires next + 1 <= rest.next
    requires forall x :: x in rest.handles ==> x in loaded[j..] || (next + 1 <= x.id < rest.next && x.name !in Names(loaded))
    ensures forall x :: x in [Handle(bases[i], next)] + rest.handles ==>
      x in loaded[j..] || (next <= x.id < rest.next && x.name !in Names(loaded))
  {
  }

  /** Every registry entry from `j` on whose name is on disk from `i` on is in the rest of the walk. */
  lemma {:induction false} NewCovers(bases: seq<string>, loaded: seq<Handle>, i: nat, j: nat, hs: seq<Handle>)
    requires i < |bases| && j <= |loaded|
    requires bases[i] !in Names(loaded)
    requires forall k :: j <= k < |loaded| && loaded[k].name in bases[i + 1..] ==> loaded[k] in hs
    ensures forall k :: j <= k < |loaded| && loaded[k].name in bases[i..] ==> loaded[k] in hs
  {
    forall k | j <= k < |loaded| && loaded[k].name in bases[i..] ensures loaded[k] in hs {
      assert Names(loaded)[k] == loaded[k].name != bases[i];
      assert bases[i..] == [bases[i]] + bases[i + 1..];
      assert loaded[k].name in bases[i + 1..];
    }
  }

  /** Keeping `loaded[j]`, whose name is `bases[i]`, in front of the rest of the walk. */
  lemma {:induction false} MergedKeep(bases: seq<string>, loaded: seq<Handle>, i: nat, j: nat, next: nat, rest: Walked)
    requires i < |bases| && j < |loaded|
    requires bases[i] == loaded[j].name && loaded[j].id < next
    requires forall k :: j + 1 <= k < |loaded| ==> loaded[k].name != bases[i]
    requires Distinct(Ids(loaded))
    requires Merged(bases, loaded, i + 1, j + 1, next, rest)
    ensures Merged(bases, loaded, i, j, next, Walked([loaded[j]] + rest.handles, rest.next))
  {
    var h := loaded[j];
    var w := Walked([h] + rest.handles, rest.next);
    ConsNames(bases, i, h, rest.handles);
    assert Names(w.handles) == bases[i..];
    KeepIdApart(loaded, j, next, rest);
    ConsDistinct(h, rest.handles);
    assert Distinct(Ids(w.handles));
    KeepFromRegistry(loaded, j, next, rest.handles, rest.next);
    assert forall x :: x in w.handles ==> x in loaded[j..] || (next <= x.id < w.next && x.name !in Names(loaded));
    KeepCovers(bases, loaded, i, j, rest.handles);
    assert forall k :: j <= k < |loaded| && loaded[k].name in bases[i..] ==> loaded[k] in w.handles;
  }

  /** The walk that keeps `loaded[j]` draws its handles from the registry from `j` on, or loads them fresh. */
  lemma {:induction false} KeepFromRegistry(loaded: seq<Handle>, j: nat, next: nat, hs: seq<Handle>, hi: nat)
    requires j < |loaded|
    requires forall h :: h in hs ==> h in loaded[j + 1..] || (next <= h.id < hi && h.name !in Names(loaded))
    ensures forall x :: x in [loaded[j]] + hs ==> x in loaded[j..] || (next <= x.id < hi && x.name !in Names(loaded))
  {
    assert loaded[j..] == [loaded[j]] + loaded[j + 1..];
  }

  /** The kept handle's id differs from every id in the rest of the walk. */
  lemma {:induction false} KeepIdApart(loaded: seq<Handle>, j: nat, next: nat, rest: Walked)
    requires j < |loaded| && loaded[j].id < next
    requires Distinct(Ids(loaded))
    requires forall h :: h in rest.handles ==> h in loaded[j + 1..] || next <= h.id
    ensures forall x :: x in rest.handles ==> x.id != loaded[j].id
  {
    forall x | x in rest.handles ensures x.id != loaded[j].id {
      if x in loaded[j + 1..] {
        var m :| j + 1 <= m < |loaded| && loaded[m] == x;
        assert Ids(loaded)[j] != Ids(loaded)[m];
      }
    }
  }

  /** Every registry entry from `j` on whose name is still on disk is in the walk that keeps `loaded[j]`. */
  lemma {:induction false} KeepCovers(bases: seq<string>, loaded: seq<Handle>, i: nat, j: nat, hs: seq<Handle>)
    requires i < |bases| && j < |loaded| && bases[i] == loaded[j].name
    requires forall k :: j + 1 <= k < |loaded| ==> loaded[k].name != bases[i]
    requires forall k :: j + 1 <= k < |loaded| && loaded[k].name in bases[i + 1..] ==> loaded[k] in hs
    ensures forall k :: j <= k < |loaded| && loaded[k].name in bases[i..] ==> loaded[k] in [loaded[j]] + hs
  {
    forall k | j < k < |loaded| && loaded[k].name in bases[i..] ensures loaded[k] in hs {
      assert bases[i..] == [bases[i]] + bases[i + 1..];
      assert loaded[k].name in bases[i + 1..];
    }
  }

  lemma {:induction false} ConsNames(bases: seq<string>, i: nat, h: Handle, hs: seq<Handle>)
    requires i < |bases| && h.name == bases[i]
    requires Names(hs) == bases[i + 1..]
    ensures Names([h] + hs) == bases[i..]
  {
    assert Names([h] + hs)[1..] == Names(hs);
    assert bases[i..] == [bases[i]] + bases[i + 1..];
  }

  lemma {:induction false} ConsDistinct(h: Handle, hs: seq<Handle>)
    requires forall x :: x in hs ==> x.id != h.id
    requires Distinct(Ids(hs))
    ensures Distinct(Ids([h] + hs))
  {
    var w := [h] + hs;
    assert w[1..] == hs;
    assert Ids(w) == [h.id] + Ids(hs);
    assert h.id !in Ids(hs) by {
      forall k | 0 <= k < |hs| ensures Ids(hs)[k] != h.id {
        assert hs[k] in hs;
      }
    }
    DistinctCons(h.id, Ids(hs));
  }

  /** Dropping `loaded[j]`, whose name is not on disk from `i` on. */
  lemma {:induction false} MergedDrop(bases: seq<string>, loaded: seq<Handle>, i: nat, j: nat, next: nat, rest: Walked)
    requires i <= |bases| && j < |loaded|
    requires loaded[j].name !in bases[i..]
    requires Merged(bases, loaded, i, j + 1, next, rest)
    ensures Merged(bases, loaded, i, j, next, rest)
  {
    assert forall x :: x in loaded[j + 1..] ==> x in loaded[j..];
  }

  /**
   * A basename that is not below the sentinel makes the walk raise `IndexError`, whatever
   * the order of the lists: it is never equal to a loaded name below the sentinel, so the
   * cursor over the loaded names runs past the sentinel.
   */
  lemma {:induction false} WalkAtCrashes(bases: seq<string>, loaded: seq<Handle>, i: nat, j: nat, next: nat, bad: nat)
    requires i <= bad < |bases| && j <= |loaded| + 1
    requires !LexLess(bases[bad], Sentinel)
    requires forall k :: 0 <= k < |loaded| ==> LexLess(loaded[k].name, Sentinel)
    ensures WalkAt(bases, loaded, i, j, next).Err?
    decreases |bases| - i, |loaded| + 1 - j
  {
    if j <= |loaded| {
      var current := if j < |loaded| then loaded[j].name else Sentinel;
      if bases[i] == current {
        if j < |loaded| {
          assert bad != i;
          WalkAtCrashes(bases, loaded, i + 1, j + 1, next, bad);
        }
      } else if LexLess(bases[i], current) {
        if bad == i && j < |loaded| {
          LexLessTransitive(bases[i], current, Sentinel);
        }
        assert bad != i;
        WalkAtCrashes(bases, loaded, i + 1, j, next + 1, bad);
      } else {
        WalkAtCrashes(bases, loaded, i, j + 1, next, bad);
      }
    }
  }

  /**
   * What a walk from (i, j) that returns gives whatever the order of the basenames: one
   * handle per basename from `i` on, in their order, each a loaded handle or a new one
   * with an id allocated from `next` on.
   */
  ghost predicate Shaped(bases: seq<string>, loaded: seq<Handle>, i: nat, next: nat, w: Walked)
    requires i <= |bases|
  {
    && Names(w.handles) == bases[i..]
    && next <= w.next
    && forall h :: h in w.handles ==> h in loaded || next <= h.id < w.next
  }

  /** Any walk that does not raise has the shape of its basenames, sorted or not. */
  lemma {:induction false} WalkAtShape(bases: seq<string>, loaded: seq<Handle>, i: nat, j: nat, next: nat)
    requires i <= |bases| && j <= |loaded| + 1
    requires WalkAt(bases, loaded, i, j, next).Ok?
    ensures Shaped(bases, loaded, i, next, WalkAt(bases, loaded, i, j, next).value)
    decreases |bases| - i, |loaded| + 1 - j
  {
    if i < |bases| {
      var current := if j < |loaded| then loaded[j].name else Sentinel;
      var r := WalkAt(bases, loaded, i, j, next);
      if bases[i] == current {
        var i1, j1 := i + 1, j + 1;
        var rest := WalkAt(bases, loaded, i1, j1, next);
        assert r == Extend([loaded[j]], rest);
        WalkAtShape(bases, loaded, i1, j1, next);
        ExtendShape(bases, loaded, i, i1, loaded[j], next, next, r, rest);
      } else if LexLess(bases[i], current) {
        var i1, n1 := i + 1, next + 1;
        var rest := WalkAt(bases, loaded, i1, j, n1);
        assert r == Extend([Handle(bases[i], next)], rest);
        WalkAtShape(bases, loaded, i1, j, n1);
        ExtendShape(bases, loaded, i, i1, Handle(bases[i], next), next, n1, r, rest);
      } else {
        var j1 := j + 1;
        assert r == WalkAt(bases, loaded, i, j1, next);
        WalkAtShape(bases, loaded, i, j1, next);
      }
    }
  }

  /** A handle for `bases[i]`, loaded or allocated between `next` and `lo`, in front of a shaped rest. */
  lemma {:induction false} ExtendShape(bases: seq<string>, loaded: seq<Handle>, i: nat, i1: nat, h: Handle,
                                       next: nat, lo: nat, r: Result<Walked>, rest: Result<Walked>)
    requires i < |bases| && i1 == i + 1 && h.name == bases[i] && next <= lo
    requires h in loaded || next <= h.id < lo
    requires rest.Ok? && Shaped(bases, loaded, i1, lo, rest.value)
    requires r == Extend([h], rest)
    ensures r.Ok? && Shaped(bases, loaded, i, next, r.value)
  {
    ConsNames(bases, i, h, rest.value.handles);
  }

  /**
   * The reload diff: merging sorted basenames below the sentinel into a registry gives a
   * registry whose names are exactly the basenames; a loaded handle whose name is still on
   * disk is kept as it is, every other handle is new with a fresh id, and the loaded
   * handles whose names are gone are dropped.
   */
  lemma {:induction false} WalkMerges(bases: seq<string>, loaded: seq<Handle>, next: nat)
    requires StrictlySorted(bases)
    requires forall k :: 0 <= k < |bases| ==> LexLess(bases[k], Sentinel)
    requires Registry(loaded, next)
    ensures Walk(bases, loaded, next).Ok?
    ensures var w := Walk(bases, loaded, next).value;
      && Names(w.handles) == bases
      && Registry(w.handles, w.next)
      && (forall h :: h in loaded && h.name in bases ==> h in w.handles)
      && (forall h :: h in w.handles ==> h in loaded || (h.name !in Names(loaded) && next <= h.id < w.next))
  {
    WalkAtMerges(bases, loaded, 0, 0, next);
    var r := Walk(bases, loaded, next);
    assert r == WalkAt(bases, loaded, 0, 0, next);
    MergedFromStart(bases, loaded, next, r.value);
  }

  /** A walk merged from the start lists exactly the basenames and keeps the registry invariant. */
  lemma {:induction false} MergedFromStart(bases: seq<string>, loaded: seq<Handle>, next: nat, w: Walked)
    requires forall k :: 0 <= k < |bases| ==> LexLess(bases[k], Sentinel)
    requires StrictlySorted(bases) && Registry(loaded, next)
    requires Merged(bases, loaded, 0, 0, next, w)
    ensures Names(w.handles) == bases
    ensures Registry(w.handles, w.next)
    ensures forall h :: h in loaded && h.name in bases ==> h in w.handles
    ensures forall h :: h in w.handles ==> h in loaded || (h.name !in Names(loaded) && next <= h.id < w.next)
  {
    assert bases[0..] == bases && loaded[0..] == loaded;
    forall k | 0 <= k < |w.handles| ensures w.handles[k].id < w.next {
      assert w.handles[k] in w.handles;
      if w.handles[k] in loaded {
        var m :| 0 <= m < |loaded| && loaded[m] == w.handles[k];
      }
    }
    forall k | 0 <= k < |w.handles| ensures LexLess(w.handles[k].name, Sentinel) {
      assert Names(w.handles)[k] == bases[k];
    }
    forall h | h in loaded && h.name in bases ensures h in w.handles {
      var m :| 0 <= m < |loaded| && loaded[m] == h;
    }
  }

  /** With sorted basenames and a registry, the walk returns exactly when every basename is below the sentinel. */
  lemma {:induction false} WalkOkIffBelowSentinel(bases: seq<string>, loaded: seq<Handle>, next: nat)
    requires StrictlySorted(bases)
    requires Registry(loaded, next)
    ensures Walk(bases, loaded, next).Ok? <==> forall k :: 0 <= k < |bases| ==> LexLess(bases[k], Sentinel)
  {
    if forall k :: 0 <= k < |bases| ==> LexLess(bases[k], Sentinel) {
      WalkMerges(bases, loaded, next);
    } else {
      var bad :| 0 <= bad < |bases| && !LexLess(bases[bad], Sentinel);
      WalkAtCrashes(bases, loaded, 0, 0, next, bad);
    }
  }

  /** The directory entries the registry considers. */
  function PluginFiles(listing: seq<string>): (r: seq<string>)
    ensures forall f :: f in r <==> f in listing && IsPluginFile(f)
  {
    var r := Sequences.Keep(listing, IsPluginFile);
    assert forall f :: f in r <==> f in listing && IsPluginFile(f) by {
      forall f ensures f in r <==> f in listing && IsPluginFile(f) {
        Sequences.KeepMembership(listing, IsPluginFile, f);
      }
    }
    r
  }

  /** The names the loop walks as the source computes them: the basenames of the sorted file names. */
  function BasenamesAsWritten(listing: seq<string>): seq<string>
  {
    Basenames(SortStrings(PluginFiles(listing)))
  }

  /** The sorted basenames, which the walk requires. */
  function SortedBasenames(listing: seq<string>): seq<string>
  {
    SortStrings(Basenames(PluginFiles(listing)))
  }

  /**
   * Sorting the file names does not sort the basenames: `"a-b.py" < "a.py"` while
   * `"a" < "a-b"`. With plugin `a` loaded and files `a.py` and `a-b.py` on disk, the walk as
   * written drops the loaded `a` and loads it again as a new module, and leaves the list
   * unsorted; walking the sorted basenames keeps `a` as it is.
   */
  lemma {:induction false} FileOrderIsNotNameOrder()
    ensures BasenamesAsWritten(["a.py", "a-b.py"]) == ["a-b", "a"]
    ensures Walk(BasenamesAsWritten(["a.py", "a-b.py"]), [Handle("a", 0)], 1)
         == Ok(Walked([Handle("a-b", 1), Handle("a", 2)], 3))
    ensures SortedBasenames(["a.py", "a-b.py"]) == ["a", "a-b"]
    ensures Walk(SortedBasenames(["a.py", "a-b.py"]), [Handle("a", 0)], 1)
         == Ok(Walked([Handle("a", 0), Handle("a-b", 1)], 2))
  {
    ExampleBasenames();
    ExampleWalkAsWritten();
    ExampleWalkSorted();
  }

  /** The two orders of the basenames of `a.py` and `a-b.py`. */
  lemma {:induction false} ExampleBasenames()
    ensures BasenamesAsWritten(["a.py", "a-b.py"]) == ["a-b", "a"]
    ensures SortedBasenames(["a.py", "a-b.py"]) == ["a", "a-b"]
  {
    ExamplePluginFiles();
    ExampleFileOrder();
    ExampleNameOrder();
  }

  /** Both entries are plugin files. */
  lemma {:induction false} ExamplePluginFiles()
    ensures PluginFiles(["a.py", "a-b.py"]) == ["a.py", "a-b.py"]
  {
    assert "a.py"[1..] == ".py" && "a-b.py"[3..] == ".py";
    assert Sentinel[0] == '~' && "a.py"[..1][0] == 'a' && "a-b.py"[..1][0] == 'a';
    assert IsPluginFile("a.py") && IsPluginFile("a-b.py");
  }

  /** Sorted as file names, `a-b.py` comes first; its basenames follow that order. */
  lemma {:induction false} ExampleFileOrder()
    ensures SortStrings(["a.py", "a-b.py"]) == ["a-b.py", "a.py"]
    ensures Basenames(["a-b.py", "a.py"]) == ["a-b", "a"]
  {
    assert "a.py"[..1] == "a" && "a-b.py"[..3] == "a-b";
    assert Basename("a.py") == "a" && Basename("a-b.py") == "a-b";
  }

  /** Sorted as names, `a` comes first. */
  lemma {:induction false} ExampleNameOrder()
    ensures Basenames(["a.py", "a-b.py"]) == ["a", "a-b"]
    ensures SortStrings(["a", "a-b"]) == ["a", "a-b"]
  {
    assert "a.py"[..1] == "a" && "a-b.py"[..3] == "a-b";
    assert Basename("a.py") == "a" && Basename("a-b.py") == "a-b";
  }

  /** The walk over `a-b`, `a` with `a` loaded: `a-b` is loaded, `a` dropped, then loaded again. */
  lemma {:induction false} ExampleWalkAsWritten()
    ensures Walk(["a-b", "a"], [Handle("a", 0)], 1) == Ok(Walked([Handle("a-b", 1), Handle("a", 2)], 3))
  {
    var asWritten := [Handle("a-b", 1), Handle("a", 2)];
    assert WalkAt(["a-b", "a"], [Handle("a", 0)], 2, 1, 3) == Ok(Walked([], 3));
    assert LexLess("a", Sentinel) && LexLess("a-b", Sentinel);
    assert [Handle("a", 2)] + [] == [Handle("a", 2)];
    assert WalkAt(["a-b", "a"], [Handle("a", 0)], 1, 1, 2) == Ok(Walked([Handle("a", 2)], 3));
    assert [Handle("a-b", 1)] + [Handle("a", 2)] == asWritten;
    assert WalkAt(["a-b", "a"], [Handle("a", 0)], 0, 1, 1) == Ok(Walked(asWritten, 3));
  }

  /** The walk over `a`, `a-b` with `a` loaded keeps `a` and loads `a-b`. */
  lemma {:induction false} ExampleWalkSorted()
    ensures Walk(["a", "a-b"], [Handle("a", 0)], 1) == Ok(Walked([Handle("a", 0), Handle("a-b", 1)], 2))
  {
    assert WalkAt(["a", "a-b"], [Handle("a", 0)], 2, 1, 2) == Ok(Walked([], 2));
    assert LexLess("a", Sentinel) && LexLess("a-b", Sentinel);
    assert [Handle("a-b", 1)] + [] == [Handle("a-b", 1)];
    assert WalkAt(["a", "a-b"], [Handle("a", 0)], 1, 1, 1) == Ok(Walked([Handle("a-b", 1)], 2));
    assert [Handle("a", 0)] + [Handle("a-b", 1)] == [Handle("a", 0), Handle("a-b", 1)];
    assert WalkAt(["a", "a-b"], [Handle("a", 0)], 0, 0, 1) == Ok(Walked([Handle("a", 0), Handle("a-b", 1)], 2));
  }

  /** Distinct directory entries give strictly sorted basenames to walk. */
  lemma {:induction false} SortedBasenamesSorted(listing: seq<string>)
    requires Distinct(listing)
    ensures StrictlySorted(SortedBasenames(listing))
    ensures forall b :: b in SortedBasenames(listing) <==> exists f :: f in listing && IsPluginFile(f) && b == Basename(f)
  {
    var bs := Basenames(PluginFiles(listing));
    PluginBasenamesDistinct(listing);
    PluginBasenamesMembership(listing);
    SortStringsSorted(bs);
    forall b ensures b in SortStrings(bs) <==> exists f :: f in listing && IsPluginFile(f) && b == Basename(f) {
      assert b in SortStrings(bs) <==> b in multiset(bs);
    }
  }

  /** Distinct plugin files have distinct basenames. */
  lemma {:induction false} PluginBasenamesDistinct(listing: seq<string>)
    requires Distinct(listing)
    ensures Distinct(Basenames(PluginFiles(listing)))
  {
    var files := PluginFiles(listing);
    assert files == Sequences.Keep(listing, IsPluginFile);
    Sequences.KeepDistinct(listing, IsPluginFile);
    assert forall k1, k2 :: 0 <= k1 < k2 < |files| ==> files[k1] != files[k2];
    var bs := Basenames(files);
    forall k1, k2 | 0 <= k1 < k2 < |bs| ensures bs[k1] != bs[k2] {
      assert files[k1] in files && files[k2] in files;
      assert IsPluginFile(files[k1]) && IsPluginFile(files[k2]);
      assert files[k1] != files[k2];
      assert Basename(files[k1]) + ".py" == files[k1];
      assert Basename(files[k2]) + ".py" == files[k2];
    }
  }

  /** The basenames of the plugin files are the basenames of the listing's plugin files. */
  lemma {:induction false} PluginBasenamesMembership(listing: seq<string>)
    ensures forall b :: b in Basenames(PluginFiles(listing)) <==> exists f :: f in listing && IsPluginFile(f) && b == Basename(f)
  {
    var files := PluginFiles(listing);
    var bs := Basenames(files);
    forall b ensures b in bs <==> exists f :: f in listing && IsPluginFile(f) && b == Basename(f) {
      if b in bs {
        var k :| 0 <= k < |bs| && bs[k] == b;
        assert files[k] in files;
      }
      if exists f :: f in listing && IsPluginFile(f) && b == Basename(f) {
        var f :| f in listing && IsPluginFile(f) && b == Basename(f);
        assert f in files;
        var k :| 0 <= k < |files| && files[k] == f;
        assert bs[k] == b;
      }
    }
  }
}
