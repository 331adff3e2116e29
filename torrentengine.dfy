/**
 * `TorrentEngine` of tvfamily/core.py: the registry of plugin handles reloaded from the
 * plugins directory before each fetch, the fan-out to every plugin's top list, the
 * snapshot of a category's torrents, and `top`, which reads a snapshot back, filters it
 * and ranks it.
 *
 * The directory listing, the plugin calls and the option holding the plugins path are
 * parameters; loading a module is the allocation of a fresh handle id.
 */
module Engine {
  import opened Wrappers
  import opened Strings
  import opened Sequences
  import opened Torrents
  import opened TorrentFilter
  import opened Ranking
  import opened Plugins
  import opened Titles

  /** `os.listdir`: the entries of a directory, or `None` when it cannot be listed (`IOError`). */
  type Lister = string -> Option<seq<string>>

  /** A plugin's `top(category_name, options)`: its torrents, or any exception. */
  type PluginCall = (Handle, string) -> Result<seq<Torrent>>

  /** The listing the reload merges, when the path option is set and the directory can be read. */
  function Listing(path: Option<string>, listDir: Lister): Option<seq<string>>
  {
    if path.None? then None else listDir(path.value)
  }

  /**
   * `_reload_plugins`: without a plugins path option (`KeyError`) or a readable directory
   * (`IOError`) the registry becomes empty; otherwise it is the merge of the plugin files'
   * basenames with the loaded handles. An `IndexError` of the merge escapes.
   */
  function Reload(path: Option<string>, listDir: Lister, loaded: seq<Handle>, next: nat): Result<Walked>
  {
    var listing := Listing(path, listDir);
    if listing.None? then Ok(Walked([], next))
    else Walk(SortedBasenames(listing.value), loaded, next)
  }

  /** The entries of a listing are distinct and their plugin basenames sort below the sentinel. */
  ghost predicate GoodListing(listing: seq<string>)
  {
    && Distinct(listing)
    && forall b :: b in SortedBasenames(listing) ==> LexLess(b, Sentinel)
  }

  /**
   * The reload diff: the registry afterwards holds one handle per plugin file, in name
   * order; a handle whose file is still there is kept as it was, every other handle is a
   * fresh load, and the registry invariant holds again.
   */
  lemma {:induction false} ReloadDiff(path: Option<string>, listDir: Lister, loaded: seq<Handle>, next: nat)
    requires Registry(loaded, next)
    requires Listing(path, listDir).Some? ==> GoodListing(Listing(path, listDir).value)
    ensures Reload(path, listDir, loaded, next).Ok?
    ensures var w := Reload(path, listDir, loaded, next).value;
      && Registry(w.handles, w.next)
      && (Listing(path, listDir).Some? ==>
            && Names(w.handles) == SortedBasenames(Listing(path, listDir).value)
            && forall h :: h in loaded && h.name in Names(w.handles) ==> h in w.handles)
      && (forall h :: h in w.handles ==> h in loaded || (h.name !in Names(loaded) && next <= h.id < w.next))
  {
    var listing := Listing(path, listDir);
    if listing.Some? {
      SortedBasenamesSorted(listing.value);
      var bases := SortedBasenames(listing.value);
      forall k | 0 <= k < |bases| ensures LexLess(bases[k], Sentinel) {
        assert bases[k] in bases;
      }
      WalkMerges(bases, loaded, next);
    }
  }

  /** The registry invariant survives a reload of a good listing. */
  lemma {:induction false} ReloadKeepsRegistry(path: Option<string>, listDir: Lister, loaded: seq<Handle>, next: nat)
    ensures Registry(loaded, next) && (Listing(path, listDir).Some? ==> GoodListing(Listing(path, listDir).value)) ==>
              && Reload(path, listDir, loaded, next).Ok?
              && Registry(Reload(path, listDir, loaded, next).value.handles, Reload(path, listDir, loaded, next).value.next)
  {
    if Registry(loaded, next) && (Listing(path, listDir).Some? ==> GoodListing(Listing(path, listDir).value)) {
      ReloadDiff(path, listDir, loaded, next);
    }
  }

  /**
   * A missing path option or an unreadable directory does not keep the previous handles:
   * the registry is replaced by the empty list built so far.
   */
  lemma {:induction false} ReloadFailureEmpties(path: Option<string>, listDir: Lister, loaded: seq<Handle>, next: nat)
    requires path.None? || listDir(path.value).None?
    ensures Reload(path, listDir, loaded, next) == Ok(Walked([], next))
  {
  }

  /** A plugin basename not below the sentinel makes the reload raise. */
  lemma {:induction false} ReloadCrashes(path: Option<string>, listDir: Lister, loaded: seq<Handle>, next: nat)
    requires Registry(loaded, next)
    requires Listing(path, listDir).Some? && Distinct(Listing(path, listDir).value)
    requires exists b :: b in SortedBasenames(Listing(path, listDir).value) && !LexLess(b, Sentinel)
    ensures Reload(path, listDir, loaded, next).Err?
  {
    var listing := Listing(path, listDir).value;
    SortedBasenamesSorted(listing);
    WalkOkIffBelowSentinel(SortedBasenames(listing), loaded, next);
  }

  /**
   * `_reload_plugins` as written: the walk visits the basenames of the sorted file names,
   * which need not be in name order (see `Plugins.FileOrderIsNotNameOrder`).
   */
  function ReloadAsWritten(path: Option<string>, listDir: Lister, loaded: seq<Handle>, next: nat): Result<Walked>
  {
    var listing := Listing(path, listDir);
    if listing.None? then Ok(Walked([], next))
    else Walk(BasenamesAsWritten(listing.value), loaded, next)
  }

  /**
   * What the reload as written still guarantees when it returns: one handle per plugin file,
   * in the order of the sorted file names, each a loaded handle or a fresh load; the list
   * need not be sorted by name.
   */
  lemma {:induction false} ReloadAsWrittenShape(path: Option<string>, listDir: Lister, loaded: seq<Handle>, next: nat)
    requires ReloadAsWritten(path, listDir, loaded, next).Ok?
    ensures var w := ReloadAsWritten(path, listDir, loaded, next).value;
      && next <= w.next
      && (Listing(path, listDir).Some? ==> Names(w.handles) == BasenamesAsWritten(Listing(path, listDir).value))
      && (Listing(path, listDir).None? ==> w.handles == [])
      && forall h :: h in w.handles ==> h in loaded || next <= h.id < w.next
  {
    var listing := Listing(path, listDir);
    if listing.Some? {
      WalkAtShape(BasenamesAsWritten(listing.value), loaded, 0, 0, next);
    }
  }

  /** As written too, a plugin basename not below the sentinel makes the reload raise. */
  lemma {:induction false} ReloadAsWrittenCrashes(path: Option<string>, listDir: Lister, loaded: seq<Handle>, next: nat)
    requires forall k :: 0 <= k < |loaded| ==> LexLess(loaded[k].name, Sentinel)
    requires Listing(path, listDir).Some?
    requires exists b :: b in BasenamesAsWritten(Listing(path, listDir).value) && !LexLess(b, Sentinel)
    ensures ReloadAsWritten(path, listDir, loaded, next).Err?
  {
    var bases := BasenamesAsWritten(Listing(path, listDir).value);
    var b :| b in bases && !LexLess(b, Sentinel);
    var bad :| 0 <= bad < |bases| && bases[bad] == b;
    WalkAtCrashes(bases, loaded, 0, 0, next, bad);
  }

  /** `_plugin_method_wrapper`: any exception of the plugin becomes `None`. */
  function Wrapped(call: PluginCall, p: Handle, arg: string): (r: Option<seq<Torrent>>)
    ensures r.Some? <==> call(p, arg).Ok?
    ensures r.Some? ==> r.value == call(p, arg).value
  {
    var res := call(p, arg);
    if res.Ok? then Some(res.value) else None
  }

  /** The list the fan-out gathers, one entry per plugin in registry order. */
  function Results(plugins: seq<Handle>, call: PluginCall, arg: string): (rs: seq<Option<seq<Torrent>>>)
    ensures |rs| == |plugins|
    ensures forall k :: 0 <= k < |plugins| ==> rs[k] == Wrapped(call, plugins[k], arg)
  {
    if plugins == [] then [] else [Wrapped(call, plugins[0], arg)] + Results(plugins[1..], call, arg)
  }

  /** The concatenation of the results that are not `None`, in order. */
  function Flatten(rs: seq<Option<seq<Torrent>>>): seq<Torrent>
  {
    if rs == [] then [] else (if rs[0].Some? then rs[0].value else []) + Flatten(rs[1..])
  }

  lemma {:induction false} FlattenAppend(a: seq<Option<seq<Torrent>>>, b: seq<Option<seq<Torrent>>>)
    ensures Flatten(a + b) == Flatten(a) + Flatten(b)
  {
    if a != [] {
      FlattenAppend(a[1..], b);
      assert (a + b)[1..] == a[1..] + b;
    } else {
      assert a + b == b;
    }
  }

  lemma {:induction false} FlattenStep(rs: seq<Option<seq<Torrent>>>, i: nat)
    requires i < |rs|
    ensures Flatten(rs[i..]) == (if rs[i].Some? then rs[i].value else []) + Flatten(rs[i + 1..])
  {
    assert rs[i..][1..] == rs[i + 1..];
  }

  /** The torrents of every plugin that does not raise, plugin by plugin. */
  function FanOut(plugins: seq<Handle>, call: PluginCall, arg: string): seq<Torrent>
  {
    Flatten(Results(plugins, call, arg))
  }

  /** A torrent is fetched exactly when some plugin that does not raise returns it. */
  lemma {:induction false} FanOutMembership(plugins: seq<Handle>, call: PluginCall, arg: string, t: Torrent)
    ensures t in FanOut(plugins, call, arg) <==>
            exists k :: 0 <= k < |plugins| && call(plugins[k], arg).Ok? && t in call(plugins[k], arg).value
  {
    if plugins != [] {
      FanOutMembership(plugins[1..], call, arg, t);
      assert Results(plugins, call, arg)[1..] == Results(plugins[1..], call, arg);
      if exists k :: 0 <= k < |plugins| && call(plugins[k], arg).Ok? && t in call(plugins[k], arg).value {
        var k :| 0 <= k < |plugins| && call(plugins[k], arg).Ok? && t in call(plugins[k], arg).value;
        if k > 0 {
          assert plugins[1..][k - 1] == plugins[k];
        }
      }
      if exists k :: 0 <= k < |plugins[1..]| && call(plugins[1..][k], arg).Ok? && t in call(plugins[1..][k], arg).value {
        var k :| 0 <= k < |plugins[1..]| && call(plugins[1..][k], arg).Ok? && t in call(plugins[1..][k], arg).value;
        assert plugins[k + 1] == plugins[1..][k];
      }
    }
  }

  /** A plugin that raises contributes nothing: the result is that of the other plugins. */
  lemma {:induction false} FailedPluginContributesNothing(plugins: seq<Handle>, call: PluginCall, arg: string, k: nat)
    requires k < |plugins| && call(plugins[k], arg).Err?
    ensures FanOut(plugins, call, arg) == FanOut(plugins[..k] + plugins[k + 1..], call, arg)
  {
    var rs := Results(plugins, call, arg);
    var others := Results(plugins[..k] + plugins[k + 1..], call, arg);
    assert rs == rs[..k] + [None] + rs[k + 1..];
    assert others == rs[..k] + rs[k + 1..];
    FlattenAppend(rs[..k] + [None], rs[k + 1..]);
    FlattenAppend(rs[..k], [None]);
    FlattenAppend(rs[..k], rs[k + 1..]);
    assert Flatten([None]) == [];
  }

  /** The snapshot of a category: absent (no file) gives `[]`; a malformed entry raises. */
  function Stored(snapshots: map<string, seq<map<string, Scalar>>>, category: Category, parse: NameParser)
    : Result<seq<Torrent>>
  {
    var key := CategoryKey(category.name);
    if key !in snapshots then Ok([]) else FromDicts(parse, snapshots[key])
  }

  /** `top(category, filters)`: the snapshot, filtered, ranked by seeders from most to fewest. */
  function TopSpec(snapshots: map<string, seq<map<string, Scalar>>>, category: Category, filters: Option<Filters>,
                   matches: Matcher, parse: NameParser): Result<seq<Torrent>>
  {
    var ts :- Stored(snapshots, category, parse);
    var l :- Filter(ts, filters, matches);
    Ok(SortBySeeders(l))
  }

  /**
   * The ranking: the list `top` returns is a permutation of the filtered snapshot, its
   * seeders never increase, and torrents with equal seeders keep their snapshot order.
   */
  lemma {:induction false} TopRanks(snapshots: map<string, seq<map<string, Scalar>>>, category: Category, filters: Option<Filters>,
                 matches: Matcher, parse: NameParser, k: int)
    requires TopSpec(snapshots, category, filters, matches, parse).Ok?
    ensures var ts := Stored(snapshots, category, parse).value;
            var l := Filter(ts, filters, matches).value;
            var r := TopSpec(snapshots, category, filters, matches, parse).value;
            && multiset(r) == multiset(l)
            && SeedersNonIncreasing(r)
            && WithSeeders(r, k) == WithSeeders(l, k)
            && IsSubsequence(l, ts)
  {
    var ts := Stored(snapshots, category, parse).value;
    var l := Filter(ts, filters, matches).value;
    SortBySeedersSorted(l);
    SortBySeedersStable(l, k);
    if filters.Some? {
      FilterIsConjunction(ts, filters.value, matches);
    } else {
      KeepAll(ts, (t: Torrent) => true);
      KeepIsSubsequence(ts, (t: Torrent) => true);
    }
  }

  /** A snapshot written by a fetch reads back as the fetched torrents. */
  lemma {:induction false} SnapshotReadBack(snapshots: map<string, seq<map<string, Scalar>>>, category: Category,
                         ts: seq<Torrent>, parse: NameParser)
    requires forall i :: 0 <= i < |ts| ==> WellFormed(ts[i], parse)
    ensures Stored(snapshots[CategoryKey(category.name) := ToDicts(ts)], category, parse) == Ok(ts)
  {
    SnapshotRoundTrip(parse, ts);
  }

  /**
   * `TorrentEngine`: the handles of the loaded plugins, sorted by name, the id the next
   * load gets, and the snapshot files `torrents-<category key>.json` by category key.
   */
  class TorrentEngine {
    var plugins: seq<Handle>
    var nextId: nat
    var snapshots: map<string, seq<map<string, Scalar>>>

    ghost predicate Valid()
      reads this
    {
      Registry(plugins, nextId)
    }

    constructor(snapshots: map<string, seq<map<string, Scalar>>>)
      ensures Valid()
      ensures plugins == [] && nextId == 0 && this.snapshots == snapshots
    {
      plugins := [];
      nextId := 0;
      this.snapshots := snapshots;
    }

    /**
     * `_reload_plugins`: a missing path option or an unreadable directory empties the
     * registry; otherwise the walk's handles replace it, unless the walk raises.
     */
    method ReloadPlugins(path: Option<string>, listDir: Lister) returns (r: Result<()>)
      modifies this
      ensures var w := Reload(path, listDir, old(plugins), old(nextId));
              && (w.Ok? ==> r == Ok(()) && plugins == w.value.handles && nextId == w.value.next)
              && (w.Err? ==> r == Err(w.error) && plugins == old(plugins) && nextId == old(nextId))
      ensures snapshots == old(snapshots)
      ensures old(Valid()) && (Listing(path, listDir).Some? ==> GoodListing(Listing(path, listDir).value)) ==>
                r.Ok? && Valid()
    {
      ReloadKeepsRegistry(path, listDir, plugins, nextId);
      if path.None? {
        plugins := [];
        return Ok(());
      }
      var listing := listDir(path.value);
      if listing.None? {
        plugins := [];
        return Ok(());
      }
      var walked := WalkNames(SortedBasenames(listing.value), plugins, nextId);
      if walked.Err? {
        return Err(walked.error);
      }
      plugins, nextId := walked.value.handles, walked.value.next;
      r := Ok(());
    }

    /**
     * The two-cursor loop of `_reload_plugins`: walks the sorted basenames against the loaded
     * names followed by the sentinel, keeping, loading and dropping handles.
     */
    static method WalkNames(files: seq<string>, loaded: seq<Handle>, next0: nat) returns (r: Result<Walked>)
      ensures r == Walk(files, loaded, next0)
    {
      var names := Names(loaded) + [Sentinel];
      var acc: seq<Handle> := [];
      var next := next0;
      var i, j := 0, 0;
      assert Extend([], WalkAt(files, loaded, 0, 0, next)) == Walk(files, loaded, next) by {
        var w := WalkAt(files, loaded, 0, 0, next);
        if w.Ok? {
          assert [] + w.value.handles == w.value.handles;
        }
      }
      while i < |files|
        invariant i <= |files| && j <= |loaded| + 1
        invariant Walk(files, loaded, next0) == Extend(acc, WalkAt(files, loaded, i, j, next))
        decreases |files| - i, |loaded| + 1 - j
      {
        if j == |names| {
          return Err(IndexError);
        }
        var name := files[i];
        assert names[j] == if j < |loaded| then loaded[j].name else Sentinel;
        if name == names[j] {
          if j == |loaded| {
            return Err(IndexError);
          }
          ExtendExtend(acc, [loaded[j]], WalkAt(files, loaded, i + 1, j + 1, next));
          acc := acc + [loaded[j]];
          i, j := i + 1, j + 1;
        } else if LexLess(name, names[j]) {
          ExtendExtend(acc, [Handle(name, next)], WalkAt(files, loaded, i + 1, j, next + 1));
          acc := acc + [Handle(name, next)];
          next := next + 1;
          i := i + 1;
        } else {
          j := j + 1;
        }
      }
      assert acc + [] == acc;
      r := Ok(Walked(acc, next));
    }

    /**
     * `fetch_top(category)`: reloads the plugins, gathers the top list of each (a plugin that
     * raises gives `None`), flattens the lists in plugin order, and writes the snapshot
     * when the result is not empty.
     */
    method FetchTop(category: Category, path: Option<string>, listDir: Lister, call: PluginCall)
      returns (r: Result<seq<Torrent>>)
      modifies this
      ensures var w := Reload(path, listDir, old(plugins), old(nextId));
              && (w.Err? ==> r == Err(w.error) && plugins == old(plugins) && nextId == old(nextId)
                             && snapshots == old(snapshots))
              && (w.Ok? ==>
                    && plugins == w.value.handles && nextId == w.value.next
                    && r == Ok(FanOut(w.value.handles, call, category.name))
                    && snapshots == if r.value == [] then old(snapshots)
                                    else old(snapshots)[CategoryKey(category.name) := ToDicts(r.value)])
      ensures old(Valid()) && (Listing(path, listDir).Some? ==> GoodListing(Listing(path, listDir).value)) ==>
                r.Ok? && Valid()
    {
      ghost var w := Reload(path, listDir, plugins, nextId);
      var reloaded := ReloadPlugins(path, listDir);
      if reloaded.Err? {
        return Err(reloaded.error);
      }
      assert w.Ok? && plugins == w.value.handles;
      var torrents := FlattenResults(Results(plugins, call, category.name));
      if torrents != [] {
        snapshots := snapshots[CategoryKey(category.name) := ToDicts(torrents)];
      }
      r := Ok(torrents);
    }

    /** The flattening loop of `fetch_top`: extends the list by every result that is not `None`. */
    static method FlattenResults(results: seq<Option<seq<Torrent>>>) returns (torrents: seq<Torrent>)
      ensures torrents == Flatten(results)
    {
      torrents := [];
      var i := 0;
      assert results[0..] == results;
      while i < |results|
        invariant 0 <= i <= |results|
        invariant Flatten(results) == torrents + Flatten(results[i..])
      {
        FlattenStep(results, i);
        if results[i].Some? {
          torrents := torrents + results[i].value;
        }
        i := i + 1;
      }
      assert torrents + [] == torrents;
    }

    /** `top(category, filters)`: reads the snapshot back, filters it and ranks it. */
    method Top(category: Category, filters: Option<Filters>, matches: Matcher, parse: NameParser)
      returns (r: Result<seq<Torrent>>)
      ensures r == TopSpec(snapshots, category, filters, matches, parse)
    {
      var ts := Stored(snapshots, category, parse);
      if ts.Err? {
        return Err(ts.error);
      }
      var l := FilterTorrents(ts.value, filters, matches);
      if l.Err? {
        return Err(l.error);
      }
      r := Ok(SortBySeeders(l.value));
    }
  }

  lemma {:induction false} ExtendExtend(a: seq<Handle>, b: seq<Handle>, r: Result<Walked>)
    ensures Extend(a, Extend(b, r)) == Extend(a + b, r)
  {
    if r.Ok? {
      assert a + (b + r.value.handles) == (a + b) + r.value.handles;
    }
  }
}
