/**
 * `TitlesDB` of tvfamily/core.py: the lazily loaded cache from a normalised torrent title
 * to an IMDB id, the resolution of a torrent to a title (cache first, IMDB search on a
 * miss), the batch that resolves, fetches and stores titles, and the medias of a torrent
 * list without repetitions.
 *
 * The files `torrents2imdb.json` and `<id>/db.json` are fields holding their decoded
 * contents; the IMDB search and the title page fetch are function parameters.
 */
module TitlesDatabase {
  import opened Wrappers
  import opened Strings
  import opened Torrents
  import opened Imdb
  import opened Titles

  /** `tvfamily.imdb.search(title, types, year)`: the parsed results, or an exception. */
  type Searcher = (string, seq<string>, Option<int>) -> Result<seq<IMDBTitle>>

  /** `IMDBTitle.fetch` for an id: the attributes of the title page, or an exception. */
  type Fetcher = string -> Result<map<string, Value>>

  /** `_get_torrent_key`: the lowercased title, followed by `.` and the year when there is one. */
  function TorrentKey(info: NameInfo): string
  {
    if info.year.Some? then Lower(info.title) + "." + NatToString(info.year.value) else Lower(info.title)
  }

  /** Titles differing only in letter case share their key. */
  lemma {:induction false} TorrentKeyIgnoresCase(a: NameInfo, b: NameInfo)
    requires Lower(a.title) == Lower(b.title) && a.year == b.year
    ensures TorrentKey(a) == TorrentKey(b)
  {
  }

  /** The same title in two different years has two keys. */
  lemma {:induction false} TorrentKeySeparatesYears(a: NameInfo, b: NameInfo)
    requires a.title == b.title && a.year.Some? && b.year.Some? && a.year != b.year
    ensures TorrentKey(a) != TorrentKey(b)
  {
    var p := Lower(a.title) + ".";
    if TorrentKey(a) == TorrentKey(b) {
      assert TorrentKey(a) == p + NatToString(a.year.value);
      assert TorrentKey(b) == p + NatToString(b.year.value);
      assert TorrentKey(a)[|p|..] == NatToString(a.year.value);
      assert TorrentKey(b)[|p|..] == NatToString(b.year.value);
      DigitsValueOfNatToString(a.year.value);
      DigitsValueOfNatToString(b.year.value);
    }
  }

  lemma {:induction false} LowerAppend(a: string, b: string)
    ensures Lower(a + b) == Lower(a) + Lower(b)
  {
    var l, la, lb := Lower(a + b), Lower(a), Lower(b);
    assert |l| == |la + lb|;
    forall i | 0 <= i < |l|
      ensures l[i] == (la + lb)[i]
    {
      if i < |a| {
        assert (a + b)[i] == a[i] && (la + lb)[i] == la[i];
      } else {
        assert (a + b)[i] == b[i - |a|] && (la + lb)[i] == lb[i - |a|];
      }
    }
  }

  lemma {:induction false} LowerOfDigits(s: string)
    requires forall i :: 0 <= i < |s| ==> IsDigit(s[i])
    ensures Lower(s) == s
  {
    assert forall i :: 0 <= i < |s| ==> Lower(s)[i] == s[i];
  }

  /**
   * The key does not tell a year written into the title from a parsed year: a title ending
   * in `.` and digits without a year shares the key of the shorter title with that year.
   */
  lemma {:induction false} TorrentKeyAmbiguous(a: NameInfo, b: NameInfo)
    requires b.year.Some? && a.year.None? && a.title == b.title + "." + NatToString(b.year.value)
    ensures TorrentKey(a) == TorrentKey(b)
  {
    var y := NatToString(b.year.value);
    LowerAppend(b.title + ".", y);
    LowerAppend(b.title, ".");
    LowerOfDigits(y);
    assert Lower(".") == ".";
  }

  /** `d[k]` on the cache: `KeyError` for a key it does not hold. */
  function Lookup(m: map<string, string>, k: string): (r: Result<string>)
    ensures r.Ok? <==> k in m
    ensures r.Ok? ==> r.value == m[k]
    ensures r.Err? ==> r.error == KeyError(k)
  {
    if k in m then Ok(m[k]) else Err(KeyError(k))
  }

  /** The contents `_load_torrents_to_imdb` reads: the file's dictionary, or `{}` when it cannot be read. */
  function FileMap(file: Option<map<string, string>>): map<string, string>
  {
    if file.Some? then file.value else map[]
  }

  /**
   * `get_title(imdb_id)`: the title stored under the id; a missing file raises `KeyError`,
   * and so does a stored title without a type.
   */
  function TitleFromFiles(files: map<string, map<string, Value>>, id: string): (r: Result<Title>)
    ensures r.Ok? <==> id in files && "type" in files[id]
    ensures r.Ok? ==> r.value.imdb == IMDBTitle(id, files[id])
    ensures r.Err? ==> r.error.KeyError?
  {
    if id !in files then Err(KeyError("title with imdb_id " + id + " not found"))
    else NewTitle(IMDBTitle(id, files[id]))
  }

  /**
   * `_get_title_from_torrent_cached` over a loaded cache: the title of the cached id, or
   * `None` when the key, the title file or its type is missing (each a `KeyError`).
   */
  function CachedTitle(m: map<string, string>, files: map<string, map<string, Value>>, info: NameInfo)
    : (r: Option<Title>)
    ensures r.Some? <==> TorrentKey(info) in m && m[TorrentKey(info)] in files
                         && "type" in files[m[TorrentKey(info)]]
    ensures r.Some? ==> r.value.imdb == IMDBTitle(m[TorrentKey(info)], files[m[TorrentKey(info)]])
  {
    var id := Lookup(m, TorrentKey(info));
    if id.Err? then None
    else
      var t := TitleFromFiles(files, id.value);
      if t.Err? then None else Some(t.value)
  }

  function Year(info: NameInfo): Option<int>
  {
    if info.year.Some? then Some(info.year.value as int) else None
  }

  /** The search `_get_title_from_torrent` issues on a miss. */
  function Query(info: NameInfo, category: Category): (string, seq<string>, Option<int>)
  {
    (info.title, category.imdbTypes, Year(info))
  }

  /** The outcome of resolving one torrent: the title (or `None`), or an exception, and the new cache. */
  datatype Resolved = Resolved(result: Result<Option<IMDBTitle>>, cache: map<string, string>)

  /**
   * `_get_title_from_torrent` over a loaded cache: a hit gives a title with only its id;
   * a miss searches IMDB, and the first result is both returned and recorded under the key;
   * a search without results returns `None` and records nothing.
   */
  function Resolve(m: map<string, string>, info: NameInfo, category: Category, search: Searcher): Resolved
  {
    var k := TorrentKey(info);
    if k in m then Resolved(Ok(Some(IMDBTitle(m[k], map[]))), m)
    else
      var q := Query(info, category);
      var results := search(q.0, q.1, q.2);
      if results.Err? then Resolved(Err(results.error), m)
      else if |results.value| > 0 then Resolved(Ok(Some(results.value[0])), m[k := results.value[0].id])
      else Resolved(Ok(None), m)
  }

  /** On a hit no search is issued: the outcome is the same whatever the search would answer. */
  lemma {:induction false} ResolveHitNoSearch(m: map<string, string>, info: NameInfo, category: Category, s1: Searcher, s2: Searcher)
    requires TorrentKey(info) in m
    ensures Resolve(m, info, category, s1) == Resolve(m, info, category, s2)
    ensures Resolve(m, info, category, s1) == Resolved(Ok(Some(IMDBTitle(m[TorrentKey(info)], map[]))), m)
  {
  }

  /** A miss with results records the first one, after which the same torrent hits. */
  lemma {:induction false} ResolveMissRecords(m: map<string, string>, info: NameInfo, category: Category, search: Searcher,
                           next: Searcher)
    requires TorrentKey(info) !in m
    requires var q := Query(info, category); search(q.0, q.1, q.2).Ok? && |search(q.0, q.1, q.2).value| > 0
    ensures var q := Query(info, category);
            var first := search(q.0, q.1, q.2).value[0];
            var r := Resolve(m, info, category, search);
            && r == Resolved(Ok(Some(first)), m[TorrentKey(info) := first.id])
            && Resolve(r.cache, info, category, next) == Resolved(Ok(Some(IMDBTitle(first.id, map[]))), r.cache)
  {
  }

  /** A miss without results, or a failed search, leaves the cache as it was. */
  lemma {:induction false} ResolveMissKeeps(m: map<string, string>, info: NameInfo, category: Category, search: Searcher)
    requires TorrentKey(info) !in m
    requires var q := Query(info, category); search(q.0, q.1, q.2).Err? || search(q.0, q.1, q.2).value == []
    ensures Resolve(m, info, category, search).cache == m
    ensures var q := Query(info, category);
            Resolve(m, info, category, search).result ==
              if search(q.0, q.1, q.2).Err? then Err(search(q.0, q.1, q.2).error) else Ok(None)
  {
  }

  /** Resolution only adds: every cached key keeps its id, and a found title is cached under its key. */
  lemma {:induction false} ResolveExtends(m: map<string, string>, info: NameInfo, category: Category, search: Searcher)
    ensures var r := Resolve(m, info, category, search);
            && (forall k :: k in m ==> k in r.cache && r.cache[k] == m[k])
            && (r.result.Ok? && r.result.value.Some? ==>
                  TorrentKey(info) in r.cache && r.cache[TorrentKey(info)] == r.result.value.value.id)
  {
  }

  /**
   * The outcome of resolving a batch: one result per torrent (`None` for one that raised),
   * the cache, and the first exception in list order.
   */
  datatype Resolution = Resolution(found: seq<Option<IMDBTitle>>, cache: map<string, string>, error: Option<Exception>)

  /**
   * The torrents of `fetch_titles_from_torrents`, resolved one after the other.
   * `tornado.gen.multi` waits for every resolution and then raises the first exception in
   * list order, so a torrent after one that raised is still resolved and its id stored.
   */
  function ResolveAll(m: map<string, string>, ts: seq<Torrent>, category: Category, search: Searcher): (r: Resolution)
    ensures |r.found| == |ts|
    decreases |ts|
  {
    if ts == [] then Resolution([], m, None)
    else
      var first := Resolve(m, ts[0].nameInfo, category, search);
      var rest := ResolveAll(first.cache, ts[1..], category, search);
      Resolution([if first.result.Ok? then first.result.value else None] + rest.found, rest.cache,
                 if first.result.Err? then Some(first.result.error) else rest.error)
  }

  /** A batch whose first results are `found` and whose first exception so far is `error`, followed by `r`. */
  function Prepend(found: seq<Option<IMDBTitle>>, error: Option<Exception>, r: Resolution): Resolution
  {
    Resolution(found + r.found, r.cache, if error.Some? then error else r.error)
  }

  /** A batch is its first resolution followed by the batch of the rest, from the cache it leaves. */
  lemma {:induction false} ResolveAllCons(m: map<string, string>, ts: seq<Torrent>, category: Category, search: Searcher,
                                          first: Resolved)
    requires ts != [] && first == Resolve(m, ts[0].nameInfo, category, search)
    ensures ResolveAll(m, ts, category, search)
         == Prepend([if first.result.Ok? then first.result.value else None],
                    if first.result.Err? then Some(first.result.error) else None,
                    ResolveAll(first.cache, ts[1..], category, search))
  {
  }

  /** Two prefixes in a row are one: the results concatenate and the earlier exception wins. */
  lemma {:induction false} PrependTwice(found: seq<Option<IMDBTitle>>, error: Option<Exception>, one: Option<IMDBTitle>,
                                        e: Option<Exception>, r: Resolution)
    ensures Prepend(found, error, Prepend([one], e, r)) == Prepend(found + [one], if error.Some? then error else e, r)
  {
    assert found + ([one] + r.found) == found + [one] + r.found;
  }

  /**
   * After a batch, every cached key keeps its id and each torrent that found a title has it
   * cached under its own key.
   */
  lemma {:induction false} ResolveAllCaches(m: map<string, string>, ts: seq<Torrent>, category: Category, search: Searcher)
    ensures var r := ResolveAll(m, ts, category, search);
            && (forall k :: k in m ==> k in r.cache && r.cache[k] == m[k])
            && (r.error.None? ==> forall i :: 0 <= i < |ts| && r.found[i].Some? ==>
                  TorrentKey(ts[i].nameInfo) in r.cache && r.cache[TorrentKey(ts[i].nameInfo)] == r.found[i].value.id)
  {
    ResolveAllKeeps(m, ts, category, search);
    if ResolveAll(m, ts, category, search).error.None? {
      ResolveAllStores(m, ts, category, search);
    }
  }

  /** A batch never removes or changes a cached key, whatever exceptions it meets. */
  lemma {:induction false} ResolveAllKeeps(m: map<string, string>, ts: seq<Torrent>, category: Category, search: Searcher)
    ensures forall k :: k in m ==>
              k in ResolveAll(m, ts, category, search).cache && ResolveAll(m, ts, category, search).cache[k] == m[k]
    decreases |ts|
  {
    if ts != [] {
      var first := Resolve(m, ts[0].nameInfo, category, search);
      ResolveExtends(m, ts[0].nameInfo, category, search);
      ResolveAllKeeps(first.cache, ts[1..], category, search);
      assert ResolveAll(m, ts, category, search).cache == ResolveAll(first.cache, ts[1..], category, search).cache;
    }
  }

  /**
   * An exception does not stop the batch: when the first torrent's search raises, the cache
   * ends as the batch of the other torrents leaves it, and the batch raises that exception.
   */
  lemma {:induction false} ErrorDoesNotStopBatch(m: map<string, string>, ts: seq<Torrent>, category: Category,
                                                 search: Searcher)
    requires ts != [] && Resolve(m, ts[0].nameInfo, category, search).result.Err?
    ensures ResolveAll(m, ts, category, search).error == Some(Resolve(m, ts[0].nameInfo, category, search).result.error)
    ensures ResolveAll(m, ts, category, search).cache == ResolveAll(m, ts[1..], category, search).cache
  {
    ResolveMissKeeps(m, ts[0].nameInfo, category, search);
  }

  /** After a batch without exceptions, each torrent that found a title has it cached under its key. */
  lemma {:induction false} ResolveAllStores(m: map<string, string>, ts: seq<Torrent>, category: Category, search: Searcher)
    requires ResolveAll(m, ts, category, search).error.None?
    ensures var r := ResolveAll(m, ts, category, search);
            forall i :: 0 <= i < |ts| && r.found[i].Some? ==>
              TorrentKey(ts[i].nameInfo) in r.cache && r.cache[TorrentKey(ts[i].nameInfo)] == r.found[i].value.id
    decreases |ts|
  {
    if ts != [] {
      var first := Resolve(m, ts[0].nameInfo, category, search);
      var rest := ResolveAll(first.cache, ts[1..], category, search);
      var r := ResolveAll(m, ts, category, search);
      assert first.result.Ok? && rest.error.None?;
      assert r.found == [first.result.value] + rest.found && r.cache == rest.cache;
      ResolveExtends(m, ts[0].nameInfo, category, search);
      ResolveAllKeeps(first.cache, ts[1..], category, search);
      ResolveAllStores(first.cache, ts[1..], category, search);
      forall i | 0 <= i < |ts| && r.found[i].Some?
        ensures TorrentKey(ts[i].nameInfo) in r.cache && r.cache[TorrentKey(ts[i].nameInfo)] == r.found[i].value.id
      {
        if i > 0 {
          assert r.found[i] == rest.found[i - 1] && ts[i] == ts[1..][i - 1];
        }
      }
    }
  }

  /** The ids of a list of titles. */
  function TitleIds(ts: seq<IMDBTitle>): (ids: seq<string>)
    ensures |ids| == |ts| && forall k :: 0 <= k < |ts| ==> ids[k] == ts[k].id
  {
    seq(|ts|, k requires 0 <= k < |ts| => ts[k].id)
  }

  /** The first found title with the given id: the one a set of equal-by-id titles keeps. */
  function FirstTitle(found: seq<Option<IMDBTitle>>, id: string): (r: Option<IMDBTitle>)
    ensures r.Some? ==> r.value.id == id
  {
    if found == [] then None
    else if found[0].Some? && found[0].value.id == id then found[0]
    else FirstTitle(found[1..], id)
  }

  /**
   * `set([t for t in imdb_titles if t is not None])`, titles being equal by id: each id not
   * yet seen once, as the title first found with it (`FoundTitlesFirst`), every found id
   * included (`FoundTitlesCover`); the order in which they are then fetched and saved does
   * not change what is saved.
   */
  function FoundTitles(found: seq<Option<IMDBTitle>>, seen: set<string>): (ts: seq<IMDBTitle>)
    ensures forall k :: 0 <= k < |ts| ==> ts[k].id !in seen
    ensures forall k, l :: 0 <= k < l < |ts| ==> ts[k].id != ts[l].id
  {
    if found == [] then []
    else if found[0].None? || found[0].value.id in seen then FoundTitles(found[1..], seen)
    else [found[0].value] + FoundTitles(found[1..], seen + {found[0].value.id})
  }

  /** Each title kept is the first one found with its id. */
  lemma {:induction false} FoundTitlesFirst(found: seq<Option<IMDBTitle>>, seen: set<string>, k: nat)
    requires k < |FoundTitles(found, seen)|
    ensures FirstTitle(found, FoundTitles(found, seen)[k].id) == Some(FoundTitles(found, seen)[k])
  {
    var ts := FoundTitles(found, seen);
    if found[0].None? || found[0].value.id in seen {
      FoundTitlesFirst(found[1..], seen, k);
    } else if k > 0 {
      var rest := FoundTitles(found[1..], seen + {found[0].value.id});
      assert ts[k] == rest[k - 1];
      FoundTitlesFirst(found[1..], seen + {found[0].value.id}, k - 1);
    }
  }

  /** Every found title whose id was not seen has its id kept. */
  lemma {:induction false} FoundTitlesCover(found: seq<Option<IMDBTitle>>, seen: set<string>, i: nat)
    requires i < |found| && found[i].Some? && found[i].value.id !in seen
    ensures found[i].value.id in TitleIds(FoundTitles(found, seen))
  {
    var ts := FoundTitles(found, seen);
    if found[0].Some? && found[0].value.id == found[i].value.id {
      assert TitleIds(ts)[0] == found[i].value.id;
    } else {
      assert found[1..][i - 1] == found[i];
      if found[0].None? || found[0].value.id in seen {
        FoundTitlesCover(found[1..], seen, i - 1);
      } else {
        var rest := FoundTitles(found[1..], seen + {found[0].value.id});
        FoundTitlesCover(found[1..], seen + {found[0].value.id}, i - 1);
        var k :| 0 <= k < |rest| && TitleIds(rest)[k] == found[i].value.id;
        assert TitleIds(ts)[k + 1] == found[i].value.id;
      }
    }
  }

  /**
   * `t.fetch()` for each title, then `_save_imdb_title(t)`: the title page's attributes
   * update the title's own (`dict.update`, the page winning), and the result is what is
   * saved under the id. The first failing fetch raises.
   */
  function FetchAll(fetch: Fetcher, ts: seq<IMDBTitle>): (r: Result<map<string, map<string, Value>>>)
    ensures r.Ok? <==> forall k :: 0 <= k < |ts| ==> fetch(ts[k].id).Ok?
  {
    if ts == [] then Ok(map[])
    else
      var tail := ts[1..];
      assert forall k :: 1 <= k < |ts| ==> ts[k] == tail[k - 1];
      var page :- fetch(ts[0].id);
      var rest :- FetchAll(fetch, tail);
      Ok(rest[ts[0].id := ts[0].attrs + page])
  }

  /** A successful fetch saves a file for exactly the ids of the titles. */
  lemma {:induction false} FetchAllKeys(fetch: Fetcher, ts: seq<IMDBTitle>)
    requires FetchAll(fetch, ts).Ok?
    ensures forall id :: id in FetchAll(fetch, ts).value <==> id in TitleIds(ts)
  {
    if ts != [] {
      var tail := ts[1..];
      assert forall k :: 1 <= k < |ts| ==> ts[k] == tail[k - 1];
      FetchAllKeys(fetch, tail);
      assert forall id :: id in TitleIds(ts) <==> id == ts[0].id || id in TitleIds(tail) by {
        assert forall k :: 1 <= k < |ts| ==> TitleIds(ts)[k] == TitleIds(tail)[k - 1];
      }
    }
  }

  /** With distinct ids, the file saved for each title is its attributes updated with its page. */
  lemma {:induction false} FetchAllSaves(fetch: Fetcher, ts: seq<IMDBTitle>, k: nat)
    requires forall k, l :: 0 <= k < l < |ts| ==> ts[k].id != ts[l].id
    requires FetchAll(fetch, ts).Ok? && k < |ts|
    ensures ts[k].id in FetchAll(fetch, ts).value
    ensures FetchAll(fetch, ts).value[ts[k].id] == ts[k].attrs + fetch(ts[k].id).value
    decreases k
  {
    var tail := ts[1..];
    var saved := ts[0].attrs + fetch(ts[0].id).value;
    var rest := FetchAll(fetch, tail).value;
    assert FetchAll(fetch, ts).value == rest[ts[0].id := saved];
    if k > 0 {
      assert ts[k] == tail[k - 1] && ts[k].id != ts[0].id;
      FetchAllSaves(fetch, tail, k - 1);
    }
  }

  /** The torrent media of the resolved titles zipped with the torrents: `zip` stops at the shorter list. */
  function ZipMedias(titles: seq<Title>, torrents: seq<Torrent>): (ms: seq<Option<Media>>)
    ensures |ms| == if |titles| <= |torrents| then |titles| else |torrents|
    ensures forall i :: 0 <= i < |ms| ==> ms[i] == GetMedia(titles[i], torrents[i].nameInfo)
  {
    if titles == [] || torrents == [] then []
    else [GetMedia(titles[0], torrents[0].nameInfo)] + ZipMedias(titles[1..], torrents[1..])
  }

  /** `[t for t in titles if t is not None]`. */
  function Present(ts: seq<Option<Title>>): (r: seq<Title>)
    ensures |r| <= |ts|
    ensures forall t :: t in r <==> Some(t) in ts
  {
    if ts == [] then []
    else
      assert forall t :: Some(t) in ts <==> Some(t) == ts[0] || Some(t) in ts[1..];
      (if ts[0].Some? then [ts[0].value] else []) + Present(ts[1..])
  }

  /** The cached title of each torrent, in order. */
  function CachedTitles(m: map<string, string>, files: map<string, map<string, Value>>, ts: seq<Torrent>)
    : (r: seq<Option<Title>>)
    ensures |r| == |ts|
    ensures forall i :: 0 <= i < |ts| ==> r[i] == CachedTitle(m, files, ts[i].nameInfo)
  {
    if ts == [] then []
    else
      var rest := CachedTitles(m, files, ts[1..]);
      assert forall i :: 1 <= i < |ts| ==> ts[i] == ts[1..][i - 1];
      [CachedTitle(m, files, ts[0].nameInfo)] + rest
  }

  /** The medias `get_medias_from_torrents` deduplicates, before deduplication. */
  function Medias(m: map<string, string>, files: map<string, map<string, Value>>, ts: seq<Torrent>): seq<Option<Media>>
  {
    ZipMedias(Present(CachedTitles(m, files, ts)), ts)
  }

  /** Position `i` holds a media equal to none before it. */
  predicate FirstAt(ms: seq<Option<Media>>, i: nat)
    requires i < |ms|
  {
    ms[i].Some? && forall j :: 0 <= j < i ==> ms[j].None? || Key(ms[j].value) != Key(ms[i].value)
  }

  /** The first occurrences among the first `n` medias, in order. */
  function Firsts(ms: seq<Option<Media>>, n: nat): seq<Media>
    requires n <= |ms|
  {
    if n == 0 then [] else Firsts(ms, n - 1) + (if FirstAt(ms, n - 1) then [ms[n - 1].value] else [])
  }

  /** The keys of the medias among the first `n`. */
  function KeysUpTo(ms: seq<Option<Media>>, n: nat): set<MediaKey>
    requires n <= |ms|
  {
    set j | 0 <= j < n && ms[j].Some? :: Key(ms[j].value)
  }

  function KeysOf(r: seq<Media>): set<MediaKey>
  {
    set k | 0 <= k < |r| :: Key(r[k])
  }

  lemma {:induction false} KeysOfAppend(r: seq<Media>, x: Media)
    ensures KeysOf(r + [x]) == KeysOf(r) + {Key(x)}
  {
    var s := r + [x];
    assert forall k :: 0 <= k < |r| ==> s[k] == r[k];
    assert s[|r|] == x;
    forall y | y in KeysOf(s) ensures y in KeysOf(r) + {Key(x)} {
      var k :| 0 <= k < |s| && Key(s[k]) == y;
      if k < |r| {
        assert Key(r[k]) == y;
      }
    }
    forall y | y in KeysOf(r) ensures y in KeysOf(s) {
      var k :| 0 <= k < |r| && Key(r[k]) == y;
      assert Key(s[k]) == y;
    }
  }

  lemma {:induction false} FirstsKeys(ms: seq<Option<Media>>, n: nat)
    requires n <= |ms|
    ensures KeysOf(Firsts(ms, n)) == KeysUpTo(ms, n)
  {
    if n > 0 {
      FirstsKeys(ms, n - 1);
      FirstsStep(ms, n - 1);
      if FirstAt(ms, n - 1) {
        KeysOfAppend(Firsts(ms, n - 1), ms[n - 1].value);
        assert Firsts(ms, n) == Firsts(ms, n - 1) + [ms[n - 1].value];
      } else {
        assert Firsts(ms, n) == Firsts(ms, n - 1);
        if ms[n - 1].Some? {
          var j :| 0 <= j < n - 1 && ms[j].Some? && Key(ms[j].value) == Key(ms[n - 1].value);
          assert Key(ms[n - 1].value) in KeysUpTo(ms, n - 1);
        }
      }
    }
  }

  lemma {:induction false} FirstsDistinct(ms: seq<Option<Media>>, n: nat)
    requires n <= |ms|
    ensures forall a, b :: 0 <= a < b < |Firsts(ms, n)| ==> Key(Firsts(ms, n)[a]) != Key(Firsts(ms, n)[b])
  {
    if n > 0 {
      FirstsDistinct(ms, n - 1);
      var r := Firsts(ms, n - 1);
      if FirstAt(ms, n - 1) {
        var x := ms[n - 1].value;
        FirstsKeys(ms, n - 1);
        FirstsStep(ms, n - 1);
        assert Key(x) !in KeysOf(r);
        var s := r + [x];
        assert Firsts(ms, n) == s;
        forall a, b | 0 <= a < b < |s| ensures Key(s[a]) != Key(s[b]) {
          if b == |r| {
            assert Key(s[a]) in KeysOf(r) by { assert s[a] == r[a]; }
          }
        }
      }
    }
  }

  /** `x` is the media at a first position among the first `n`. */
  ghost predicate FirstOccurrence(ms: seq<Option<Media>>, n: nat, x: Media)
    requires n <= |ms|
  {
    exists i :: 0 <= i < n && FirstAt(ms, i) && ms[i] == Some(x)
  }

  lemma {:induction false} FirstsAreFirst(ms: seq<Option<Media>>, n: nat)
    requires n <= |ms|
    ensures forall k :: 0 <= k < |Firsts(ms, n)| ==> FirstOccurrence(ms, n, Firsts(ms, n)[k])
  {
    if n > 0 {
      FirstsAreFirst(ms, n - 1);
      var r := Firsts(ms, n - 1);
      var s := Firsts(ms, n);
      assert s == r + (if FirstAt(ms, n - 1) then [ms[n - 1].value] else []);
      forall k | 0 <= k < |s| ensures FirstOccurrence(ms, n, s[k]) {
        if k < |r| {
          assert s[k] == r[k] && FirstOccurrence(ms, n - 1, r[k]);
          var i :| 0 <= i < n - 1 && FirstAt(ms, i) && ms[i] == Some(r[k]);
          assert 0 <= i < n && FirstAt(ms, i) && ms[i] == Some(s[k]);
        } else {
          assert FirstAt(ms, n - 1) && ms[n - 1] == Some(s[k]);
        }
      }
    }
  }

  /**
   * The deduplicated medias hold each key of the first `n` medias exactly once, and each is
   * the media at the first position with that key.
   */
  lemma {:induction false} FirstsProperties(ms: seq<Option<Media>>, n: nat)
    requires n <= |ms|
    ensures KeysOf(Firsts(ms, n)) == KeysUpTo(ms, n)
    ensures forall a, b :: 0 <= a < b < |Firsts(ms, n)| ==> Key(Firsts(ms, n)[a]) != Key(Firsts(ms, n)[b])
    ensures forall k :: 0 <= k < |Firsts(ms, n)| ==> FirstOccurrence(ms, n, Firsts(ms, n)[k])
  {
    FirstsKeys(ms, n);
    FirstsDistinct(ms, n);
    FirstsAreFirst(ms, n);
  }

  /** One step of the deduplication loop: a media is kept exactly when its key is not yet seen. */
  lemma {:induction false} FirstsStep(ms: seq<Option<Media>>, i: nat)
    requires i < |ms|
    ensures Firsts(ms, i + 1) == Firsts(ms, i) + (if ms[i].Some? && Key(ms[i].value) !in KeysUpTo(ms, i) then [ms[i].value] else [])
    ensures KeysUpTo(ms, i + 1) == KeysUpTo(ms, i) + (if ms[i].Some? then {Key(ms[i].value)} else {})
  {
    if ms[i].Some? && !FirstAt(ms, i) {
      var j :| 0 <= j < i && ms[j].Some? && Key(ms[j].value) == Key(ms[i].value);
      assert Key(ms[i].value) in KeysUpTo(ms, i);
    }
  }

  /**
   * The zip pairs the i-th title found with the i-th torrent, not with the torrent it was
   * found for: with the first torrent unknown and the second one cached as a series, the
   * result is the episode named by the first torrent.
   */
  lemma {:induction false} ZipMisaligns(a: Torrent, b: Torrent, id: string)
    requires a.nameInfo == NameInfo("a", None, Some(1), Some(1), None, None, None, false)
    requires b.nameInfo == NameInfo("b", None, Some(2), Some(5), None, None, None, false)
    ensures var m := map["b" := id];
            var files := map[id := map["type" := VStr("TV Series")]];
            var t := Title(IMDBTitle(id, map["type" := VStr("TV Series")]), TVSerieKind);
            Medias(m, files, [a, b]) == [Some(Episode(t, 1, 1))]
  {
    var m := map["b" := id];
    var files := map[id := map["type" := VStr("TV Series")]];
    var t := Title(IMDBTitle(id, map["type" := VStr("TV Series")]), TVSerieKind);
    assert Lower("a") == "a" && Lower("b") == "b";
    assert CachedTitle(m, files, a.nameInfo) == None;
    assert NewTitle(IMDBTitle(id, files[id])) == Ok(t);
    assert CachedTitle(m, files, b.nameInfo) == Some(t);
    var cached := CachedTitles(m, files, [a, b]);
    assert cached == [None, Some(t)];
    assert cached[1..] == [Some(t)] && cached[1..][1..] == [];
    assert Present(cached) == [t];
  }

  /**
   * The pairing `get_medias_from_torrents` evidently intends: each torrent with its own
   * cached title, `None` for a torrent without one.
   */
  function PairedMedias(m: map<string, string>, files: map<string, map<string, Value>>, ts: seq<Torrent>)
    : seq<Option<Media>>
  {
    seq(|ts|, i requires 0 <= i < |ts| => PairedMedia(m, files, ts[i]))
  }

  /** The media of one torrent with its own cached title. */
  function PairedMedia(m: map<string, string>, files: map<string, map<string, Value>>, t: Torrent): Option<Media>
  {
    var title := CachedTitle(m, files, t.nameInfo);
    if title.Some? then GetMedia(title.value, t.nameInfo) else None
  }

  /** With the corrected pairing, a media is that of its own torrent's title, season and episode. */
  lemma {:induction false} PairedMediasOwnTorrent(m: map<string, string>, files: map<string, map<string, Value>>,
                                                  ts: seq<Torrent>, i: nat)
    requires i < |ts| && i < |PairedMedias(m, files, ts)| && PairedMedias(m, files, ts)[i].Some?
    ensures CachedTitle(m, files, ts[i].nameInfo).Some?
    ensures PairedMedias(m, files, ts)[i].value.title == CachedTitle(m, files, ts[i].nameInfo).value
    ensures PairedMedias(m, files, ts)[i].value.Episode? ==>
              && ts[i].nameInfo.season == Some(PairedMedias(m, files, ts)[i].value.season)
              && ts[i].nameInfo.episode == Some(PairedMedias(m, files, ts)[i].value.episode)
  {
    assert PairedMedias(m, files, ts)[i] == PairedMedia(m, files, ts[i]);
  }

  /** The torrents of `ZipMisaligns`, paired as intended: the second torrent's episode. */
  lemma {:induction false} PairedMediasExample(a: Torrent, b: Torrent, id: string)
    requires a.nameInfo == NameInfo("a", None, Some(1), Some(1), None, None, None, false)
    requires b.nameInfo == NameInfo("b", None, Some(2), Some(5), None, None, None, false)
    ensures var m := map["b" := id];
            var files := map[id := map["type" := VStr("TV Series")]];
            var t := Title(IMDBTitle(id, map["type" := VStr("TV Series")]), TVSerieKind);
            PairedMedias(m, files, [a, b]) == [None, Some(Episode(t, 2, 5))]
  {
    var m := map["b" := id];
    var files := map[id := map["type" := VStr("TV Series")]];
    var t := Title(IMDBTitle(id, map["type" := VStr("TV Series")]), TVSerieKind);
    assert Lower("a") == "a" && Lower("b") == "b";
    assert CachedTitle(m, files, a.nameInfo) == None;
    assert NewTitle(IMDBTitle(id, files[id])) == Ok(t);
    assert CachedTitle(m, files, b.nameInfo) == Some(t);
  }

  /** When every torrent has a cached title, the zip as written and the corrected pairing agree. */
  lemma {:induction false} MediasAgreeWhenAllCached(m: map<string, string>, files: map<string, map<string, Value>>,
                                                    ts: seq<Torrent>)
    requires forall i :: 0 <= i < |ts| ==> CachedTitle(m, files, ts[i].nameInfo).Some?
    ensures Medias(m, files, ts) == PairedMedias(m, files, ts)
    decreases |ts|
  {
    if ts != [] {
      var tail := ts[1..];
      assert forall i :: 0 <= i < |tail| ==> tail[i] == ts[i + 1];
      MediasAgreeWhenAllCached(m, files, tail);
      var t0 := CachedTitle(m, files, ts[0].nameInfo).value;
      var rest := CachedTitles(m, files, tail);
      CachedTitlesCons(m, files, ts, tail);
      PresentConsSome(t0, rest);
      ZipCons(t0, Present(rest), ts, tail);
      PairedCons(m, files, ts, tail, t0);
    }
  }

  lemma {:induction false} CachedTitlesCons(m: map<string, string>, files: map<string, map<string, Value>>,
                                            ts: seq<Torrent>, tail: seq<Torrent>)
    requires ts != [] && tail == ts[1..]
    ensures CachedTitles(m, files, ts) == [CachedTitle(m, files, ts[0].nameInfo)] + CachedTitles(m, files, tail)
  {
  }

  lemma {:induction false} PresentConsSome(t: Title, rest: seq<Option<Title>>)
    ensures Present([Some(t)] + rest) == [t] + Present(rest)
  {
    assert ([Some(t)] + rest)[1..] == rest;
  }

  lemma {:induction false} ZipCons(t: Title, titles: seq<Title>, ts: seq<Torrent>, tail: seq<Torrent>)
    requires ts != [] && tail == ts[1..]
    ensures ZipMedias([t] + titles, ts) == [GetMedia(t, ts[0].nameInfo)] + ZipMedias(titles, tail)
  {
    assert ([t] + titles)[1..] == titles;
  }

  lemma {:induction false} PairedCons(m: map<string, string>, files: map<string, map<string, Value>>,
                                      ts: seq<Torrent>, tail: seq<Torrent>, t0: Title)
    requires ts != [] && tail == ts[1..] && CachedTitle(m, files, ts[0].nameInfo) == Some(t0)
    ensures PairedMedias(m, files, ts) == [GetMedia(t0, ts[0].nameInfo)] + PairedMedias(m, files, tail)
  {
    var p, q := PairedMedias(m, files, ts), PairedMedias(m, files, tail);
    var r := [GetMedia(t0, ts[0].nameInfo)] + q;
    assert |p| == |r|;
    assert p[0] == r[0];
    forall k | 1 <= k < |p| ensures p[k] == r[k] {
      assert ts[k] == tail[k - 1];
      assert p[k] == PairedMedia(m, files, ts[k]) && r[k] == q[k - 1];
    }
  }

  /**
   * `TitlesDB`: the cache of torrent keys, loaded from its file on first use, and the stored
   * IMDB titles. `searches` records the IMDB searches issued.
   */
  class TitlesDB {
    var torrentsToImdb: Option<map<string, string>>
    var cacheFile: Option<map<string, string>>
    var titleFiles: map<string, map<string, Value>>
    ghost var searches: seq<(string, seq<string>, Option<int>)>

    /** A loaded cache is what its file holds. */
    ghost predicate Valid()
      reads this
    {
      torrentsToImdb.Some? ==> torrentsToImdb.value == FileMap(cacheFile)
    }

    /** The cache as the next lookup sees it (loading it first if needed). */
    function Loaded(): map<string, string>
      reads this
    {
      if torrentsToImdb.Some? then torrentsToImdb.value else FileMap(cacheFile)
    }

    constructor(cacheFile: Option<map<string, string>>, titleFiles: map<string, map<string, Value>>)
      ensures Valid()
      ensures this.torrentsToImdb.None? && this.cacheFile == cacheFile && this.titleFiles == titleFiles
      ensures searches == []
    {
      this.torrentsToImdb := None;
      this.cacheFile := cacheFile;
      this.titleFiles := titleFiles;
      searches := [];
    }

    /** `_load_torrents_to_imdb`: the file's dictionary, `{}` when there is none. */
    method LoadTorrentsToImdb()
      modifies this
      ensures torrentsToImdb == Some(FileMap(cacheFile))
      ensures cacheFile == old(cacheFile) && titleFiles == old(titleFiles) && searches == old(searches)
    {
      torrentsToImdb := Some(FileMap(cacheFile));
    }

    /** `_get_imdb_id_from_torrent`: loads the cache if needed, then looks the torrent's key up. */
    method GetImdbIdFromTorrent(info: NameInfo) returns (r: Result<string>)
      requires Valid()
      modifies this
      ensures Valid()
      ensures torrentsToImdb == Some(old(Loaded()))
      ensures r == Lookup(old(Loaded()), TorrentKey(info))
      ensures cacheFile == old(cacheFile) && titleFiles == old(titleFiles) && searches == old(searches)
    {
      if torrentsToImdb.None? {
        LoadTorrentsToImdb();
      }
      r := Lookup(torrentsToImdb.value, TorrentKey(info));
    }

    /**
     * `_set_imdb_id_from_torrent`: records the id under the torrent's key and writes the cache
     * to its file; before the cache is loaded the assignment raises `TypeError`.
     */
    method SetImdbIdFromTorrent(info: NameInfo, id: string) returns (r: Result<()>)
      requires Valid()
      modifies this
      ensures Valid()
      ensures old(torrentsToImdb).None? ==> r.Err? && unchanged(this)
      ensures old(torrentsToImdb).Some? ==>
        && r == Ok(())
        && torrentsToImdb == Some(old(torrentsToImdb).value[TorrentKey(info) := id])
        && cacheFile == torrentsToImdb
      ensures titleFiles == old(titleFiles) && searches == old(searches)
    {
      if torrentsToImdb.None? {
        return Err(TypeError("'NoneType' object does not support item assignment"));
      }
      torrentsToImdb := Some(torrentsToImdb.value[TorrentKey(info) := id]);
      cacheFile := torrentsToImdb;
      r := Ok(());
    }

    /** `_get_title_from_torrent_cached`. */
    method GetTitleFromTorrentCached(info: NameInfo) returns (r: Option<Title>)
      requires Valid()
      modifies this
      ensures Valid()
      ensures torrentsToImdb == Some(old(Loaded()))
      ensures r == CachedTitle(old(Loaded()), titleFiles, info)
      ensures cacheFile == old(cacheFile) && titleFiles == old(titleFiles) && searches == old(searches)
    {
      var id := GetImdbIdFromTorrent(info);
      if id.Err? {
        return None;
      }
      var t := TitleFromFiles(titleFiles, id.value);
      r := if t.Err? then None else Some(t.value);
    }

    /** `_get_title_from_torrent`: a search is issued exactly on a miss. */
    method GetTitleFromTorrent(info: NameInfo, category: Category, search: Searcher)
      returns (r: Result<Option<IMDBTitle>>)
      requires Valid()
      modifies this
      ensures Valid()
      ensures r == Resolve(old(Loaded()), info, category, search).result
      ensures torrentsToImdb == Some(Resolve(old(Loaded()), info, category, search).cache)
      ensures searches == old(searches) + (if TorrentKey(info) in old(Loaded()) then [] else [Query(info, category)])
      ensures titleFiles == old(titleFiles)
    {
      var id := GetImdbIdFromTorrent(info);
      if id.Ok? {
        return Ok(Some(IMDBTitle(id.value, map[])));
      }
      var q := Query(info, category);
      searches := searches + [q];
      var results := search(q.0, q.1, q.2);
      if results.Err? {
        return Err(results.error);
      }
      if |results.value| > 0 {
        var _ := SetImdbIdFromTorrent(info, results.value[0].id);
        r := Ok(Some(results.value[0]));
      } else {
        r := Ok(None);
      }
    }

    /**
     * `fetch_titles_from_torrents`: resolves every torrent, then fetches and stores each
     * title found, once per id. Every torrent is resolved and every id found is stored even
     * when one resolution raises; the first such exception is then raised and nothing is
     * fetched. An exception of a fetch stores no title file.
     */
    method FetchTitlesFromTorrents(torrents: seq<Torrent>, category: Category, search: Searcher, fetch: Fetcher)
      returns (r: Result<()>)
      requires Valid()
      modifies this
      ensures Valid()
      ensures Loaded() == ResolveAll(old(Loaded()), torrents, category, search).cache
      ensures var res := ResolveAll(old(Loaded()), torrents, category, search);
              && (res.error.Some? ==> r == Err(res.error.value) && titleFiles == old(titleFiles))
              && (res.error.None? ==>
                    var f := FetchAll(fetch, FoundTitles(res.found, {}));
                    && (f.Err? ==> r == Err(f.error) && titleFiles == old(titleFiles))
                    && (f.Ok? ==> r == Ok(()) && titleFiles == old(titleFiles) + f.value))
    {
      var res := ResolveTorrents(torrents, category, search);
      if res.error.Some? {
        return Err(res.error.value);
      }
      var fetched := FetchAll(fetch, FoundTitles(res.found, {}));
      if fetched.Err? {
        return Err(fetched.error);
      }
      titleFiles := titleFiles + fetched.value;
      r := Ok(());
    }

    /**
     * The `tornado.gen.multi` over `_get_title_from_torrent`: every torrent is resolved in
     * turn, and the first exception is kept until all are done.
     */
    method ResolveTorrents(torrents: seq<Torrent>, category: Category, search: Searcher) returns (res: Resolution)
      requires Valid()
      modifies this
      ensures Valid()
      ensures res == ResolveAll(old(Loaded()), torrents, category, search)
      ensures Loaded() == res.cache && titleFiles == old(titleFiles)
    {
      ghost var m0 := Loaded();
      var found: seq<Option<IMDBTitle>> := [];
      var failed: Option<Exception> := None;
      var i := 0;
      assert torrents[0..] == torrents;
      while i < |torrents|
        invariant 0 <= i <= |torrents|
        invariant Valid()
        invariant ResolveAll(m0, torrents, category, search)
               == Prepend(found, failed, ResolveAll(Loaded(), torrents[i..], category, search))
        invariant titleFiles == old(titleFiles)
      {
        assert torrents[i..][0] == torrents[i] && torrents[i..][1..] == torrents[i + 1..];
        ghost var first := Resolve(Loaded(), torrents[i].nameInfo, category, search);
        ResolveAllCons(Loaded(), torrents[i..], category, search, first);
        var t := GetTitleFromTorrent(torrents[i].nameInfo, category, search);
        var one := if t.Ok? then t.value else None;
        ghost var e := if t.Err? then Some(t.error) else None;
        PrependTwice(found, failed, one, e, ResolveAll(Loaded(), torrents[i + 1..], category, search));
        if t.Err? && failed.None? {
          failed := Some(t.error);
        }
        found := found + [one];
        i := i + 1;
      }
      assert found + [] == found;
      res := Resolution(found, Loaded(), failed);
    }

    /**
     * `get_medias_from_torrents`: the medias of the torrents without `None` and without
     * repetitions, each at its first occurrence.
     */
    method GetMediasFromTorrents(torrents: seq<Torrent>) returns (r: seq<Media>)
      requires Valid()
      modifies this
      ensures Valid()
      ensures torrentsToImdb == if torrents == [] then old(torrentsToImdb) else Some(old(Loaded()))
      ensures r == Firsts(Medias(old(Loaded()), titleFiles, torrents), |Medias(old(Loaded()), titleFiles, torrents)|)
      ensures cacheFile == old(cacheFile) && titleFiles == old(titleFiles) && searches == old(searches)
    {
      if torrents != [] && torrentsToImdb.None? {
        LoadTorrentsToImdb();
      }
      r := Deduplicate(Medias(Loaded(), titleFiles, torrents));
    }

    /** The loop of `get_medias_from_torrents` over a set of seen medias: skips `None` and repetitions. */
    static method Deduplicate(medias: seq<Option<Media>>) returns (r: seq<Media>)
      ensures r == Firsts(medias, |medias|)
    {
      var seen: set<MediaKey> := {};
      r := [];
      var i := 0;
      while i < |medias|
        invariant 0 <= i <= |medias|
        invariant r == Firsts(medias, i)
        invariant seen == KeysUpTo(medias, i)
      {
        FirstsStep(medias, i);
        var m := medias[i];
        if m.Some? {
          if Key(m.value) !in seen {
            r := r + [m.value];
            seen := seen + {Key(m.value)};
          }
        }
        i := i + 1;
      }
    }
  }

  /**
   * What a successful batch leaves behind: each torrent that found a title is cached under
   * its key; the file saved for its id is the attributes of the title first found with that
   * id (those of the search result row, or none for a cache hit) updated with the title
   * page's; and the next cached lookup gives that title whenever the file has a type, in
   * particular whenever the title came from a search.
   */
  lemma {:induction false} FetchedTitlesAreCached(m: map<string, string>, files: map<string, map<string, Value>>,
                                                  ts: seq<Torrent>, category: Category, search: Searcher,
                                                  fetch: Fetcher, i: nat)
    requires ResolveAll(m, ts, category, search).error.None?
    requires FetchAll(fetch, FoundTitles(ResolveAll(m, ts, category, search).found, {})).Ok?
    requires i < |ts| && ResolveAll(m, ts, category, search).found[i].Some?
    ensures var res := ResolveAll(m, ts, category, search);
            var id := res.found[i].value.id;
            var f := FetchAll(fetch, FoundTitles(res.found, {})).value;
            && FirstTitle(res.found, id).Some? && id in f && fetch(id).Ok?
            && f[id] == FirstTitle(res.found, id).value.attrs + fetch(id).value
            && CachedTitle(res.cache, files + f, ts[i].nameInfo).Some? == ("type" in f[id])
            && ("type" in FirstTitle(res.found, id).value.attrs ==> CachedTitle(res.cache, files + f, ts[i].nameInfo).Some?)
            && (CachedTitle(res.cache, files + f, ts[i].nameInfo).Some? ==>
                  CachedTitle(res.cache, files + f, ts[i].nameInfo).value.imdb == IMDBTitle(id, f[id]))
  {
    var res := ResolveAll(m, ts, category, search);
    ResolveAllCaches(m, ts, category, search);
    var titles := FoundTitles(res.found, {});
    var id := res.found[i].value.id;
    FoundTitlesCover(res.found, {}, i);
    var k :| 0 <= k < |titles| && TitleIds(titles)[k] == id;
    FoundTitlesFirst(res.found, {}, k);
    var f := FetchAll(fetch, titles).value;
    FetchAllSaves(fetch, titles, k);
    assert f[id] == titles[k].attrs + fetch(id).value;
    CachedAfterSave(res.cache, files, f, ts[i].nameInfo, id);
  }

  /** A torrent cached under `id` reads back the saved file of `id`, when it has a type. */
  lemma {:induction false} CachedAfterSave(m: map<string, string>, files: map<string, map<string, Value>>,
                                           f: map<string, map<string, Value>>, info: NameInfo, id: string)
    requires TorrentKey(info) in m && m[TorrentKey(info)] == id && id in f
    ensures CachedTitle(m, files + f, info).Some? == ("type" in f[id])
    ensures CachedTitle(m, files + f, info).Some? ==> CachedTitle(m, files + f, info).value.imdb == IMDBTitle(id, f[id])
  {
    assert (files + f)[id] == f[id];
  }
}
