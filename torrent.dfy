/**
 * The `Torrent` record of tvfamily/torrent.py: one provider listing, its popularity
 * counters, and the attributes the name parser derives from its name.
 */
module Torrents {
  import opened Wrappers

  /**
   * What the name parser (`tvfamily.PTN.parse`) extracts from a torrent name. A missing
   * field is `None`; a missing 3-D flag reads as `false`, as `name_info.get('3d', False)` does.
   */
  datatype NameInfo = NameInfo(
    title: string,
    year: Option<nat>,
    season: Option<int>,
    episode: Option<int>,
    quality: Option<string>,
    codec: Option<string>,
    resolution: Option<string>,
    threeD: bool)

  /** The name parser itself is not modelled: it is any function of the name. */
  type NameParser = string -> NameInfo

  /** A JSON scalar: the values `magnet` and `size` take (`None`, a number or a string). */
  datatype Scalar = Null | Int(i: int) | Str(s: string)

  datatype Torrent = Torrent(
    name: string,
    magnet: Scalar,
    size: Scalar,
    seeders: int,
    leechers: int,
    nameInfo: NameInfo)

  /** A torrent whose parsed attributes are those of its own name, as the constructor makes it. */
  ghost predicate WellFormed(t: Torrent, parse: NameParser)
  {
    t.nameInfo == parse(t.name)
  }

  /** `Torrent(name, magnet=None, size=0, seeders=0, leechers=0)`. */
  function NewTorrent(parse: NameParser, name: string, magnet: Scalar := Null, size: Scalar := Int(0),
                      seeders: int := 0, leechers: int := 0): (t: Torrent)
    ensures WellFormed(t, parse)
    ensures t.name == name && t.magnet == magnet && t.size == size
    ensures t.seeders == seeders && t.leechers == leechers
  {
    Torrent(name, magnet, size, seeders, leechers, parse(name))
  }

  /** A torrent built from its name alone has the constructor's defaults. */
  lemma {:induction false} NewTorrentDefaults(parse: NameParser, name: string)
    ensures NewTorrent(parse, name).magnet == Null
    ensures NewTorrent(parse, name).size == Int(0)
    ensures NewTorrent(parse, name).seeders == 0 && NewTorrent(parse, name).leechers == 0
  {
  }

  const FieldNames: set<string> := {"name", "magnet", "size", "seeders", "leechers"}

  /** `Torrent.todict`: the five stored fields, without the derived `name_info`. */
  function ToDict(t: Torrent): (d: map<string, Scalar>)
    ensures d.Keys == FieldNames
    ensures d["name"] == Str(t.name) && d["magnet"] == t.magnet && d["size"] == t.size
    ensures d["seeders"] == Int(t.seeders) && d["leechers"] == Int(t.leechers)
  {
    map["name" := Str(t.name), "magnet" := t.magnet, "size" := t.size,
        "seeders" := Int(t.seeders), "leechers" := Int(t.leechers)]
  }

  function IntArgument(d: map<string, Scalar>, key: string): Result<int>
  {
    if key !in d then Ok(0)
    else if d[key].Int? then Ok(d[key].i)
    else Err(TypeError(key))
  }

  /**
   * `Torrent(**d)`: an unknown keyword or a missing `name` raise `TypeError`; absent
   * optional fields take their defaults.
   */
  function FromDict(parse: NameParser, d: map<string, Scalar>): (r: Result<Torrent>)
    ensures r.Ok? ==> WellFormed(r.value, parse)
    ensures !(d.Keys <= FieldNames) ==> r.Err?
    ensures "name" !in d ==> r.Err?
  {
    if !(d.Keys <= FieldNames) then Err(TypeError("unexpected keyword argument"))
    else if "name" !in d || !d["name"].Str? then Err(TypeError("name"))
    else
      var seeders :- IntArgument(d, "seeders");
      var leechers :- IntArgument(d, "leechers");
      Ok(NewTorrent(parse, d["name"].s,
                    if "magnet" in d then d["magnet"] else Null,
                    if "size" in d then d["size"] else Int(0),
                    seeders, leechers))
  }

  /**
   * Rebuilding a torrent from its dictionary gives back the same five fields and, since the
   * parsed attributes depend on the name alone, the same `name_info`.
   */
  lemma {:induction false} RoundTrip(parse: NameParser, t: Torrent)
    requires WellFormed(t, parse)
    ensures FromDict(parse, ToDict(t)) == Ok(t)
  {
  }

  /** The list form written to and read back from a snapshot file. */
  function ToDicts(ts: seq<Torrent>): (ds: seq<map<string, Scalar>>)
    ensures |ds| == |ts|
    ensures forall i :: 0 <= i < |ts| ==> ds[i] == ToDict(ts[i])
  {
    if ts == [] then [] else [ToDict(ts[0])] + ToDicts(ts[1..])
  }

  /** `[Torrent(**t) for t in ds]`: the first malformed dictionary raises. */
  function FromDicts(parse: NameParser, ds: seq<map<string, Scalar>>): (r: Result<seq<Torrent>>)
    ensures r.Ok? ==> |r.value| == |ds|
  {
    if ds == [] then Ok([])
    else
      var t :- FromDict(parse, ds[0]);
      var rest :- FromDicts(parse, ds[1..]);
      Ok([t] + rest)
  }

  /** A snapshot of well-formed torrents reads back as the same list. */
  lemma {:induction false} SnapshotRoundTrip(parse: NameParser, ts: seq<Torrent>)
    requires forall i :: 0 <= i < |ts| ==> WellFormed(ts[i], parse)
    ensures FromDicts(parse, ToDicts(ts)) == Ok(ts)
  {
    if ts != [] {
      var tail := ts[1..];
      RoundTrip(parse, ts[0]);
      assert forall i :: 0 <= i < |tail| ==> tail[i] == ts[i + 1];
      SnapshotRoundTrip(parse, tail);
      SnapshotCons(parse, ts, tail);
    }
  }

  /** A list reads back when its first torrent and the rest do. */
  lemma {:induction false} SnapshotCons(parse: NameParser, ts: seq<Torrent>, tail: seq<Torrent>)
    requires ts != [] && tail == ts[1..]
    requires FromDict(parse, ToDict(ts[0])) == Ok(ts[0]) && FromDicts(parse, ToDicts(tail)) == Ok(tail)
    ensures FromDicts(parse, ToDicts(ts)) == Ok(ts)
  {
    var ds := ToDicts(ts);
    assert ds[0] == ToDict(ts[0]) && ds[1..] == ToDicts(tail);
    assert [ts[0]] + tail == ts;
  }
}
