/**
 * Torrent filtering by technical attributes (`TorrentEngine._filter` and
 * `_filter_from_attr` in tvfamily/core.py). The regular expression attached to each
 * accepted value is not modelled: a `Matcher` stands for `dictionary[f].match(value)`.
 */
module TorrentFilter {
  import opened Wrappers
  import opened Torrents
  import opened Sequences

  /** The three attributes filtered through a dictionary of patterns. */
  datatype Attr = Quality | Codec | Resolution

  /** `t.name_info.get(attr)`. */
  function AttrValue(info: NameInfo, attr: Attr): Option<string>
  {
    match attr
    case Quality => info.quality
    case Codec => info.codec
    case Resolution => info.resolution
  }

  const QualityValues: seq<string> :=
    ["Cam", "Telesync", "Telecine", "Screener", "DVD-Rip", "HDTV", "WEB-DL", "WEBRip", "Blu-ray"]
  const CodecValues: seq<string> := ["XviD", "H.264", "H.265"]
  const ResolutionValues: seq<string> := ["720p", "1080p"]
  const ThreeDValues: seq<string> := ["3D"]

  /** The keys of `_FILTER_QUALITY`, `_FILTER_CODEC` and `_FILTER_RESOLUTION`. */
  function KnownValues(attr: Attr): seq<string>
  {
    match attr
    case Quality => QualityValues
    case Codec => CodecValues
    case Resolution => ResolutionValues
  }

  /** `matches(attr, f, v)`: the pattern of accepted value `f` of `attr` matches at the start of `v`. */
  type Matcher = (Attr, string, string) -> bool

  /** A filter tuple: each component absent (`None`, accept all) or a list of accepted values. */
  datatype Filters = Filters(
    quality: Option<seq<string>>,
    codec: Option<seq<string>>,
    resolution: Option<seq<string>>,
    threeD: Option<seq<string>>)

  function Component(filters: Filters, attr: Attr): Option<seq<string>>
  {
    match attr
    case Quality => filters.quality
    case Codec => filters.codec
    case Resolution => filters.resolution
  }

  /**
   * The inner loop of `_filter_from_attr` for one torrent: scans the accepted values in
   * order; an absent attribute or a matching pattern accepts, an accepted value without a
   * pattern raises `KeyError` when it is reached with a present attribute.
   */
  function AcceptsFrom(value: Option<string>, fs: seq<string>, attr: Attr, matches: Matcher): Result<bool>
  {
    if fs == [] then Ok(false)
    else if value.None? then Ok(true)
    else if fs[0] !in KnownValues(attr) then Err(KeyError(fs[0]))
    else if matches(attr, fs[0], value.value) then Ok(true)
    else AcceptsFrom(value, fs[1..], attr, matches)
  }

  /** The acceptance rule: an absent attribute, or a pattern of some accepted value that matches. */
  ghost predicate Passes(value: Option<string>, fs: seq<string>, attr: Attr, matches: Matcher)
  {
    fs != [] && (value.None? || exists f :: f in fs && matches(attr, f, value.value))
  }

  /** When the scan does not raise, it accepts exactly by the rule; so `[]` rejects everything. */
  lemma {:induction false} AcceptsFromMeansPasses(value: Option<string>, fs: seq<string>, attr: Attr, matches: Matcher)
    requires AcceptsFrom(value, fs, attr, matches).Ok?
    ensures AcceptsFrom(value, fs, attr, matches).value == Passes(value, fs, attr, matches)
  {
    if fs != [] && value.Some? && !matches(attr, fs[0], value.value) {
      AcceptsFromMeansPasses(value, fs[1..], attr, matches);
      if fs[1..] != [] {
        assert forall f :: f in fs <==> f == fs[0] || f in fs[1..] by {
          assert fs == [fs[0]] + fs[1..];
        }
      }
    }
  }

  /** Accepted values that all have a pattern never raise. */
  lemma {:induction false} KnownValuesNeverRaise(value: Option<string>, fs: seq<string>, attr: Attr, matches: Matcher)
    requires forall f :: f in fs ==> f in KnownValues(attr)
    ensures AcceptsFrom(value, fs, attr, matches).Ok?
  {
    if fs != [] && value.Some? && !matches(attr, fs[0], value.value) {
      assert forall f :: f in fs[1..] ==> f in fs;
      KnownValuesNeverRaise(value, fs[1..], attr, matches);
    }
  }

  function Prepend(head: seq<Torrent>, r: Result<seq<Torrent>>): Result<seq<Torrent>>
  {
    if r.Ok? then Ok(head + r.value) else r
  }

  /** `_filter_from_attr(torrents, filter, attr, dictionary)`, torrent by torrent. */
  function FilterAttr(ts: seq<Torrent>, filter: Option<seq<string>>, attr: Attr, matches: Matcher): Result<seq<Torrent>>
  {
    if filter.None? then Ok(ts)
    else if ts == [] then Ok([])
    else
      var accepted :- AcceptsFrom(AttrValue(ts[0].nameInfo, attr), filter.value, attr, matches);
      Prepend(if accepted then [ts[0]] else [], FilterAttr(ts[1..], filter, attr, matches))
  }

  /** `_filter_from_attr` as the source writes it: a loop over the torrents and an inner loop over the accepted values. */
  method FilterFromAttr(ts: seq<Torrent>, filter: Option<seq<string>>, attr: Attr, matches: Matcher)
    returns (r: Result<seq<Torrent>>)
    ensures r == FilterAttr(ts, filter, attr, matches)
  {
    if filter.None? {
      return Ok(ts);
    }
    var fs := filter.value;
    var l: seq<Torrent> := [];
    var i := 0;
    assert ts[i..] == ts;
    assert FilterAttr(ts, filter, attr, matches).Ok? ==> [] + FilterAttr(ts, filter, attr, matches).value == FilterAttr(ts, filter, attr, matches).value;
    while i < |ts|
      invariant 0 <= i <= |ts|
      invariant FilterAttr(ts, filter, attr, matches) == Prepend(l, FilterAttr(ts[i..], filter, attr, matches))
    {
      var t := ts[i];
      assert ts[i..][0] == t && ts[i..][1..] == ts[i + 1..];
      var accepted := ScanAccepted(AttrValue(t.nameInfo, attr), fs, attr, matches);
      FilterAttrStep(ts[i..], filter, attr, matches);
      if accepted.Err? {
        return Err(accepted.error);
      }
      PrependPrepend(l, if accepted.value then [t] else [], FilterAttr(ts[i + 1..], filter, attr, matches));
      if accepted.value {
        l := l + [t];
      } else {
        assert l + [] == l;
      }
      i := i + 1;
    }
    assert ts[i..] == [];
    assert l + [] == l;
    r := Ok(l);
  }

  /** The inner loop of `_filter_from_attr` over the accepted values, for one torrent's value. */
  method ScanAccepted(value: Option<string>, fs: seq<string>, attr: Attr, matches: Matcher) returns (r: Result<bool>)
    ensures r == AcceptsFrom(value, fs, attr, matches)
  {
    var j := 0;
    while j < |fs|
      invariant 0 <= j <= |fs|
      invariant AcceptsFrom(value, fs, attr, matches) == AcceptsFrom(value, fs[j..], attr, matches)
    {
      assert fs[j..][0] == fs[j] && fs[j..][1..] == fs[j + 1..];
      if value.None? {
        return Ok(true);
      }
      if fs[j] !in KnownValues(attr) {
        return Err(KeyError(fs[j]));
      }
      if matches(attr, fs[j], value.value) {
        return Ok(true);
      }
      j := j + 1;
    }
    assert fs[j..] == [];
    r := Ok(false);
  }

  /** One torrent of `FilterAttr`: its scan raises, or decides whether it is kept. */
  lemma {:induction false} FilterAttrStep(ts: seq<Torrent>, filter: Option<seq<string>>, attr: Attr, matches: Matcher)
    requires filter.Some? && ts != []
    ensures var a := AcceptsFrom(AttrValue(ts[0].nameInfo, attr), filter.value, attr, matches);
      FilterAttr(ts, filter, attr, matches)
      == if a.Err? then Err(a.error) else Prepend(if a.value then [ts[0]] else [], FilterAttr(ts[1..], filter, attr, matches))
  {
  }

  lemma {:induction false} PrependPrepend(l: seq<Torrent>, h: seq<Torrent>, r: Result<seq<Torrent>>)
    ensures Prepend(l, Prepend(h, r)) == Prepend(l + h, r)
  {
    if r.Ok? {
      assert l + (h + r.value) == (l + h) + r.value;
    }
  }

  /** The comprehension that applies the 3-D component. */
  function Filter3D(ts: seq<Torrent>, threeD: Option<seq<string>>): seq<Torrent>
  {
    Keep(ts, (t: Torrent) => Passes3D(t, threeD))
  }

  /** The 3-D rule: only a 3-D torrent can be rejected, and only when "3D" is not accepted. */
  predicate Passes3D(t: Torrent, threeD: Option<seq<string>>)
  {
    threeD.None? || !t.nameInfo.threeD || "3D" in threeD.value
  }

  /** `_filter(torrents, filters)`: no filter keeps the list; otherwise the four components in turn. */
  function Filter(ts: seq<Torrent>, filters: Option<Filters>, matches: Matcher): Result<seq<Torrent>>
  {
    if filters.None? then Ok(ts)
    else
      var f := filters.value;
      var l1 :- FilterAttr(ts, f.quality, Quality, matches);
      var l2 :- FilterAttr(l1, f.codec, Codec, matches);
      var l3 :- FilterAttr(l2, f.resolution, Resolution, matches);
      Ok(Filter3D(l3, f.threeD))
  }

  /** `_filter` as the source writes it, with the three calls of `_filter_from_attr`. */
  method FilterTorrents(ts: seq<Torrent>, filters: Option<Filters>, matches: Matcher) returns (r: Result<seq<Torrent>>)
    ensures r == Filter(ts, filters, matches)
  {
    if filters.None? {
      return Ok(ts);
    }
    var f := filters.value;
    var l1 := FilterFromAttr(ts, f.quality, Quality, matches);
    if l1.Err? {
      return Err(l1.error);
    }
    var l2 := FilterFromAttr(l1.value, f.codec, Codec, matches);
    if l2.Err? {
      return Err(l2.error);
    }
    var l3 := FilterFromAttr(l2.value, f.resolution, Resolution, matches);
    if l3.Err? {
      return Err(l3.error);
    }
    r := Ok(Filter3D(l3.value, f.threeD));
  }

  /** A torrent passes one attribute component: absent component, or the acceptance rule. */
  ghost predicate PassesAttr(t: Torrent, filter: Option<seq<string>>, attr: Attr, matches: Matcher)
  {
    filter.None? || Passes(AttrValue(t.nameInfo, attr), filter.value, attr, matches)
  }

  /** The conjunction of the four components. */
  ghost predicate PassesAll(t: Torrent, f: Filters, matches: Matcher)
  {
    && PassesAttr(t, f.quality, Quality, matches)
    && PassesAttr(t, f.codec, Codec, matches)
    && PassesAttr(t, f.resolution, Resolution, matches)
    && Passes3D(t, f.threeD)
  }

  /** One component is an order-preserving selection by its rule. */
  lemma {:induction false} FilterAttrIsSelection(ts: seq<Torrent>, filter: Option<seq<string>>, attr: Attr, matches: Matcher)
    requires FilterAttr(ts, filter, attr, matches).Ok?
    ensures FilterAttr(ts, filter, attr, matches).value == Keep(ts, (t: Torrent) => PassesAttr(t, filter, attr, matches))
  {
    var p := (t: Torrent) => PassesAttr(t, filter, attr, matches);
    if filter.None? {
      KeepAll(ts, p);
    } else if ts != [] {
      AcceptsFromMeansPasses(AttrValue(ts[0].nameInfo, attr), filter.value, attr, matches);
      FilterAttrIsSelection(ts[1..], filter, attr, matches);
    }
  }

  /** With patterns for every accepted value, one component never raises. */
  lemma {:induction false} FilterAttrKnownValuesOk(ts: seq<Torrent>, filter: Option<seq<string>>, attr: Attr, matches: Matcher)
    requires filter.Some? ==> forall f :: f in filter.value ==> f in KnownValues(attr)
    ensures FilterAttr(ts, filter, attr, matches).Ok?
  {
    if filter.Some? && ts != [] {
      KnownValuesNeverRaise(AttrValue(ts[0].nameInfo, attr), filter.value, attr, matches);
      FilterAttrKnownValuesOk(ts[1..], filter, attr, matches);
    }
  }

  /** `_filter(ts, None)` is `ts`. */
  lemma {:induction false} FilterNoneIsIdentity(ts: seq<Torrent>, matches: Matcher)
    ensures Filter(ts, None, matches) == Ok(ts)
  {
  }

  /**
   * The conjunction law: when filtering does not raise, the result is exactly the torrents
   * of `ts` that pass all four components, in their order, none repeated.
   */
  lemma {:induction false} FilterIsConjunction(ts: seq<Torrent>, f: Filters, matches: Matcher)
    requires Filter(ts, Some(f), matches).Ok?
    ensures Filter(ts, Some(f), matches).value == Keep(ts, (t: Torrent) => PassesAll(t, f, matches))
    ensures IsSubsequence(Filter(ts, Some(f), matches).value, ts)
    ensures forall t :: t in Filter(ts, Some(f), matches).value <==> t in ts && PassesAll(t, f, matches)
  {
    var all := (t: Torrent) => PassesAll(t, f, matches);
    FilterIsKeep(ts, f, matches);
    var r := Filter(ts, Some(f), matches).value;
    KeepIsSubsequence(ts, all);
    forall t ensures t in r <==> t in ts && PassesAll(t, f, matches) {
      KeepMembership(ts, all, t);
    }
  }

  /** The three components and the 3-D rule, one selection after another, are one selection by their conjunction. */
  lemma {:induction false} FilterIsKeep(ts: seq<Torrent>, f: Filters, matches: Matcher)
    requires Filter(ts, Some(f), matches).Ok?
    ensures Filter(ts, Some(f), matches).value == Keep(ts, (t: Torrent) => PassesAll(t, f, matches))
  {
    var pq := (t: Torrent) => PassesAttr(t, f.quality, Quality, matches);
    var pc := (t: Torrent) => PassesAttr(t, f.codec, Codec, matches);
    var pr := (t: Torrent) => PassesAttr(t, f.resolution, Resolution, matches);
    var p3 := (t: Torrent) => Passes3D(t, f.threeD);
    var qc := (t: Torrent) => pq(t) && pc(t);
    var qcr := (t: Torrent) => qc(t) && pr(t);
    var all := (t: Torrent) => PassesAll(t, f, matches);
    var l1 := FilterAttr(ts, f.quality, Quality, matches).value;
    FilterAttrIsSelection(ts, f.quality, Quality, matches);
    KeepKeep(ts, pq, pc, qc);
    var l2 := FilterAttr(l1, f.codec, Codec, matches).value;
    FilterAttrIsSelection(l1, f.codec, Codec, matches);
    assert l2 == Keep(ts, qc);
    KeepKeep(ts, qc, pr, qcr);
    var l3 := FilterAttr(l2, f.resolution, Resolution, matches).value;
    FilterAttrIsSelection(l2, f.resolution, Resolution, matches);
    assert l3 == Keep(ts, qcr);
    KeepKeep(ts, qcr, p3, all);
    assert Filter(ts, Some(f), matches).value == Keep(l3, p3);
  }

  /** With patterns for every accepted value, `_filter` never raises. */
  lemma {:induction false} FilterKnownValuesOk(ts: seq<Torrent>, f: Filters, matches: Matcher)
    requires f.quality.Some? ==> forall v :: v in f.quality.value ==> v in QualityValues
    requires f.codec.Some? ==> forall v :: v in f.codec.value ==> v in CodecValues
    requires f.resolution.Some? ==> forall v :: v in f.resolution.value ==> v in ResolutionValues
    ensures Filter(ts, Some(f), matches).Ok?
  {
    FilterAttrKnownValuesOk(ts, f.quality, Quality, matches);
    var l1 := FilterAttr(ts, f.quality, Quality, matches).value;
    FilterAttrKnownValuesOk(l1, f.codec, Codec, matches);
    var l2 := FilterAttr(l1, f.codec, Codec, matches).value;
    FilterAttrKnownValuesOk(l2, f.resolution, Resolution, matches);
  }
}
