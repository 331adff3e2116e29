/**
 * `SearchParser` of tvfamily/imdb.py: the state machine that reads the results table of an
 * IMDB search page. A `result_text` cell opens a result; the link inside it gives the id and
 * the title; the text after the link gives the year and the type; closing the cell appends
 * the result and resets the year and the type.
 */
module SearchParsing {
  import opened Wrappers
  import opened Strings
  import opened Imdb
  import opened Html
  import opened Sequences

  /** `_RE_SEARCH_YEAR.search(data)`: the value of the four digits of the first `(YYYY)`, if any. */
  type YearPattern = string -> Option<nat>

  /** `_RE_SEARCH_TYPE.search(data)`: the first `(TYPE)` naming one of the seven explicit types, if any. */
  type TypePattern = string -> Option<string>

  /**
   * The parser's fields. `imdbId` and `title` are `None` until first assigned: reading them
   * before raises `AttributeError`; they are never reset.
   */
  datatype SearchState = SearchState(
    inTitle: bool, inRef: bool,
    year: Option<nat>, kind: Option<string>,
    imdbId: Option<string>, title: Option<string>,
    results: seq<IMDBTitle>)

  /** The state after `__init__`. */
  const Initial := SearchState(false, false, None, None, None, None, [])

  const ResultText: Attribute := ClassIs("result_text")

  /** `a[1].split('/')[2]`: the third `/`-segment of an `href`. */
  function LinkId(value: Option<string>): (r: Result<string>)
    ensures value.None? ==> r == Err(AttributeError("split"))
    ensures value.Some? ==> (r.Ok? <==> |Split(value.value, '/')| >= 3)
    ensures r.Ok? ==> r.value == Split(value.value, '/')[2]
  {
    if value.None? then Err(AttributeError("split"))
    else
      var parts := Split(value.value, '/');
      if |parts| < 3 then Err(IndexError) else Ok(parts[2])
  }

  /** The id after the `href` attributes of a link: each in turn replaces it; the first bad one raises. */
  function LinkIds(attrs: seq<Attribute>, id: Option<string>): Result<Option<string>>
  {
    if attrs == [] then Ok(id)
    else if attrs[0].0 == "href" then
      var i :- LinkId(attrs[0].1);
      LinkIds(attrs[1..], Some(i))
    else LinkIds(attrs[1..], id)
  }

  /** `handle_starttag`. */
  function OnStartTag(s: SearchState, tag: string, attrs: seq<Attribute>): Result<SearchState>
  {
    if tag == "td" then Ok(if ResultText in attrs then s.(inTitle := true) else s)
    else if tag == "a" && s.inTitle then
      var id :- LinkIds(attrs, s.imdbId);
      Ok(s.(imdbId := id, inRef := true))
    else Ok(s)
  }

  /** `handle_data`. */
  function OnData(s: SearchState, data: string, years: YearPattern, types: TypePattern): SearchState
  {
    if s.inRef then s.(title := Some(data))
    else if s.inTitle then
      s.(year := if s.year.None? then years(data) else s.year,
         kind := if s.kind.None? then types(data) else s.kind)
    else s
  }

  /** The `'year'` attribute of a result: `None` when no year was recognised. */
  function YearValue(year: Option<nat>): Value
  {
    if year.None? then VNone else VInt(year.value)
  }

  /** The result a closing cell appends. */
  function CellResult(id: string, title: string, year: Option<nat>, kind: Option<string>): IMDBTitle
  {
    IMDBTitle(id, map["title" := VStr(title), "year" := YearValue(year),
                      "type" := VStr(if kind.None? then "Movie" else kind.value)])
  }

  /** `handle_endtag`. */
  function OnEndTag(s: SearchState, tag: string): Result<SearchState>
  {
    if tag == "td" && s.inTitle then
      if s.imdbId.None? then Err(AttributeError("_imdb_id"))
      else if s.title.None? then Err(AttributeError("_title"))
      else Ok(s.(results := s.results + [CellResult(s.imdbId.value, s.title.value, s.year, s.kind)],
                 inTitle := false, year := None, kind := None))
    else if tag == "a" then Ok(s.(inRef := false))
    else Ok(s)
  }

  function Step(s: SearchState, e: Event, years: YearPattern, types: TypePattern): Result<SearchState>
  {
    match e
    case StartTag(tag, attrs) => OnStartTag(s, tag, attrs)
    case Data(d) => Ok(OnData(s, d, years, types))
    case EndTag(tag) => OnEndTag(s, tag)
  }

  /** `feed`: the events in order; the first exception aborts the parse. */
  function Feed(s: SearchState, events: seq<Event>, years: YearPattern, types: TypePattern): Result<SearchState>
    decreases |events|
  {
    if events == [] then Ok(s)
    else
      var s' :- Step(s, events[0], years, types);
      Feed(s', events[1..], years, types)
  }

  /** An event that closes an open result cell. */
  predicate ClosesCell(s: SearchState, e: Event)
  {
    e == EndTag("td") && s.inTitle
  }

  /** How many events close an open result cell while the events are fed. */
  function Closes(s: SearchState, events: seq<Event>, years: YearPattern, types: TypePattern): nat
    decreases |events|
  {
    if events == [] then 0
    else
      match Step(s, events[0], years, types)
      case Err(_) => 0
      case Ok(s') => (if ClosesCell(s, events[0]) then 1 else 0) + Closes(s', events[1..], years, types)
  }

  /**
   * Closing an open cell appends exactly one result: the last link's id, the last link text,
   * the first recognised year (or `None`) and the first recognised type (or `'Movie'`); it
   * resets the year and the type. It raises when no link id or no link text was ever seen.
   */
  lemma {:induction false} CloseCellAppendsOne(s: SearchState)
    requires s.inTitle
    ensures OnEndTag(s, "td").Err? <==> s.imdbId.None? || s.title.None?
    ensures OnEndTag(s, "td").Ok? ==>
      var s' := OnEndTag(s, "td").value;
      && s'.results == s.results + [s'.results[|s.results|]]
      && s'.results[|s.results|].id == s.imdbId.value
      && s'.results[|s.results|].attrs["title"] == VStr(s.title.value)
      && s'.results[|s.results|].attrs["year"] == (if s.year.Some? then VInt(s.year.value) else VNone)
      && s'.results[|s.results|].attrs["type"] == (if s.kind.Some? then VStr(s.kind.value) else VStr("Movie"))
      && !s'.inTitle && s'.year.None? && s'.kind.None?
  {
  }

  /** Every event other than a cell's closing leaves the results as they are. */
  lemma {:induction false} OtherEventsKeepResults(s: SearchState, e: Event, years: YearPattern, types: TypePattern)
    requires !ClosesCell(s, e)
    ensures Step(s, e, years, types).Ok? ==> Step(s, e, years, types).value.results == s.results
  {
  }

  /**
   * Exactly one result per closing result cell: the results grow by the number of cells
   * closed, and the earlier results stay in front.
   */
  lemma {:induction false} OneResultPerCell(s: SearchState, events: seq<Event>, years: YearPattern, types: TypePattern)
    requires Feed(s, events, years, types).Ok?
    ensures |Feed(s, events, years, types).value.results| == |s.results| + Closes(s, events, years, types)
    ensures Feed(s, events, years, types).value.results[..|s.results|] == s.results
    decreases |events|
  {
    if events != [] {
      var s' := Step(s, events[0], years, types).value;
      OneResultPerCell(s', events[1..], years, types);
      if ClosesCell(s, events[0]) {
        CloseCellAppendsOne(s);
      } else {
        OtherEventsKeepResults(s, events[0], years, types);
      }
      var r := Feed(s, events, years, types).value.results;
      assert r[..|s'.results|] == s'.results;
      assert s'.results[..|s.results|] == s.results;
      assert r[..|s.results|] == r[..|s'.results|][..|s.results|];
    }
  }

  /**
   * Within a cell the first year and the first type stay: no event short of the cell's
   * closing replaces a recognised year or type.
   */
  lemma {:induction false} FirstYearAndTypeKept(s: SearchState, events: seq<Event>, years: YearPattern, types: TypePattern)
    requires forall i :: 0 <= i < |events| ==> events[i] != EndTag("td")
    requires Feed(s, events, years, types).Ok?
    ensures s.year.Some? ==> Feed(s, events, years, types).value.year == s.year
    ensures s.kind.Some? ==> Feed(s, events, years, types).value.kind == s.kind
    decreases |events|
  {
    if events != [] {
      FirstYearAndTypeKept(Step(s, events[0], years, types).value, events[1..], years, types);
    }
  }

  /**
   * The text of a run: inside the link it is the title (and the year and type stay); after
   * the link, inside the cell, it gives the year and the type when they are still unknown.
   */
  lemma {:induction false} DataInCell(s: SearchState, d: string, years: YearPattern, types: TypePattern)
    ensures s.inRef ==> OnData(s, d, years, types) == s.(title := Some(d))
    ensures !s.inRef && s.inTitle ==>
      && OnData(s, d, years, types).year == (if s.year.Some? then s.year else years(d))
      && OnData(s, d, years, types).kind == (if s.kind.Some? then s.kind else types(d))
      && OnData(s, d, years, types).results == s.results
    ensures !s.inRef && !s.inTitle ==> OnData(s, d, years, types) == s
  {
  }

  /** No `href` after position `j`. */
  predicate LastHref(attrs: seq<Attribute>, j: nat)
  {
    forall k :: j < k < |attrs| ==> attrs[k].0 != "href"
  }

  /** Without an `href` the previous id stays. */
  lemma {:induction false} LinkIdsNoHref(attrs: seq<Attribute>, id: Option<string>)
    requires forall j :: 0 <= j < |attrs| ==> attrs[j].0 != "href"
    ensures LinkIds(attrs, id) == Ok(id)
  {
    if attrs != [] {
      assert forall j :: 0 <= j < |attrs[1..]| ==> attrs[1..][j] == attrs[j + 1];
      LinkIdsNoHref(attrs[1..], id);
    }
  }

  /** The walk over the `href` attributes succeeds exactly when every one of them holds an id. */
  lemma {:induction false} LinkIdsOkIff(attrs: seq<Attribute>, id: Option<string>)
    ensures LinkIds(attrs, id).Ok? <==> forall j :: 0 <= j < |attrs| && attrs[j].0 == "href" ==> LinkId(attrs[j].1).Ok?
  {
    if attrs != [] {
      var next := if attrs[0].0 == "href" && LinkId(attrs[0].1).Ok? then Some(LinkId(attrs[0].1).value) else id;
      LinkIdsOkIff(attrs[1..], next);
      assert forall j :: 1 <= j < |attrs| ==> attrs[j] == attrs[1..][j - 1];
    }
  }

  /** When the walk succeeds, the last `href` decides the id. */
  lemma {:induction false} LinkIdsLast(attrs: seq<Attribute>, id: Option<string>, j: nat)
    requires LinkIds(attrs, id).Ok?
    requires j < |attrs| && attrs[j].0 == "href" && LastHref(attrs, j) && LinkId(attrs[j].1).Ok?
    ensures LinkIds(attrs, id).value == Some(LinkId(attrs[j].1).value)
    decreases j
  {
    var next := if attrs[0].0 == "href" && LinkId(attrs[0].1).Ok? then Some(LinkId(attrs[0].1).value) else id;
    if j == 0 {
      assert forall k :: 0 <= k < |attrs[1..]| ==> attrs[1..][k] == attrs[k + 1];
      LinkIdsNoHref(attrs[1..], next);
    } else {
      assert attrs[1..][j - 1] == attrs[j];
      assert LastHref(attrs[1..], j - 1);
      LinkIdsLast(attrs[1..], next, j - 1);
    }
  }

  /**
   * The id of a link is the third `/`-segment of its last `href`; without an `href` the
   * previous id stays; the first `href` without a value, or with fewer than three segments,
   * raises.
   */
  lemma {:induction false} LinkIdsCases(attrs: seq<Attribute>, id: Option<string>)
    ensures (forall j :: 0 <= j < |attrs| ==> attrs[j].0 != "href") ==> LinkIds(attrs, id) == Ok(id)
    ensures LinkIds(attrs, id).Ok? <==> forall j :: 0 <= j < |attrs| && attrs[j].0 == "href" ==> LinkId(attrs[j].1).Ok?
    ensures LinkIds(attrs, id).Ok? ==>
      forall j :: 0 <= j < |attrs| && attrs[j].0 == "href" && LastHref(attrs, j) ==>
        LinkIds(attrs, id).value == Some(LinkId(attrs[j].1).value)
  {
    if forall j :: 0 <= j < |attrs| ==> attrs[j].0 != "href" {
      LinkIdsNoHref(attrs, id);
    }
    LinkIdsOkIff(attrs, id);
    if LinkIds(attrs, id).Ok? {
      forall j | 0 <= j < |attrs| && attrs[j].0 == "href" && LastHref(attrs, j)
        ensures LinkIds(attrs, id).value == Some(LinkId(attrs[j].1).value)
      {
        LinkIdsLast(attrs, id, j);
      }
    }
  }

  /** A result parsed from the table has a string title, a string type and an integer or `None` year. */
  predicate WellParsed(a: IMDBTitle)
  {
    && Parsed(a)
    && a.attrs["type"].VStr?
    && "title" in a.attrs && a.attrs["title"].VStr?
    && (a.attrs["year"].VNone? || a.attrs["year"].VInt?)
  }

  lemma {:induction false} FeedResultsParsed(s: SearchState, events: seq<Event>, years: YearPattern, types: TypePattern)
    requires forall k :: 0 <= k < |s.results| ==> WellParsed(s.results[k])
    requires Feed(s, events, years, types).Ok?
    ensures forall k :: 0 <= k < |Feed(s, events, years, types).value.results| ==>
      WellParsed(Feed(s, events, years, types).value.results[k])
    decreases |events|
  {
    if events != [] {
      var s' := Step(s, events[0], years, types).value;
      assert forall k :: 0 <= k < |s'.results| ==> WellParsed(s'.results[k]) by {
        if ClosesCell(s, events[0]) {
          CloseCellAppendsOne(s);
        } else {
          OtherEventsKeepResults(s, events[0], years, types);
        }
      }
      FeedResultsParsed(s', events[1..], years, types);
    }
  }

  /**
   * The results of a whole page satisfy what `search`'s final filter needs: it never raises
   * on them, and it keeps exactly the results of a requested type and year.
   */
  lemma {:induction false} PageResultsFilterable(events: seq<Event>, years: YearPattern, types: TypePattern,
                              wanted: seq<string>, year: Option<int>)
    requires Feed(Initial, events, years, types).Ok?
    ensures SearchFilter(Feed(Initial, events, years, types).value.results, wanted, year).Ok?
    ensures IsSubsequence(SearchFilter(Feed(Initial, events, years, types).value.results, wanted, year).value,
                          Feed(Initial, events, years, types).value.results)
  {
    FeedResultsParsed(Initial, events, years, types);
    SearchFilterKeeps(Feed(Initial, events, years, types).value.results, wanted, year);
  }

  /**
   * The id and the title are never reset: a result cell without a link repeats the id and
   * the title of the cell before it.
   */
  lemma {:induction false} CellWithoutLinkRepeatsPrevious(s: SearchState, years: YearPattern, types: TypePattern)
    requires !s.inTitle && !s.inRef && s.imdbId.Some? && s.title.Some?
    ensures Feed(s, [StartTag("td", [ResultText]), EndTag("td")], years, types)
         == Ok(s.(results := s.results + [CellResult(s.imdbId.value, s.title.value, s.year, s.kind)],
                  year := None, kind := None))
  {
    var s1 := s.(inTitle := true);
    assert OnStartTag(s, "td", [ResultText]) == Ok(s1);
    var evs := [StartTag("td", [ResultText]), EndTag("td")];
    assert evs[1..] == [EndTag("td")];
    assert Step(s, evs[0], years, types) == Ok(s1);
    var s2 := s.(results := s.results + [CellResult(s.imdbId.value, s.title.value, s.year, s.kind)],
                 year := None, kind := None);
    assert Step(s1, EndTag("td"), years, types) == Ok(s2);
    assert Feed(s1, [EndTag("td")], years, types) == Feed(s2, [], years, types);
  }

  /** The id when the loop over a link's attributes stops: before the first bad `href`, or at the end. */
  function LinkIdsStop(attrs: seq<Attribute>, id: Option<string>): Option<string>
  {
    if attrs == [] then id
    else if attrs[0].0 == "href" then
      var i := LinkId(attrs[0].1);
      if i.Err? then id else LinkIdsStop(attrs[1..], Some(i.value))
    else LinkIdsStop(attrs[1..], id)
  }

  /**
   * The fields a raising handler leaves: a link keeps the ids of the `href`s before the bad
   * one; a closing cell has already made a missing type `'Movie'`.
   */
  function Abort(s: SearchState, e: Event): SearchState
  {
    match e
    case StartTag(tag, attrs) => if tag == "a" && s.inTitle then s.(imdbId := LinkIdsStop(attrs, s.imdbId)) else s
    case Data(_) => s
    case EndTag(tag) =>
      if tag == "td" && s.inTitle then s.(kind := Some(if s.kind.None? then "Movie" else s.kind.value)) else s
  }

  /** The fields when `feed` stops: after every event when none raises, otherwise as the raising handler leaves them. */
  function Halted(s: SearchState, events: seq<Event>, years: YearPattern, types: TypePattern): SearchState
    decreases |events|
  {
    if events == [] then s
    else
      var r := Step(s, events[0], years, types);
      if r.Err? then Abort(s, events[0]) else Halted(r.value, events[1..], years, types)
  }

  /** `feed` on a non-empty list: the first event's step, then the rest. */
  lemma {:induction false} FeedStep(s: SearchState, events: seq<Event>, years: YearPattern, types: TypePattern)
    requires events != []
    ensures Feed(s, events, years, types) ==
      if Step(s, events[0], years, types).Err? then Err(Step(s, events[0], years, types).error)
      else Feed(Step(s, events[0], years, types).value, events[1..], years, types)
    ensures Halted(s, events, years, types) ==
      if Step(s, events[0], years, types).Err? then Abort(s, events[0])
      else Halted(Step(s, events[0], years, types).value, events[1..], years, types)
  {
  }

  /** When `feed` returns, the fields where it stops are its result. */
  lemma {:induction false} HaltedFeedOk(s: SearchState, events: seq<Event>, years: YearPattern, types: TypePattern)
    requires Feed(s, events, years, types).Ok?
    ensures Halted(s, events, years, types) == Feed(s, events, years, types).value
    decreases |events|
  {
    if events != [] {
      FeedStep(s, events, years, types);
      HaltedFeedOk(Step(s, events[0], years, types).value, events[1..], years, types);
    }
  }

  /**
   * When `feed` raises, the fields where it stops are those the raising handler leaves after
   * the longest prefix that does not raise.
   */
  lemma {:induction false} HaltedFeedErr(s: SearchState, events: seq<Event>, years: YearPattern, types: TypePattern)
    requires Feed(s, events, years, types).Err?
    ensures exists n, p :: 0 <= n < |events| && Feed(s, events[..n], years, types) == Ok(p)
                           && Step(p, events[n], years, types).Err?
                           && Halted(s, events, years, types) == Abort(p, events[n])
    decreases |events|
  {
    FeedStep(s, events, years, types);
    var r := Step(s, events[0], years, types);
    if r.Err? {
      assert events[..0] == [];
      assert Feed(s, events[..0], years, types) == Ok(s);
      assert events[0] == events[0];
    } else {
      var rest := events[1..];
      HaltedFeedErr(r.value, rest, years, types);
      var m, p :| 0 <= m < |rest| && Feed(r.value, rest[..m], years, types) == Ok(p)
                  && Step(p, rest[m], years, types).Err? && Halted(r.value, rest, years, types) == Abort(p, rest[m]);
      FeedPrefixCons(s, events, years, types, m);
      assert events[m + 1] == rest[m];
    }
  }

  /** Feeding the first `m + 1` events is the first step, then feeding `m` of the rest. */
  lemma {:induction false} FeedPrefixCons(s: SearchState, events: seq<Event>, years: YearPattern, types: TypePattern, m: nat)
    requires m < |events| && Step(s, events[0], years, types).Ok?
    ensures Feed(s, events[..m + 1], years, types)
         == Feed(Step(s, events[0], years, types).value, events[1..][..m], years, types)
  {
    var pre := events[..m + 1];
    assert pre[0] == events[0] && pre[1..] == events[1..][..m];
    FeedStep(s, pre, years, types);
  }

  /** The parser object, whose handlers update its fields as the events arrive. */
  class SearchParser {
    var inTitle: bool
    var inRef: bool
    var year: Option<nat>
    var kind: Option<string>
    var imdbId: Option<string>
    var title: Option<string>
    var results: seq<IMDBTitle>

    function State(): SearchState
      reads this
    {
      SearchState(inTitle, inRef, year, kind, imdbId, title, results)
    }

    constructor()
      ensures State() == Initial
    {
      inTitle, inRef := false, false;
      year, kind := None, None;
      imdbId, title := None, None;
      results := [];
    }

    /**
     * `handle_starttag`. After an exception the parse is abandoned, so only the results are
     * promised then.
     */
    method HandleStartTag(tag: string, attrs: seq<Attribute>) returns (r: Result<()>)
      modifies this
      ensures r.Ok? <==> OnStartTag(old(State()), tag, attrs).Ok?
      ensures r.Ok? ==> State() == OnStartTag(old(State()), tag, attrs).value
      ensures r.Err? ==> r.error == OnStartTag(old(State()), tag, attrs).error && results == old(results)
      ensures r.Err? ==> State() == Abort(old(State()), StartTag(tag, attrs))
    {
      if tag == "td" {
        var k := 0;
        while k < |attrs|
          invariant 0 <= k <= |attrs|
          invariant inTitle == (old(inTitle) || ResultText in attrs[..k])
          invariant State() == old(State()).(inTitle := inTitle)
        {
          assert attrs[..k + 1] == attrs[..k] + [attrs[k]];
          if attrs[k] == ResultText {
            inTitle := true;
          }
          k := k + 1;
        }
        assert attrs[..k] == attrs;
      } else if tag == "a" && inTitle {
        var k := 0;
        while k < |attrs|
          invariant 0 <= k <= |attrs|
          invariant LinkIds(attrs, old(imdbId)) == LinkIds(attrs[k..], imdbId)
          invariant LinkIdsStop(attrs, old(imdbId)) == LinkIdsStop(attrs[k..], imdbId)
          invariant State() == old(State()).(imdbId := imdbId)
        {
          assert attrs[k..][0] == attrs[k] && attrs[k..][1..] == attrs[k + 1..];
          if attrs[k].0 == "href" {
            var id := LinkId(attrs[k].1);
            if id.Err? {
              return Err(id.error);
            }
            imdbId := Some(id.value);
          }
          k := k + 1;
        }
        inRef := true;
      }
      r := Ok(());
    }

    /** `handle_data`. */
    method HandleData(data: string, years: YearPattern, types: TypePattern)
      modifies this
      ensures State() == OnData(old(State()), data, years, types)
    {
      if inRef {
        title := Some(data);
      } else if inTitle {
        if year.None? {
          year := years(data);
        }
        if kind.None? {
          kind := types(data);
        }
      }
    }

    /** `handle_endtag`. */
    method HandleEndTag(tag: string) returns (r: Result<()>)
      modifies this
      ensures r.Ok? <==> OnEndTag(old(State()), tag).Ok?
      ensures r.Ok? ==> State() == OnEndTag(old(State()), tag).value
      ensures r.Err? ==> r.error == OnEndTag(old(State()), tag).error && results == old(results)
      ensures r.Err? ==> State() == Abort(old(State()), EndTag(tag))
    {
      if tag == "td" && inTitle {
        if kind.None? {
          kind := Some("Movie");
        }
        if imdbId.None? {
          return Err(AttributeError("_imdb_id"));
        }
        if title.None? {
          return Err(AttributeError("_title"));
        }
        results := results + [IMDBTitle(imdbId.value, map["title" := VStr(title.value), "year" := YearValue(year),
                                                           "type" := VStr(kind.value)])];
        inTitle := false;
        year, kind := None, None;
      } else if tag == "a" {
        inRef := false;
      }
      r := Ok(());
    }

    /** `feed` over the tokenised page: each event to its handler, in order, until one raises. */
    method FeedEvents(events: seq<Event>, years: YearPattern, types: TypePattern) returns (r: Result<()>)
      modifies this
      ensures r.Ok? <==> Feed(old(State()), events, years, types).Ok?
      ensures r.Ok? ==> State() == Feed(old(State()), events, years, types).value
      ensures r.Err? ==> r.error == Feed(old(State()), events, years, types).error
      ensures State() == Halted(old(State()), events, years, types)
    {
      var i := 0;
      while i < |events|
        invariant 0 <= i <= |events|
        invariant Feed(old(State()), events, years, types) == Feed(State(), events[i..], years, types)
        invariant Halted(old(State()), events, years, types) == Halted(State(), events[i..], years, types)
      {
        assert events[i..][0] == events[i] && events[i..][1..] == events[i + 1..];
        ghost var before := State();
        FeedStep(before, events[i..], years, types);
        var step: Result<()>;
        match events[i] {
          case StartTag(tag, attrs) =>
            step := HandleStartTag(tag, attrs);
          case Data(d) =>
            HandleData(d, years, types);
            step := Ok(());
          case EndTag(tag) =>
            step := HandleEndTag(tag);
        }
        if step.Err? {
          return Err(step.error);
        }
        i := i + 1;
      }
      r := Ok(());
    }
  }
}
