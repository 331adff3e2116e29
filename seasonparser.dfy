/**
 * `SeasonParser` of tvfamily/imdb.py: the state machine that reads the episode list of one
 * season. A `list_item` div starts a new episode dictionary (`current_episode`); an
 * `episodeNumber` meta stores that same dictionary under its number, so what is written to
 * the current episode afterwards shows through `episodes`. The dictionaries are objects
 * shared between `current_episode` and `episodes`; here they live in `records` and both
 * refer to them by position.
 */
module SeasonParsing {
  import opened Wrappers
  import opened Strings
  import opened Html

  /** A value stored in an episode dictionary; a rating keeps the text `float` accepted. */
  datatype EpValue = EStr(s: string) | ENone | ERating(text: string)

  type Record = map<string, EpValue>

  /** Whether `float(data)` accepts the text (otherwise it raises `ValueError`). */
  type FloatSyntax = string -> bool

  datatype SeasonState = SeasonState(
    records: seq<Record>,
    current: Option<nat>,
    episodes: map<Option<string>, nat>,
    inAirdate: bool, inRatingContainer: bool, inRating: bool, inPlot: bool, inTitle: bool)

  /** Every reference names an existing dictionary. */
  predicate Linked(s: SeasonState)
  {
    && (s.current.Some? ==> s.current.value < |s.records|)
    && (forall k :: k in s.episodes ==> s.episodes[k] < |s.records|)
  }

  /** The state after `__init__`: no episode yet, every flag down. */
  const Initial := SeasonState([], None, map[], false, false, false, false, false)

  /** `episodes` as Python sees it: each episode number with the dictionary it refers to. */
  function Episodes(s: SeasonState): (r: map<Option<string>, Record>)
    requires Linked(s)
    ensures r.Keys == s.episodes.Keys
  {
    map k | k in s.episodes :: s.records[s.episodes[k]]
  }

  /**
   * `attrs`, which holds `episodes` itself under `str(season)`. The season is the digit text
   * of the title page's season link, kept as written (`"06"` stays `"06"`).
   */
  function Attrs(s: SeasonState, season: string): map<string, map<Option<string>, Record>>
    requires Linked(s)
  {
    map[season := Episodes(s)]
  }

  /** The value of the last attribute called `name`, if there is one (a Python local bound in the loop). */
  function LastValue(attrs: seq<Attribute>, name: string): Option<Option<string>>
  {
    if attrs == [] then None
    else if attrs[|attrs| - 1].0 == name then Some(attrs[|attrs| - 1].1)
    else LastValue(attrs[..|attrs| - 1], name)
  }

  /** The div classes the parser reacts to. */
  datatype DivClass = ListItem | Airdate | RatingContainer | Plot

  function DivClassOf(a: Attribute): Option<DivClass>
  {
    if a == ClassIs("list_item odd") || a == ClassIs("list_item even") then Some(ListItem)
    else if a == ClassIs("airdate") then Some(Airdate)
    else if a == ClassIs("ipl-rating-star ") then Some(RatingContainer)
    else if a == ClassIs("item_description") then Some(Plot)
    else None
  }

  /** The loop over a div's attributes stops at the first one it reacts to. */
  function FirstDivClass(attrs: seq<Attribute>): (r: Option<DivClass>)
    ensures r.None? <==> forall j :: 0 <= j < |attrs| ==> DivClassOf(attrs[j]).None?
  {
    if attrs == [] then None
    else if DivClassOf(attrs[0]).Some? then DivClassOf(attrs[0])
    else
      var r := FirstDivClass(attrs[1..]);
      assert forall j :: 1 <= j < |attrs| ==> attrs[j] == attrs[1..][j - 1];
      r
  }

  const StillClass: Attribute := ClassIs("zero-z-index")
  const EpisodeNumber: Attribute := ("itemprop", Some("episodeNumber"))
  const RatingClass: Attribute := ClassIs("ipl-rating-star__rating")
  const TitleName: Attribute := ("itemprop", Some("name"))

  /** The value an attribute gives a dictionary entry. */
  function AttrValue(v: Option<string>): EpValue
  {
    if v.None? then ENone else EStr(v.value)
  }

  /** `self.current_episode[key] = value`: `AttributeError` before the first episode. */
  function SetField(s: SeasonState, key: string, value: EpValue): (r: Result<SeasonState>)
    requires Linked(s)
    ensures r.Ok? ==> Linked(r.value)
  {
    if s.current.None? then Err(AttributeError("current_episode"))
    else
      var c := s.current.value;
      Ok(s.(records := s.records[c := s.records[c][key := value]]))
  }

  /** `handle_starttag`. The right-hand side of an assignment is evaluated first. */
  function OnStartTag(s: SeasonState, tag: string, attrs: seq<Attribute>): (r: Result<SeasonState>)
    requires Linked(s)
    ensures r.Ok? ==> Linked(r.value)
  {
    if tag == "img" then OnImg(s, attrs)
    else if tag == "meta" then OnMeta(s, attrs)
    else if tag == "div" then OnDiv(s, attrs)
    else if tag == "span" && s.inRatingContainer then
      Ok(if RatingClass in attrs then s.(inRating := true) else s)
    else if tag == "a" then
      Ok(if TitleName in attrs then s.(inTitle := true) else s)
    else Ok(s)
  }

  /** An `img` start tag: the still of the current episode. */
  function OnImg(s: SeasonState, attrs: seq<Attribute>): (r: Result<SeasonState>)
    requires Linked(s)
    ensures r.Ok? ==> Linked(r.value)
  {
    if StillClass !in attrs then Ok(s)
    else
      var still := LastValue(attrs, "src");
      if still.None? then Err(UnboundLocalError("still"))
      else SetField(s, "still", AttrValue(still.value))
  }

  /** A `meta` start tag: the episode number refers to the current episode. */
  function OnMeta(s: SeasonState, attrs: seq<Attribute>): (r: Result<SeasonState>)
    requires Linked(s)
    ensures r.Ok? ==> Linked(r.value)
  {
    if EpisodeNumber !in attrs then Ok(s)
    else if s.current.None? then Err(AttributeError("current_episode"))
    else
      var number := LastValue(attrs, "content");
      if number.None? then Err(UnboundLocalError("episodenumber"))
      else Ok(s.(episodes := s.episodes[number.value := s.current.value]))
  }

  /** A `div` start tag: a new episode, or one of the flags raised. */
  function OnDiv(s: SeasonState, attrs: seq<Attribute>): (r: Result<SeasonState>)
    requires Linked(s)
    ensures r.Ok? ==> Linked(r.value)
  {
    match FirstDivClass(attrs)
    case None => Ok(s)
    case Some(ListItem) => Ok(s.(records := s.records + [map[]], current := Some(|s.records|)))
    case Some(Airdate) => Ok(s.(inAirdate := true))
    case Some(RatingContainer) => Ok(s.(inRatingContainer := true))
    case Some(Plot) => Ok(s.(inPlot := true))
  }

  /** `handle_data`: the first raised flag says which entry of the current episode the text is. */
  function OnData(s: SeasonState, data: string, isFloat: FloatSyntax): (r: Result<SeasonState>)
    requires Linked(s)
    ensures r.Ok? ==> Linked(r.value)
  {
    if s.inAirdate then SetField(s, "air_date", EStr(Strip(data)))
    else if s.inRating then
      if !isFloat(data) then Err(ValueError(data)) else SetField(s, "rating", ERating(data))
    else if s.inPlot then SetField(s, "plot", EStr(Strip(data)))
    else if s.inTitle then SetField(s, "title", EStr(data))
    else Ok(s)
  }

  /** `handle_endtag`: a closing div lowers only the first of its raised flags. */
  function OnEndTag(s: SeasonState, tag: string): SeasonState
  {
    if tag == "div" then
      if s.inAirdate then s.(inAirdate := false)
      else if s.inRatingContainer then s.(inRatingContainer := false)
      else if s.inPlot then s.(inPlot := false)
      else s
    else if tag == "span" && s.inRating then s.(inRating := false)
    else if tag == "a" && s.inTitle then s.(inTitle := false)
    else s
  }

  function Step(s: SeasonState, e: Event, isFloat: FloatSyntax): (r: Result<SeasonState>)
    requires Linked(s)
    ensures r.Ok? ==> Linked(r.value)
  {
    match e
    case StartTag(tag, attrs) => OnStartTag(s, tag, attrs)
    case Data(d) => OnData(s, d, isFloat)
    case EndTag(tag) => Ok(OnEndTag(s, tag))
  }

  /** `feed`: the events in order; the first exception aborts the parse. */
  function Feed(s: SeasonState, events: seq<Event>, isFloat: FloatSyntax): (r: Result<SeasonState>)
    requires Linked(s)
    ensures r.Ok? ==> Linked(r.value)
    decreases |events|
  {
    if events == [] then Ok(s)
    else
      var s' :- Step(s, events[0], isFloat);
      Feed(s', events[1..], isFloat)
  }

  /** `feed` on a non-empty list: the first event's step, then the rest. */
  lemma {:induction false} FeedStep(s: SeasonState, events: seq<Event>, isFloat: FloatSyntax)
    requires Linked(s) && events != []
    ensures Feed(s, events, isFloat) ==
      if Step(s, events[0], isFloat).Err? then Err(Step(s, events[0], isFloat).error)
      else Feed(Step(s, events[0], isFloat).value, events[1..], isFloat)
  {
  }

  /**
   * The fields when `feed` stops: after every event when none raises, otherwise as they
   * were before the event that raised, since a raising handler changes nothing.
   */
  function Halted(s: SeasonState, events: seq<Event>, isFloat: FloatSyntax): (h: SeasonState)
    requires Linked(s)
    ensures Linked(h)
    decreases |events|
  {
    if events == [] then s
    else
      var r := Step(s, events[0], isFloat);
      if r.Err? then s else Halted(r.value, events[1..], isFloat)
  }

  /** `Halted` on a non-empty list: the first event's step, then the rest. */
  lemma {:induction false} HaltedStep(s: SeasonState, events: seq<Event>, isFloat: FloatSyntax)
    requires Linked(s) && events != []
    ensures Halted(s, events, isFloat) ==
      if Step(s, events[0], isFloat).Err? then s
      else Halted(Step(s, events[0], isFloat).value, events[1..], isFloat)
  {
  }

  /** When `feed` returns, the fields where it stops are its result. */
  lemma {:induction false} HaltedFeedOk(s: SeasonState, events: seq<Event>, isFloat: FloatSyntax)
    requires Linked(s) && Feed(s, events, isFloat).Ok?
    ensures Halted(s, events, isFloat) == Feed(s, events, isFloat).value
    decreases |events|
  {
    if events != [] {
      FeedStep(s, events, isFloat);
      HaltedStep(s, events, isFloat);
      HaltedFeedOk(Step(s, events[0], isFloat).value, events[1..], isFloat);
    }
  }

  /**
   * When `feed` raises, the fields where it stops are the result of feeding the longest
   * prefix that does not raise, and the next event raises.
   */
  lemma {:induction false} HaltedFeedErr(s: SeasonState, events: seq<Event>, isFloat: FloatSyntax)
    requires Linked(s) && Feed(s, events, isFloat).Err?
    ensures exists n :: 0 <= n < |events| && Feed(s, events[..n], isFloat) == Ok(Halted(s, events, isFloat))
                        && Step(Halted(s, events, isFloat), events[n], isFloat).Err?
    decreases |events|
  {
    FeedStep(s, events, isFloat);
    HaltedStep(s, events, isFloat);
    var r := Step(s, events[0], isFloat);
    if r.Err? {
      assert events[..0] == [];
      assert Feed(s, events[..0], isFloat) == Ok(s);
    } else {
      var rest := events[1..];
      HaltedFeedErr(r.value, rest, isFloat);
      var m :| 0 <= m < |rest| && Feed(r.value, rest[..m], isFloat) == Ok(Halted(r.value, rest, isFloat))
               && Step(Halted(r.value, rest, isFloat), rest[m], isFloat).Err?;
      FeedPrefixCons(s, events, isFloat, m);
      assert events[m + 1] == rest[m];
    }
  }

  /** Feeding the first `m + 1` events is the first step, then feeding `m` of the rest. */
  lemma {:induction false} FeedPrefixCons(s: SeasonState, events: seq<Event>, isFloat: FloatSyntax, m: nat)
    requires Linked(s) && m < |events| && Step(s, events[0], isFloat).Ok?
    ensures Feed(s, events[..m + 1], isFloat) == Feed(Step(s, events[0], isFloat).value, events[1..][..m], isFloat)
  {
    var pre := events[..m + 1];
    assert pre[0] == events[0] && pre[1..] == events[1..][..m];
    FeedStep(s, pre, isFloat);
  }

  /**
   * An `episodeNumber` meta stores the current episode's dictionary itself under the content
   * string, leaving the other numbers alone. It raises `AttributeError` before the first
   * episode and `UnboundLocalError` when the tag has no `content`, even if an earlier tag had
   * one: the number is a local of the call.
   */
  lemma {:induction false} MetaStoresCurrent(s: SeasonState, attrs: seq<Attribute>)
    requires Linked(s) && EpisodeNumber in attrs
    ensures s.current.None? ==> OnStartTag(s, "meta", attrs) == Err(AttributeError("current_episode"))
    ensures s.current.Some? && LastValue(attrs, "content").None? ==>
      OnStartTag(s, "meta", attrs) == Err(UnboundLocalError("episodenumber"))
    ensures OnStartTag(s, "meta", attrs).Ok? ==>
      var s' := OnStartTag(s, "meta", attrs).value;
      var n := LastValue(attrs, "content").value;
      && s'.episodes[n] == s.current.value
      && Episodes(s')[n] == s.records[s.current.value]
      && (forall k :: k in s.episodes && k != n ==> k in s'.episodes && Episodes(s')[k] == Episodes(s)[k])
      && s'.records == s.records && s'.current == s.current
  {
  }

  /**
   * Text changes the current episode's dictionary only, and every number stored for it sees
   * the change: an entry written after the `episodeNumber` meta is in `episodes`.
   */
  lemma {:induction false} DataShowsThroughEpisodes(s: SeasonState, d: string, isFloat: FloatSyntax)
    requires Linked(s) && OnData(s, d, isFloat).Ok?
    ensures var s' := OnData(s, d, isFloat).value;
      && Linked(s') && s'.episodes == s.episodes && s'.current == s.current
      && (forall k :: k in s.episodes && (s.current.None? || s.episodes[k] != s.current.value) ==>
            Episodes(s')[k] == Episodes(s)[k])
      && (forall k :: k in s.episodes && s.current == Some(s.episodes[k]) ==>
            Episodes(s')[k] == s'.records[s.current.value])
  {
    var r := OnData(s, d, isFloat);
    if s.inAirdate {
      SetFieldShows(s, "air_date", EStr(Strip(d)), r);
    } else if s.inRating {
      SetFieldShows(s, "rating", ERating(d), r);
    } else if s.inPlot {
      SetFieldShows(s, "plot", EStr(Strip(d)), r);
    } else if s.inTitle {
      SetFieldShows(s, "title", EStr(d), r);
    }
  }

  /** A field written into the current episode changes its record only, and shows under its numbers. */
  lemma {:induction false} SetFieldShows(s: SeasonState, key: string, value: EpValue, r: Result<SeasonState>)
    requires Linked(s) && r == SetField(s, key, value) && r.Ok?
    ensures var s' := r.value;
      && Linked(s') && s'.episodes == s.episodes && s'.current == s.current
      && (forall k :: k in s.episodes && (s.current.None? || s.episodes[k] != s.current.value) ==>
            Episodes(s')[k] == Episodes(s)[k])
      && (forall k :: k in s.episodes && s.current == Some(s.episodes[k]) ==>
            Episodes(s')[k] == s'.records[s.current.value])
  {
    var s' := r.value;
    forall k | k in s.episodes
      ensures Episodes(s')[k] == s'.records[s.episodes[k]]
    {
    }
  }

  /** Text inside the plot div is the stripped plot of the episode under every number stored for it. */
  lemma {:induction false} PlotOfStoredEpisode(s: SeasonState, n: Option<string>, d: string, isFloat: FloatSyntax)
    requires Linked(s) && s.current.Some? && n in s.episodes && s.episodes[n] == s.current.value
    requires s.inPlot && !s.inAirdate && !s.inRating
    ensures OnData(s, d, isFloat).Ok?
    ensures Episodes(OnData(s, d, isFloat).value)[n] == Episodes(s)[n]["plot" := EStr(Strip(d))]
  {
    DataShowsThroughEpisodes(s, d, isFloat);
  }

  /**
   * A `list_item` div starts a new, empty episode dictionary; the episodes stored before
   * keep theirs.
   */
  lemma {:induction false} NewEpisodeKeepsEarlier(s: SeasonState, attrs: seq<Attribute>)
    requires Linked(s) && FirstDivClass(attrs) == Some(ListItem)
    ensures OnStartTag(s, "div", attrs).Ok?
    ensures var s' := OnStartTag(s, "div", attrs).value;
      && s'.current.Some? && s'.records[s'.current.value] == map[]
      && (forall k :: k in s.episodes ==> s'.episodes[k] != s'.current.value)
      && Episodes(s') == Episodes(s)
  {
    var s' := OnStartTag(s, "div", attrs).value;
    assert forall i :: 0 <= i < |s.records| ==> s'.records[i] == s.records[i];
  }

  function DivFlags(s: SeasonState): nat
  {
    (if s.inAirdate then 1 else 0) + (if s.inRatingContainer then 1 else 0) + (if s.inPlot then 1 else 0)
  }

  /**
   * A closing div lowers exactly one raised div flag, the first of airdate, rating container
   * and plot; the span and the link flags are lowered by their own end tags.
   */
  lemma {:induction false} EndTagFlags(s: SeasonState)
    ensures DivFlags(s) > 0 ==> DivFlags(OnEndTag(s, "div")) == DivFlags(s) - 1
    ensures DivFlags(s) == 0 ==> OnEndTag(s, "div") == s
    ensures s.inAirdate ==> OnEndTag(s, "div") == s.(inAirdate := false)
    ensures !s.inAirdate && s.inRatingContainer ==> OnEndTag(s, "div") == s.(inRatingContainer := false)
    ensures !s.inAirdate && !s.inRatingContainer && s.inPlot ==> OnEndTag(s, "div") == s.(inPlot := false)
    ensures OnEndTag(s, "span") == s.(inRating := false)
    ensures OnEndTag(s, "a") == s.(inTitle := false)
  {
  }

  /** The airdate div closes before an enclosing plot div does: the plot flag outlives one `</div>`. */
  lemma {:induction false} OneDivFlagPerClose(s: SeasonState)
    requires s.inAirdate && s.inPlot
    ensures OnEndTag(s, "div").inPlot && !OnEndTag(s, "div").inAirdate
  {
  }

  /** The parser object; `episodes` entries and `current_episode` share dictionaries. */
  class SeasonParser {
    const season: string
    var records: seq<Record>
    var current: Option<nat>
    var episodes: map<Option<string>, nat>
    var inAirdate: bool
    var inRatingContainer: bool
    var inRating: bool
    var inPlot: bool
    var inTitle: bool

    function State(): SeasonState
      reads this
    {
      SeasonState(records, current, episodes, inAirdate, inRatingContainer, inRating, inPlot, inTitle)
    }

    ghost predicate Valid()
      reads this
    {
      Linked(State())
    }

    /** `attrs`: the season's text, holding `episodes`. */
    function AttrsOf(): map<string, map<Option<string>, Record>>
      requires Valid()
      reads this
    {
      Attrs(State(), season)
    }

    constructor(season: string)
      ensures Valid() && State() == Initial && this.season == season
    {
      this.season := season;
      records, current, episodes := [], None, map[];
      inAirdate, inRatingContainer, inRating, inPlot, inTitle := false, false, false, false, false;
    }

    /** `self.current_episode[key] = value`. */
    method SetEntry(key: string, value: EpValue) returns (r: Result<()>)
      requires Valid()
      modifies this
      ensures r.Ok? <==> SetField(old(State()), key, value).Ok?
      ensures r.Ok? ==> State() == SetField(old(State()), key, value).value
      ensures r.Err? ==> r.error == SetField(old(State()), key, value).error && State() == old(State())
    {
      if current.None? {
        return Err(AttributeError("current_episode"));
      }
      var c := current.value;
      records := records[c := records[c][key := value]];
      r := Ok(());
    }

    /** The attribute loops of `img` and `meta`: whether `flag` is there, and the last value of `name`. */
    static method ScanAttrs(attrs: seq<Attribute>, flag: Attribute, name: string)
      returns (found: bool, value: Option<Option<string>>)
      requires flag.0 != name
      ensures found == (flag in attrs) && value == LastValue(attrs, name)
    {
      found, value := false, None;
      var k := 0;
      while k < |attrs|
        invariant 0 <= k <= |attrs|
        invariant found == (flag in attrs[..k]) && value == LastValue(attrs[..k], name)
      {
        assert attrs[..k + 1] == attrs[..k] + [attrs[k]] && attrs[..k + 1][..k] == attrs[..k];
        if attrs[k] == flag {
          found := true;
        } else if attrs[k].0 == name {
          value := Some(attrs[k].1);
        }
        k := k + 1;
      }
      assert attrs[..k] == attrs;
    }

    /** The attribute loops of `div`, `span` and `a`, which stop at the first attribute that matters. */
    static method FirstDiv(attrs: seq<Attribute>) returns (c: Option<DivClass>)
      ensures c == FirstDivClass(attrs)
    {
      var k := 0;
      while k < |attrs|
        invariant 0 <= k <= |attrs|
        invariant FirstDivClass(attrs) == FirstDivClass(attrs[k..])
      {
        assert attrs[k..][0] == attrs[k] && attrs[k..][1..] == attrs[k + 1..];
        if DivClassOf(attrs[k]).Some? {
          return DivClassOf(attrs[k]);
        }
        k := k + 1;
      }
      return None;
    }

    static method Contains(attrs: seq<Attribute>, a: Attribute) returns (found: bool)
      ensures found == (a in attrs)
    {
      var k := 0;
      while k < |attrs|
        invariant 0 <= k <= |attrs|
        invariant a !in attrs[..k]
      {
        if attrs[k] == a {
          return true;
        }
        assert attrs[..k + 1] == attrs[..k] + [attrs[k]];
        k := k + 1;
      }
      assert attrs[..k] == attrs;
      return false;
    }

    /** `handle_starttag`; when it raises nothing has changed. */
    method HandleStartTag(tag: string, attrs: seq<Attribute>) returns (r: Result<()>)
      requires Valid()
      modifies this
      ensures Valid()
      ensures r.Ok? <==> OnStartTag(old(State()), tag, attrs).Ok?
      ensures r.Ok? ==> State() == OnStartTag(old(State()), tag, attrs).value
      ensures r.Err? ==> r.error == OnStartTag(old(State()), tag, attrs).error && State() == old(State())
    {
      if tag == "img" {
        r := HandleImg(attrs);
      } else if tag == "meta" {
        r := HandleMeta(attrs);
      } else if tag == "div" {
        HandleDiv(attrs);
        r := Ok(());
      } else if tag == "span" && inRatingContainer {
        var found := Contains(attrs, RatingClass);
        if found {
          inRating := true;
        }
        r := Ok(());
      } else if tag == "a" {
        var found := Contains(attrs, TitleName);
        if found {
          inTitle := true;
        }
        r := Ok(());
      } else {
        r := Ok(());
      }
    }

    /** The `img` branch of `handle_starttag`. */
    method HandleImg(attrs: seq<Attribute>) returns (r: Result<()>)
      requires Valid()
      modifies this
      ensures Valid()
      ensures r.Ok? <==> OnImg(old(State()), attrs).Ok?
      ensures r.Ok? ==> State() == OnImg(old(State()), attrs).value
      ensures r.Err? ==> r.error == OnImg(old(State()), attrs).error && State() == old(State())
    {
      var isStill, still := ScanAttrs(attrs, StillClass, "src");
      if !isStill {
        return Ok(());
      }
      if still.None? {
        return Err(UnboundLocalError("still"));
      }
      r := SetEntry("still", AttrValue(still.value));
    }

    /** The `meta` branch of `handle_starttag`. */
    method HandleMeta(attrs: seq<Attribute>) returns (r: Result<()>)
      requires Valid()
      modifies this
      ensures Valid()
      ensures r.Ok? <==> OnMeta(old(State()), attrs).Ok?
      ensures r.Ok? ==> State() == OnMeta(old(State()), attrs).value
      ensures r.Err? ==> r.error == OnMeta(old(State()), attrs).error && State() == old(State())
    {
      var isNumber, number := ScanAttrs(attrs, EpisodeNumber, "content");
      if !isNumber {
        return Ok(());
      }
      if current.None? {
        return Err(AttributeError("current_episode"));
      }
      if number.None? {
        return Err(UnboundLocalError("episodenumber"));
      }
      episodes := episodes[number.value := current.value];
      r := Ok(());
    }

    /** The `div` branch of `handle_starttag`, which cannot raise. */
    method HandleDiv(attrs: seq<Attribute>)
      requires Valid()
      modifies this
      ensures Valid()
      ensures OnDiv(old(State()), attrs).Ok? && State() == OnDiv(old(State()), attrs).value
    {
      var c := FirstDiv(attrs);
      match c {
        case None =>
        case Some(ListItem) =>
          records := records + [map[]];
          current := Some(|records| - 1);
        case Some(Airdate) =>
          inAirdate := true;
        case Some(RatingContainer) =>
          inRatingContainer := true;
        case Some(Plot) =>
          inPlot := true;
      }
    }

    /** `handle_data`; when it raises nothing has changed. */
    method HandleData(data: string, isFloat: FloatSyntax) returns (r: Result<()>)
      requires Valid()
      modifies this
      ensures Valid()
      ensures r.Ok? <==> OnData(old(State()), data, isFloat).Ok?
      ensures r.Ok? ==> State() == OnData(old(State()), data, isFloat).value
      ensures r.Err? ==> r.error == OnData(old(State()), data, isFloat).error && State() == old(State())
    {
      if inAirdate {
        r := SetEntry("air_date", EStr(Strip(data)));
      } else if inRating {
        if !isFloat(data) {
          return Err(ValueError(data));
        }
        r := SetEntry("rating", ERating(data));
      } else if inPlot {
        r := SetEntry("plot", EStr(Strip(data)));
      } else if inTitle {
        r := SetEntry("title", EStr(data));
      } else {
        r := Ok(());
      }
    }

    /** `handle_endtag`. */
    method HandleEndTag(tag: string)
      requires Valid()
      modifies this
      ensures Valid()
      ensures State() == OnEndTag(old(State()), tag)
    {
      if tag == "div" {
        if inAirdate {
          inAirdate := false;
        } else if inRatingContainer {
          inRatingContainer := false;
        } else if inPlot {
          inPlot := false;
        }
      } else if tag == "span" && inRating {
        inRating := false;
      } else if tag == "a" && inTitle {
        inTitle := false;
      }
    }

    /** `feed` over the tokenised page: each event to its handler, in order, until one raises. */
    method FeedEvents(events: seq<Event>, isFloat: FloatSyntax) returns (r: Result<()>)
      requires Valid()
      modifies this
      ensures Valid()
      ensures r.Ok? <==> Feed(old(State()), events, isFloat).Ok?
      ensures r.Ok? ==> State() == Feed(old(State()), events, isFloat).value
      ensures r.Err? ==> r.error == Feed(old(State()), events, isFloat).error
      ensures State() == Halted(old(State()), events, isFloat)
    {
      var i := 0;
      while i < |events|
        invariant 0 <= i <= |events|
        invariant Valid()
        invariant Feed(old(State()), events, isFloat) == Feed(State(), events[i..], isFloat)
        invariant Halted(old(State()), events, isFloat) == Halted(State(), events[i..], isFloat)
      {
        assert events[i..][0] == events[i] && events[i..][1..] == events[i + 1..];
        ghost var before := State();
        FeedStep(before, events[i..], isFloat);
        HaltedStep(before, events[i..], isFloat);
        var step: Result<()>;
        match events[i] {
          case StartTag(tag, attrs) =>
            step := HandleStartTag(tag, attrs);
          case Data(d) =>
            step := HandleData(d, isFloat);
          case EndTag(tag) =>
            HandleEndTag(tag);
            step := Ok(());
        }
        if step.Err? {
          assert Step(before, events[i], isFloat) == Err(step.error);
          return Err(step.error);
        }
        assert Step(before, events[i], isFloat) == Ok(State());
        i := i + 1;
      }
      r := Ok(());
    }
  }
}
