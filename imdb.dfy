/**
 * The result handling of tvfamily/imdb.py: the `IMDBTitle` record, the end-year rule of
 * `_parse_title`, and `search` without its HTTP request (type validation, then the
 * filter over the parsed results).
 */
module Imdb {
  import opened Wrappers
  import opened Strings
  import opened Sequences

  /** The values held in an `IMDBTitle`'s attribute dictionary. */
  datatype Value = VNone | VInt(i: int) | VStr(s: string)

  /** `IMDBTitle(imdb_id, attrs)`: an id and a dictionary of attributes (`{}` when none is given). */
  datatype IMDBTitle = IMDBTitle(id: string, attrs: map<string, Value>)

  /** `IMDBTitle.__eq__`. */
  predicate SameTitle(a: IMDBTitle, b: IMDBTitle)
  {
    a.id == b.id
  }

  /** `IMDBTitle.__hash__`, over an abstract string hash. */
  function TitleHash(hash: string -> int, t: IMDBTitle): int
  {
    hash(t.id)
  }

  /**
   * Identity is the id alone: titles with the same id and any attributes are equal and hash
   * alike, and equality is an equivalence.
   */
  lemma {:induction false} IdentityIsId(hash: string -> int, id: string, attrs1: map<string, Value>, attrs2: map<string, Value>)
    ensures SameTitle(IMDBTitle(id, attrs1), IMDBTitle(id, attrs2))
    ensures TitleHash(hash, IMDBTitle(id, attrs1)) == TitleHash(hash, IMDBTitle(id, attrs2))
    ensures forall a, b, c :: SameTitle(a, b) && SameTitle(b, c) ==> SameTitle(a, c) && SameTitle(b, a)
  {
  }

  /** `title[attr]`: `KeyError` for an attribute the title does not have. */
  function Get(t: IMDBTitle, attr: string): (r: Result<Value>)
    ensures r.Ok? <==> attr in t.attrs
    ensures r.Ok? ==> r.value == t.attrs[attr]
  {
    if attr in t.attrs then Ok(t.attrs[attr]) else Err(KeyError(attr))
  }

  /** `_SEARCH_TYPES` after `'Movie'` is appended to it. */
  const SearchTypes: seq<string> :=
    ["TV Series", "Short", "TV Episode", "Video", "TV Movie", "Video Game", "TV Mini-Series", "Movie"]

  /**
   * The groups of a `_RE_TITLE` match: the title, the type, the four air-year digits and,
   * when the optional part matched, the end-year group (four digits or blanks).
   */
  datatype TitleMatch = TitleMatch(title: string, kind: string, airYear: string, endYear: Option<string>)

  predicate AllDigits(s: string)
  {
    forall i :: 0 <= i < |s| ==> IsDigit(s[i])
  }

  /** `int(s)` for the digit strings the pattern accepts; anything else raises `ValueError`. */
  function ParseInt(s: string): (r: Result<nat>)
    ensures r.Ok? <==> s != [] && AllDigits(s)
  {
    if s != [] && AllDigits(s) then Ok(DigitsValue(s)) else Err(ValueError(s))
  }

  /** The end-year rule: no group gives `None`, a blank group `0`, digits their value. */
  function EndYear(group: Option<string>): Result<Option<nat>>
  {
    if group.None? then Ok(None)
    else if Strip(group.value) == "" then Ok(Some(0))
    else
      var n :- ParseInt(group.value);
      Ok(Some(n))
  }

  /**
   * `_parse_title(data)`: the title, the air year and the end year of the first match of
   * the pattern (`search` is a parameter). Without a match `title` is never bound, so the
   * `return` raises `UnboundLocalError`.
   */
  function ParseTitle(search: string -> Option<TitleMatch>, data: string): Result<(string, nat, Option<nat>)>
  {
    var m := search(data);
    if m.None? then Err(UnboundLocalError("title"))
    else
      var air :- ParseInt(m.value.airYear);
      var end :- EndYear(m.value.endYear);
      Ok((m.value.title, air, end))
  }

  /** The end-year normalisation, for every group the pattern can produce. */
  lemma {:induction false} EndYearNormalised(group: Option<string>)
    requires group.Some? ==> Strip(group.value) == "" || (group.value != [] && AllDigits(group.value))
    ensures group.None? ==> EndYear(group) == Ok(None)
    ensures group.Some? && Strip(group.value) == "" ==> EndYear(group) == Ok(Some(0))
    ensures group.Some? && Strip(group.value) != "" ==> EndYear(group) == Ok(Some(DigitsValue(group.value)))
  {
  }

  /** A four-digit end year reads back as the number written. */
  lemma {:induction false} EndYearOfYear(year: nat)
    requires 1000 <= year <= 9999
    ensures EndYear(Some(NatToString(year))) == Ok(Some(year))
  {
    var s := NatToString(year);
    DigitsValueOfNatToString(year);
    assert s != [] && !IsSpace(s[0]) && !IsSpace(s[|s| - 1]);
    assert StripLeft(s) == s;
    assert Strip(s) == s;
  }

  /** A match has its title and years; no match raises. */
  lemma {:induction false} ParseTitleCases(search: string -> Option<TitleMatch>, data: string)
    ensures search(data).None? ==> ParseTitle(search, data) == Err(UnboundLocalError("title"))
    ensures search(data).Some? && ParseTitle(search, data).Ok? ==>
      ParseTitle(search, data).value.0 == search(data).value.title &&
      Ok(ParseTitle(search, data).value.2) == EndYear(search(data).value.endYear)
  {
  }

  /** The first requested type that is not a search type raises `ValueError`. */
  function Validate(types: seq<string>): (r: Result<()>)
    ensures r.Ok? <==> forall k :: 0 <= k < |types| ==> types[k] in SearchTypes
    ensures r.Err? ==> (exists k :: 0 <= k < |types| && types[k] !in SearchTypes &&
                                    r.error == ValueError("wrong type '" + types[k] + "'"))
  {
    if types == [] then Ok(())
    else if types[0] !in SearchTypes then Err(ValueError("wrong type '" + types[0] + "'"))
    else
      var r := Validate(types[1..]);
      assert r.Err? ==> exists k :: 0 <= k < |types[1..]| && types[1..][k] !in SearchTypes &&
                                    r.error == ValueError("wrong type '" + types[1..][k] + "'");
      assert forall k :: 1 <= k < |types| ==> types[k] == types[1..][k - 1];
      r
  }

  /** The validation loop of `search`. */
  method ValidateTypes(types: seq<string>) returns (r: Result<()>)
    ensures r == Validate(types)
  {
    var i := 0;
    while i < |types|
      invariant 0 <= i <= |types|
      invariant Validate(types) == Validate(types[i..])
    {
      assert types[i..][0] == types[i] && types[i..][1..] == types[i + 1..];
      if types[i] !in SearchTypes {
        return Err(ValueError("wrong type '" + types[i] + "'"));
      }
      i := i + 1;
    }
    return Ok(());
  }

  /** The condition of the final comprehension; a missing attribute raises `KeyError`. */
  function Accepts(a: IMDBTitle, types: seq<string>, year: Option<int>): Result<bool>
  {
    var kind :- Get(a, "type");
    if !(kind.VStr? && kind.s in types) then Ok(false)
    else if year.None? then Ok(true)
    else
      var y :- Get(a, "year");
      Ok(y == VInt(year.value) || y == VInt(year.value - 1))
  }

  /** The final comprehension of `search` over the parsed results. */
  function SearchFilter(results: seq<IMDBTitle>, types: seq<string>, year: Option<int>): Result<seq<IMDBTitle>>
  {
    if results == [] then Ok([])
    else
      var keep :- Accepts(results[0], types, year);
      var rest :- SearchFilter(results[1..], types, year);
      Ok((if keep then [results[0]] else []) + rest)
  }

  /** A parser result: it has a type and a year. */
  predicate Parsed(a: IMDBTitle)
  {
    "type" in a.attrs && "year" in a.attrs
  }

  /** The acceptance rule for a parser result. */
  predicate Wanted(a: IMDBTitle, types: seq<string>, year: Option<int>)
    requires Parsed(a)
  {
    && a.attrs["type"].VStr? && a.attrs["type"].s in types
    && (year.None? || a.attrs["year"] == VInt(year.value) || a.attrs["year"] == VInt(year.value - 1))
  }

  /**
   * The filter over parser results is the order-preserving selection of the wanted results:
   * the type is requested and, when a year is given, the year is that one or the one before.
   */
  lemma {:induction false} SearchFilterSelects(results: seq<IMDBTitle>, types: seq<string>, year: Option<int>)
    requires forall k :: 0 <= k < |results| ==> Parsed(results[k])
    ensures SearchFilter(results, types, year).Ok?
    ensures SearchFilter(results, types, year).value
         == Keep(results, (a: IMDBTitle) => Parsed(a) && Wanted(a, types, year))
  {
    if results != [] {
      SearchFilterSelects(results[1..], types, year);
    }
  }

  /** What the kept results are: a subsequence of the parser results, each of a requested type and year. */
  lemma {:induction false} SearchFilterKeeps(results: seq<IMDBTitle>, types: seq<string>, year: Option<int>)
    requires forall k :: 0 <= k < |results| ==> Parsed(results[k])
    ensures SearchFilter(results, types, year).Ok?
    ensures IsSubsequence(SearchFilter(results, types, year).value, results)
    ensures forall a :: a in SearchFilter(results, types, year).value ==>
      a in results && Parsed(a) && a.attrs["type"].VStr? && a.attrs["type"].s in types &&
      (year.Some? ==> a.attrs["year"] == VInt(year.value) || a.attrs["year"] == VInt(year.value - 1))
  {
    SearchFilterSelects(results, types, year);
    var p := (a: IMDBTitle) => Parsed(a) && Wanted(a, types, year);
    KeepIsSubsequence(results, p);
    forall a | a in SearchFilter(results, types, year).value ensures a in results && p(a) {
      KeepMembership(results, p, a);
    }
  }

  /**
   * `search(title, title_types, year)` with the request and its parsing as a parameter
   * (`fetch`, which returns the parser results or raises): the types are validated before
   * the request.
   */
  function SearchSpec(fetch: string -> Result<seq<IMDBTitle>>, title: string, types: seq<string>, year: Option<int>)
    : Result<seq<IMDBTitle>>
  {
    var _ :- Validate(types);
    var results :- fetch(title);
    SearchFilter(results, types, year)
  }

  method Search(fetch: string -> Result<seq<IMDBTitle>>, title: string, types: seq<string>, year: Option<int>)
    returns (r: Result<seq<IMDBTitle>>)
    ensures r == SearchSpec(fetch, title, types, year)
  {
    var valid := ValidateTypes(types);
    if valid.Err? {
      return Err(valid.error);
    }
    var results :- fetch(title);
    r := SearchFilter(results, types, year);
  }

  /** An invalid type raises whatever the site would answer: the request is never needed. */
  lemma {:induction false} InvalidTypeBeforeRequest(fetch1: string -> Result<seq<IMDBTitle>>, fetch2: string -> Result<seq<IMDBTitle>>,
                                 title: string, types: seq<string>, year: Option<int>)
    requires exists k :: 0 <= k < |types| && types[k] !in SearchTypes
    ensures SearchSpec(fetch1, title, types, year).Err?
    ensures SearchSpec(fetch1, title, types, year) == SearchSpec(fetch2, title, types, year)
  {
  }

  /**
   * `search` accepts exactly the types its documentation lists: the seven explicit types of
   * the type pattern and `'Movie'`, appended after the pattern is built.
   */
  lemma {:induction false} DocumentedTypesAccepted(types: seq<string>)
    ensures Validate(types).Ok? <==>
      forall k :: 0 <= k < |types| ==>
        types[k] in ["Movie", "TV Series", "Video", "Short", "TV Mini-Series", "TV Movie", "TV Episode", "Video Game"]
  {
    var documented := ["Movie", "TV Series", "Video", "Short", "TV Mini-Series", "TV Movie", "TV Episode", "Video Game"];
    assert forall t :: t in SearchTypes <==> t in documented;
  }
}
