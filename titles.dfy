/**
 * The title entities of tvfamily/core.py: `Category` and its key, `Title` with its
 * movie / TV series dispatch, the media a torrent designates (`Movie.get_media`,
 * `TVSerie.get_media`), and media equality (`Title.__eq__`, `Episode.__eq__`).
 */
module Titles {
  import opened Wrappers
  import opened Strings
  import opened Torrents
  import opened Imdb

  /** `Category(name, imdb_type)`: a name shown to users and the IMDB types searched for it. */
  datatype Category = Category(name: string, imdbTypes: seq<string>)

  /** The suffix of `s` after its leading characters that are not ASCII letters. */
  function SkipNonLetters(s: string): (r: string)
    ensures |r| <= |s|
    ensures forall i :: 0 <= i < |r| ==> r[i] == s[|s| - |r| + i]
    ensures r == [] || IsAsciiLetter(r[0])
  {
    if s != [] && !IsAsciiLetter(s[0]) then SkipNonLetters(s[1..]) else s
  }

  /** `re.sub('[^a-zA-Z]+', '_', s)`: every maximal run of non-letters becomes one `_`. */
  function Squash(s: string): (r: string)
    decreases |s|
  {
    if s == [] then []
    else if IsAsciiLetter(s[0]) then [s[0]] + Squash(s[1..])
    else "_" + Squash(SkipNonLetters(s[1..]))
  }

  /** `Category.get_id`: the lowercased name with each run of non-letters replaced by `_`. */
  function CategoryKey(name: string): string
  {
    Squash(Lower(name))
  }

  predicate KeyChar(c: char)
  {
    IsAsciiLower(c) || c == '_'
  }

  /** A string of lowercase letters and `_` without two `_` in a row. */
  ghost predicate IsKey(k: string)
  {
    && (forall i :: 0 <= i < |k| ==> KeyChar(k[i]))
    && (forall i :: 0 <= i < |k| - 1 ==> !(k[i] == '_' && k[i + 1] == '_'))
  }

  lemma {:induction false} SquashIsKey(s: string)
    requires forall i :: 0 <= i < |s| ==> IsAsciiLetter(s[i]) ==> IsAsciiLower(s[i])
    ensures IsKey(Squash(s))
    ensures Squash(s) == [] || s[0] == Squash(s)[0] || (Squash(s)[0] == '_' && !IsAsciiLetter(s[0]))
    decreases |s|
  {
    if s != [] {
      if IsAsciiLetter(s[0]) {
        SquashIsKey(s[1..]);
      } else {
        var t := SkipNonLetters(s[1..]);
        assert forall i :: 0 <= i < |t| ==> t[i] == s[|s| - |t| + i];
        SquashIsKey(t);
        var r := Squash(t);
        assert r == [] || IsAsciiLetter(r[0]);
      }
    }
  }

  /** The key is made of lowercase ASCII letters and `_`, never two `_` in a row. */
  lemma {:induction false} CategoryKeyIsKey(name: string)
    ensures IsKey(CategoryKey(name))
  {
    SquashIsKey(Lower(name));
  }

  lemma {:induction false} SquashOfKey(k: string)
    requires IsKey(k)
    ensures Squash(k) == k
  {
    if k != [] {
      assert IsKey(k[1..]);
      if !IsAsciiLetter(k[0]) {
        if k[1..] != [] {
          assert k[1] != '_';
        }
        assert SkipNonLetters(k[1..]) == k[1..];
      }
      SquashOfKey(k[1..]);
    }
  }

  lemma {:induction false} LowerOfKey(k: string)
    requires IsKey(k)
    ensures Lower(k) == k
  {
  }

  /** The key of a key is itself. */
  lemma {:induction false} CategoryKeyIdempotent(name: string)
    ensures CategoryKey(CategoryKey(name)) == CategoryKey(name)
  {
    var k := CategoryKey(name);
    CategoryKeyIsKey(name);
    LowerOfKey(k);
    SquashOfKey(k);
  }

  lemma {:induction false} SquashWord(w: string)
    requires forall i :: 0 <= i < |w| ==> IsAsciiLetter(w[i])
    ensures Squash(w) == w
  {
    if w != [] {
      SquashWord(w[1..]);
    }
  }

  /** The key of the default movie category. */
  lemma {:induction false} MoviesKey()
    ensures CategoryKey("Movies") == "movies"
  {
    var l := Lower("Movies");
    assert l[0] == LowerChar('M') == 'm';
    assert l[1..] == "ovies";
    assert l == "movies";
    SquashWord("movies");
  }

  lemma {:induction false} LowerTVSeries()
    ensures Lower("TV Series") == "tv series"
  {
    var s, t := "TV Series", "tv series";
    assert s[0] == 'T' && s[1] == 'V' && s[2] == ' ' && s[3] == 'S' && s[4] == 'e';
    assert s[5] == 'r' && s[6] == 'i' && s[7] == 'e' && s[8] == 's';
    LowerSpelled(s, t);
  }

  /** A string lowers to `t` when it is as long and each of its characters lowers to the one of `t`. */
  lemma {:induction false} LowerSpelled(s: string, t: string)
    requires |s| == |t| && forall i :: 0 <= i < |s| ==> LowerChar(s[i]) == t[i]
    ensures Lower(s) == t
  {
    var l := Lower(s);
    assert forall i :: 0 <= i < |s| ==> l[i] == t[i];
  }

  lemma {:induction false} SquashLetter(c: char, v: string)
    requires IsAsciiLetter(c)
    ensures Squash([c] + v) == [c] + Squash(v)
  {
    assert ([c] + v)[1..] == v;
  }

  lemma {:induction false} SquashSpace(v: string)
    requires forall i :: 0 <= i < |v| ==> IsAsciiLetter(v[i])
    ensures Squash([' '] + v) == ['_'] + v
  {
    assert ([' '] + v)[1..] == v;
    assert SkipNonLetters(v) == v;
    SquashWord(v);
  }

  /** `tv`, a space and a word of letters squash to `tv_` and the word. */
  lemma {:induction false} SquashTVWord(v: string)
    requires forall i :: 0 <= i < |v| ==> IsAsciiLetter(v[i])
    ensures Squash(['t'] + (['v'] + ([' '] + v))) == ['t'] + (['v'] + (['_'] + v))
  {
    SquashSpace(v);
    SquashLetter('v', [' '] + v);
    SquashLetter('t', ['v'] + ([' '] + v));
  }

  lemma {:induction false} SeriesSpelled()
    ensures forall i :: 0 <= i < |"series"| ==> IsAsciiLetter("series"[i])
    ensures ['t'] + (['v'] + ([' '] + "series")) == "tv series"
    ensures ['t'] + (['v'] + (['_'] + "series")) == "tv_series"
  {
  }

  lemma {:induction false} SquashTVSeries()
    ensures Squash("tv series") == "tv_series"
  {
    SeriesSpelled();
    SquashTVWord("series");
  }

  /** The key of the default series category. */
  lemma {:induction false} TVSeriesKey()
    ensures CategoryKey("TV Series") == "tv_series"
  {
    LowerTVSeries();
    SquashTVSeries();
  }

  /** Which of `Movie` and `TVSerie` a title is. */
  datatype Kind = MovieKind | TVSerieKind

  /** `Title(imdb_title)` with the kind it dispatches to. */
  datatype Title = Title(imdb: IMDBTitle, kind: Kind)

  /** `Movie.TYPES`. */
  const MovieTypes: seq<string> := ["Movie"]

  /**
   * `Title(imdb_title)`: a title whose type is one of `Movie.TYPES` is a movie, any other
   * type a TV series; a title without a type raises `KeyError`.
   */
  function NewTitle(imdb: IMDBTitle): (r: Result<Title>)
    ensures r.Err? <==> "type" !in imdb.attrs
    ensures r.Ok? ==> r.value.imdb == imdb
    ensures r.Ok? ==> (r.value.kind == MovieKind <==> imdb.attrs["type"] == VStr("Movie"))
  {
    var kind :- Get(imdb, "type");
    Ok(Title(imdb, if kind.VStr? && kind.s in MovieTypes then MovieKind else TVSerieKind))
  }

  /** `Title.__eq__`. */
  predicate SameTitleOf(a: Title, b: Title)
  {
    SameTitle(a.imdb, b.imdb)
  }

  /** What a torrent designates: the movie title itself, or an episode of a series. */
  datatype Media = TitleMedia(title: Title) | Episode(title: Title, season: int, episode: int)

  /**
   * `Title.get_media(torrent)`: a movie is its own media; a series gives the episode of the
   * torrent's season and episode, or `None` when the name gives no season or no episode.
   */
  function GetMedia(t: Title, info: NameInfo): (m: Option<Media>)
    ensures t.kind == MovieKind ==> m == Some(TitleMedia(t))
    ensures t.kind == TVSerieKind ==> (m.Some? <==> info.season.Some? && info.episode.Some?)
    ensures t.kind == TVSerieKind && m.Some? ==> m.value == Episode(t, info.season.value, info.episode.value)
  {
    match t.kind
    case MovieKind => Some(TitleMedia(t))
    case TVSerieKind =>
      if info.season.Some? && info.episode.Some? then Some(Episode(t, info.season.value, info.episode.value))
      else None
  }

  /** What media equality and hashing look at. */
  datatype MediaKey = TitleKey(id: string) | EpisodeKey(id: string, season: int, episode: int)

  function Key(m: Media): MediaKey
  {
    match m
    case TitleMedia(t) => TitleKey(t.imdb.id)
    case Episode(t, s, e) => EpisodeKey(t.imdb.id, s, e)
  }

  /** Python equality of two medias, as the set in `get_medias_from_torrents` applies it. */
  predicate SameMedia(a: Media, b: Media)
  {
    Key(a) == Key(b)
  }

  /**
   * Two episodes are equal exactly when their titles are equal (same IMDB id, whatever
   * their attributes) and their season and episode numbers are equal; two movie medias
   * exactly when their titles are.
   */
  lemma {:induction false} MediaEquality(a: Media, b: Media)
    ensures a.Episode? && b.Episode? ==>
      (SameMedia(a, b) <==> SameTitleOf(a.title, b.title) && a.season == b.season && a.episode == b.episode)
    ensures a.TitleMedia? && b.TitleMedia? ==> (SameMedia(a, b) <==> SameTitleOf(a.title, b.title))
  {
  }

  /** Equality ignores everything but the id: the same episode of a re-read title is the same media. */
  lemma {:induction false} EpisodeIgnoresAttributes(id: string, attrs1: map<string, Value>, attrs2: map<string, Value>,
                                 k1: Kind, k2: Kind, s: int, e: int)
    ensures SameMedia(Episode(Title(IMDBTitle(id, attrs1), k1), s, e), Episode(Title(IMDBTitle(id, attrs2), k2), s, e))
  {
  }
}
