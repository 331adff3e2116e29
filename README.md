# tvfamily core, modelled in Dafny

This project models the core of tvfamily, a small media server.

- **Torrent engine.** Torrent-search plugins live in a plugins directory. Before each operation the engine reloads its plugin registry from that directory by a merge-diff walk. It asks every plugin for the top torrents of a category, keeps a snapshot of them, and then filters the snapshot by quality, codec, resolution and 3-D and ranks it by seeders.
- **Titles database.** It resolves a torrent's parsed name to an IMDB id through a lazily loaded key-to-id cache. It turns the resolved titles into medias (movies or episodes) without duplicates.
- **IMDB client.** It parses search-result pages and season pages as streams of HTML events. It validates the requested title types and filters the search results by type and year.
- **The rest.**
  - the `Torrent` record and its dictionary form;
  - the category key;
  - the fixed-cadence task scheduler;
  - the profile store;
  - the byte-range arithmetic of the video handler.

Each entity of the source keeps its form:
- State the source changes in place is a `class` whose methods are proved against a pure state-transition function. The classes are `TorrentEngine`, `TitlesDB`, `SearchParser`, `SeasonParser`, `TaskScheduler` and `ProfilesManager`.
- Values are datatypes, and pure code is functions.
- Python exceptions are the `Err` side of a `Result`, with the exception class and its argument.

Everything the core calls but does not define is a function-typed parameter:
- the directory listing;
- the plugins' `top`;
- the torrent-name parser `PTN.parse`;
- the filter regular expressions and the IMDB year and type patterns;
- the IMDB search request and title fetch;
- `float()` syntax;
- the picture decoder;
- Tornado's `Range` header parser.

Loading a plugin module is the allocation of a fresh handle id. The JSON files are their decoded contents: snapshot dictionaries, the torrent-to-IMDB map, the title files and the stored profiles.

Files, by module:
- `wrappers.dfy` (`Wrappers`): Option, Result and the exceptions.
- `strings.dfy` (`Strings`): Python string order, ASCII `lower()`, `split`, `strip`, decimal digits, sorting.
- `sequences.dfy` (`Sequences`): order-preserving selection and subsequences.
- `torrent.dfy` (`Torrents`), `torrentfilter.dfy` (`TorrentFilter`), `ranking.dfy` (`Ranking`).
- `plugins.dfy` (`Plugins`): the reload walk.
- `torrentengine.dfy` (`Engine`).
- `titles.dfy` (`Titles`), `titlesdb.dfy` (`TitlesDatabase`).
- `imdb.dfy` (`Imdb`), `html.dfy` (`Html`), `searchparser.dfy` (`SearchParsing`), `seasonparser.dfy` (`SeasonParsing`).
- `scheduler.dfy` (`Scheduling`), `profiles.dfy` (`Profiles`), `videorange.dfy` (`VideoRange`).

Two behaviours of the code are easy to misread; the model keeps them as written:
- A title search that finds nothing is not remembered. The key-to-id map is left unchanged, so the next lookup searches again.
- When the plugins path option is missing or the directory cannot be listed, the registry is replaced by the empty list built so far. It does not keep the previous handles.

## Model

| member | source | states |
|---|---|---|
| Torrents.NewTorrent | tvfamily/torrent.py:38-44 | the constructor stores the five fields as given, and `name_info` is the parse of the name |
| Torrents.NewTorrentDefaults | tvfamily/torrent.py:38 | by default `magnet` is None, `size` is 0, and `seeders` and `leechers` are 0 |
| Torrents.ToDict | tvfamily/torrent.py:46-49 | `todict` has exactly the keys name, magnet, size, seeders and leechers, each holding the current field value |
| Torrents.FromDict | tvfamily/torrent.py:38-44 | `Torrent(**d)` fails without `name` or with an unknown key; on success `name_info` is recomputed from the name |
| Torrents.RoundTrip | tvfamily/torrent.py:38-49 | `Torrent(**t.todict())` equals `t` in all five fields and in `name_info` |
| Torrents.ToDicts | tvfamily/core.py:889-890 | the snapshot written is one dictionary per torrent, in order |
| Torrents.FromDicts | tvfamily/core.py:829-830 | reading a snapshot back gives one torrent per dictionary |
| Torrents.SnapshotRoundTrip | tvfamily/core.py:829-830 | a snapshot read back gives the same torrents in the same order |
| TorrentFilter.FilterAttr | tvfamily/core.py:861-873 | the reference for `_filter_from_attr`; its contract is stated by `FilterAttrIsSelection` (on success, the torrents kept are those whose attribute an accepted value matches, in their order), `FilterAttrKnownValuesOk` and `KnownValuesNeverRaise` |
| TorrentFilter.Filter | tvfamily/core.py:844-859 | the reference for `_filter`; its contract is stated by `FilterNoneIsIdentity`, `FilterIsConjunction` and `FilterIsKeep` (a torrent is kept exactly when it passes all four components, order kept) and `FilterKnownValuesOk` |
| TorrentFilter.FilterFromAttr | tvfamily/core.py:861-873 | the nested loops of `_filter_from_attr` give exactly the attribute filter, including the `KeyError` for a filter value missing from the table |
| TorrentFilter.ScanAccepted | tvfamily/core.py:868-872 | the inner loop over the filter values gives the acceptance function: an empty list rejects, an absent attribute accepts at once, and otherwise the values are tried in order until one matches or one missing from the table raises `KeyError` |
| TorrentFilter.FilterTorrents | tvfamily/core.py:844-859 | `_filter` chains the quality, codec and resolution filters and then the 3-D comprehension, exactly as the filter function specifies |
| TorrentFilter.AcceptsFromMeansPasses | tvfamily/core.py:866-872 | when it does not raise, a torrent is accepted iff its attribute is absent or some accepted value's pattern matches it |
| TorrentFilter.KnownValuesNeverRaise | tvfamily/core.py:781-810 | filter values taken from the table never raise `KeyError` |
| TorrentFilter.FilterAttrIsSelection | tvfamily/core.py:861-873 | an attribute filter keeps, in order, exactly the torrents that pass it; an empty value list rejects every torrent |
| TorrentFilter.FilterAttrKnownValuesOk | tvfamily/core.py:861-873 | an attribute filter whose values are all in the table does not raise |
| TorrentFilter.FilterNoneIsIdentity | tvfamily/core.py:846-847 | `_filter(ts, None)` returns `ts` unchanged |
| TorrentFilter.FilterIsConjunction | tvfamily/core.py:844-859 | the result is the order-preserving subsequence of the torrents that pass every non-None component; with a 3-D list lacking `'3D'`, exactly the 3-D torrents fail |
| TorrentFilter.FilterIsKeep | tvfamily/core.py:844-859 | a filter that does not raise keeps exactly the torrents that pass every component, in order |
| TorrentFilter.FilterKnownValuesOk | tvfamily/core.py:781-810 | filtering with table values only never raises |
| Ranking.SortBySeeders | tvfamily/core.py:834-835 | the model of `sorted(..., key=seeders, reverse=True)`; its contract is stated by `SortBySeedersSorted` (a permutation with seeders non-increasing) and `SortBySeedersStable` (equal seeders keep their order) |
| Ranking.SortBySeedersSorted | tvfamily/core.py:834-835 | the ranking is a permutation of its input with seeders non-increasing |
| Ranking.SortBySeedersStable | tvfamily/core.py:834-835 | torrents with equal seeders keep their input order, because the sort is stable |
| Plugins.PluginFiles | tvfamily/core.py:904-905 | the plugin files are the listing entries ending in `.py` that do not start with `~` |
| Plugins.Basename | tvfamily/core.py:911 | the name of a `.py` file with `.py` removed |
| Plugins.Walk | tvfamily/core.py:909-928 | the merge-diff walk of the reload; its contract is stated by `WalkMerges`, `WalkOkIffBelowSentinel`, `WalkAtShape` and `WalkAtCrashes` |
| Plugins.BasenamesAsWritten | tvfamily/core.py:904-911 | the basenames of the file names sorted as file names; `FileOrderIsNotNameOrder` shows they need not be in name order |
| Plugins.WalkMerges | tvfamily/core.py:909-928 | walking sorted names below the `~` sentinel keeps every loaded handle whose name is still present (the same handle), loads fresh handles for new names, drops vanished names, and yields exactly those names in order |
| Plugins.WalkOkIffBelowSentinel | tvfamily/core.py:908-916 | the walk succeeds iff every name sorts below the sentinel; otherwise the handle-name index runs past the sentinel and raises `IndexError` |
| Plugins.WalkAtCrashes | tvfamily/core.py:910-928 | a name not below the sentinel makes the walk raise, from any point of the walk |
| Plugins.FileOrderIsNotNameOrder | tvfamily/core.py:904-916 | sorting full file names puts `a-b.py` before `a.py`, so the walk reloads a still-present plugin `a` under a fresh id |
| Plugins.WalkAtShape | tvfamily/core.py:909-928 | in whatever order the basenames come, a walk that returns lists them all in that order, each as a loaded handle or a new one with an id allocated from the counter on |
| Plugins.SortedBasenamesSorted | tvfamily/core.py:904-911 | the basenames sorted as names are strictly sorted, and they are exactly the basenames of the plugin files |
| Engine.Reload | tvfamily/core.py:894-935 | the reload with the basenames walked in name order; its contract is stated by `ReloadDiff`, `ReloadKeepsRegistry`, `ReloadFailureEmpties` and `ReloadCrashes` |
| Engine.ReloadAsWritten | tvfamily/core.py:894-935 | the reload walking the basenames as the code orders them; its contract is stated by `ReloadAsWrittenShape` and `ReloadAsWrittenCrashes` |
| Engine.ReloadDiff | tvfamily/core.py:894-935 | with the basenames walked in name order, after a reload the registry names are the sorted plugin basenames, a handle whose file remains is kept unchanged, every other handle is a fresh load, and the registry invariant holds again |
| Engine.ReloadKeepsRegistry | tvfamily/core.py:894-935 | with the basenames walked in name order, a reload of a good listing succeeds and keeps the registry invariant |
| Engine.ReloadFailureEmpties | tvfamily/core.py:898-935 | a missing plugins path option (`KeyError`) or an unreadable directory (`IOError`) replaces the registry with the empty list |
| Engine.ReloadCrashes | tvfamily/core.py:908-916 | with the basenames walked in name order, a plugin basename not below the sentinel makes the reload raise |
| Engine.ReloadAsWrittenShape | tvfamily/core.py:894-935 | the reload as written, walking the basenames of the sorted file names, returns one handle per plugin file in that order, each a loaded handle or a fresh load, and an empty registry without a listing |
| Engine.ReloadAsWrittenCrashes | tvfamily/core.py:908-916 | as written too, a plugin basename not below the sentinel makes the reload raise |
| Engine.Wrapped | tvfamily/core.py:937-947 | the wrapper returns the plugin's result, or None when the plugin raised |
| Engine.Results | tvfamily/core.py:879-883 | one wrapped result per plugin, in plugin order |
| Engine.FanOutMembership | tvfamily/core.py:879-886 | a torrent is in the fan-out iff some plugin returned it without raising |
| Engine.FailedPluginContributesNothing | tvfamily/core.py:937-947 | removing a plugin that raises leaves the fan-out unchanged |
| Engine.TopRanks | tvfamily/core.py:821-835 | `top` is a permutation of the filtered snapshot with seeders non-increasing, equal-seeder torrents keep their order, and the filtered list is a subsequence of the snapshot |
| Engine.SnapshotReadBack | tvfamily/core.py:829-830 | a snapshot written under a category's key reads back as the same torrents |
| Engine.TorrentEngine.constructor | tvfamily/core.py:812-819 | a new engine has no plugins and the given snapshots |
| Engine.TorrentEngine.ReloadPlugins | tvfamily/core.py:894-935 | with the basenames walked in name order, `_reload_plugins` assigns the reload's registry; if the walk raises, the registry is left as it was; a good listing keeps the invariant |
| Engine.TorrentEngine.FetchTop | tvfamily/core.py:875-892 | `fetch_top` reloads (in name order), returns the fan-out, and writes the snapshot only when the result is non-empty |
| Engine.TorrentEngine.FlattenResults | tvfamily/core.py:882-885 | the flattening loop concatenates the results in plugin order, skipping the plugins that raised |
| Engine.TorrentEngine.WalkNames | tvfamily/core.py:909-928 | the `while` loop over the sorted basenames and the sentinel-terminated loaded names gives the merge walk |
| Engine.TorrentEngine.Top | tvfamily/core.py:821-835 | `top` reads the snapshot of the category, filters it and ranks it |
| Titles.CategoryKey | tvfamily/core.py:340-351 | the key of a category name; its contract is stated by `CategoryKeyIsKey`, `CategoryKeyIdempotent`, `MoviesKey` and `TVSeriesKey` |
| Titles.CategoryKeyIsKey | tvfamily/core.py:348-351 | a category key holds only lowercase ASCII letters and `_`, with no two `_` adjacent |
| Titles.CategoryKeyIdempotent | tvfamily/core.py:348-351 | the key of a key is the key itself |
| Titles.SquashIsKey | tvfamily/core.py:340 | replacing each run of non-letters by one `_` in a lowercased name yields a key |
| Titles.SquashOfKey | tvfamily/core.py:340 | replacing non-letter runs leaves a key unchanged |
| Titles.MoviesKey | tvfamily/core.py:348-351 | the key of `Movies` is `movies` |
| Titles.TVSeriesKey | tvfamily/core.py:348-351 | the key of `TV Series` is `tv_series` |
| Titles.NewTitle | tvfamily/core.py:612-617 | a title is a movie iff its IMDB type is `Movie` and a TV series otherwise; a title without a type raises `KeyError` |
| Titles.GetMedia | tvfamily/core.py:640-642 | a movie's media is the movie; a series gives an episode iff the torrent name has both a season and an episode |
| Titles.MediaEquality | tvfamily/core.py:619-626 | episodes are equal iff their titles are equal and the season and episode numbers agree; movies are equal iff their titles are |
| Titles.EpisodeIgnoresAttributes | tvfamily/core.py:717-725 | episode equality ignores every title attribute except the IMDB id |
| TitlesDatabase.TorrentKey | tvfamily/core.py:491-497 | the cache key of a parsed torrent name; its contract is stated by `TorrentKeyIgnoresCase`, `TorrentKeySeparatesYears` and `TorrentKeyAmbiguous` |
| TitlesDatabase.TorrentKeyIgnoresCase | tvfamily/core.py:491-497 | the key is the lowercased title, so names differing only in case share a key |
| TitlesDatabase.TorrentKeySeparatesYears | tvfamily/core.py:491-497 | the same title with different years gives different keys |
| TitlesDatabase.TorrentKeyAmbiguous | tvfamily/core.py:491-497 | a yearless title ending in `.YEAR` shares the key of that title with that year |
| TitlesDatabase.Lookup | tvfamily/core.py:480-489 | a lookup returns the stored id, or raises `KeyError` for an absent key |
| TitlesDatabase.TitleFromFiles | tvfamily/core.py:505-510 | a cached title is built from its title file's attributes; a missing file or type raises `KeyError` |
| TitlesDatabase.CachedTitle | tvfamily/core.py:402-410 | a torrent has a cached title iff its key is in the map and the id's title file exists with a type |
| TitlesDatabase.Resolve | tvfamily/core.py:426-445 | one title lookup through the cache; its contract is stated by `ResolveHitNoSearch`, `ResolveMissRecords`, `ResolveMissKeeps` and `ResolveExtends` |
| TitlesDatabase.ResolveHitNoSearch | tvfamily/core.py:426-431 | on a cache hit no search is issued: any two search functions give the same outcome, a bare title with the stored id |
| TitlesDatabase.ResolveMissRecords | tvfamily/core.py:432-438 | on a miss with results the first result is returned and stored under the key, so the next lookup hits without searching |
| TitlesDatabase.ResolveMissKeeps | tvfamily/core.py:432-445 | on a miss with no result, or a failing search, the map is unchanged and the result is None or the error |
| TitlesDatabase.ResolveExtends | tvfamily/core.py:426-445 | resolution never removes or changes a stored key, and a found title is stored under its key |
| TitlesDatabase.ResolveAll | tvfamily/core.py:412-418 | one outcome per torrent; every torrent is resolved even after one raises, and the batch reports the first exception in list order |
| TitlesDatabase.ResolveAllCaches | tvfamily/core.py:412-418 | resolving many torrents only adds keys, and without an exception each found title is stored under its torrent's key |
| TitlesDatabase.ResolveAllKeeps | tvfamily/core.py:412-445 | a batch never removes or changes a cached key, whatever exceptions its searches raise |
| TitlesDatabase.ResolveAllStores | tvfamily/core.py:412-438 | after a batch without exceptions, each torrent that found a title has its id cached under the torrent's key |
| TitlesDatabase.ErrorDoesNotStopBatch | tvfamily/core.py:412-438 | when the first torrent's search raises, the batch raises that exception and the cache ends as the other torrents' searches leave it |
| TitlesDatabase.TitleIds | tvfamily/core.py:418-424 | one id per title, in order |
| TitlesDatabase.FirstTitle | tvfamily/core.py:418 | the title kept for an id has that id |
| TitlesDatabase.FoundTitles | tvfamily/core.py:418 | the titles fetched leave out None and the ids already seen, and no two share an id |
| TitlesDatabase.FoundTitlesFirst | tvfamily/core.py:418 | each title fetched is the first found title with its id, the one a set keeps among equal titles |
| TitlesDatabase.FoundTitlesCover | tvfamily/core.py:418 | every found title's id not already seen is fetched |
| TitlesDatabase.FetchAll | tvfamily/core.py:419-424 | fetching succeeds iff every title's page fetch does |
| TitlesDatabase.FetchAllKeys | tvfamily/core.py:422-424 | the title files written are exactly those of the fetched titles' ids |
| TitlesDatabase.FetchAllSaves | tvfamily/core.py:454-463 | each title file holds the search result's attributes updated with its page, the page winning on shared keys (`self._attrs.update`, tvfamily/imdb.py:404) |
| TitlesDatabase.CachedAfterSave | tvfamily/core.py:402-410 | a key stored for an id whose file was just written has a cached title iff that file has a type |
| TitlesDatabase.FetchedTitlesAreCached | tvfamily/core.py:402-424 | after fetching, every found title's file holds its first search result's attributes updated with its page, and the cached lookup returns a title iff that file has a type, which it has whenever the search result did |
| TitlesDatabase.Present | tvfamily/core.py:388-389 | removing None keeps exactly the present titles |
| TitlesDatabase.CachedTitles | tvfamily/core.py:386-387 | one cached lookup per torrent, in order |
| TitlesDatabase.ZipMedias | tvfamily/core.py:390-391 | the zip stops at the shorter list and pairs title `i` with torrent `i` |
| TitlesDatabase.ZipMisaligns | tvfamily/core.py:388-391 | the zip pairs filtered titles with unfiltered torrents: a title found only for the second torrent takes the first torrent's season and episode |
| TitlesDatabase.PairedMediasOwnTorrent | tvfamily/core.py:386-391 | with each torrent paired with its own cached title, a media's title is that torrent's title and an episode's season and episode are that torrent's |
| TitlesDatabase.PairedMediasExample | tvfamily/core.py:386-391 | on the torrents of `ZipMisaligns`, the pairing by torrent gives no media for the first torrent and the second torrent's episode 2x5 |
| TitlesDatabase.MediasAgreeWhenAllCached | tvfamily/core.py:386-391 | when every torrent has a cached title, the zip as written and the pairing by torrent give the same medias |
| TitlesDatabase.FirstsProperties | tvfamily/core.py:392-400 | the medias have no None and no duplicate, and each appears at its first occurrence, in order |
| TitlesDatabase.TitlesDB.constructor | tvfamily/core.py:364-368 | a new database has not yet loaded its map |
| TitlesDatabase.TitlesDB.LoadTorrentsToImdb | tvfamily/core.py:465-473 | the map is loaded from the cache file, or is empty when the file is absent |
| TitlesDatabase.TitlesDB.GetImdbIdFromTorrent | tvfamily/core.py:480-489 | loads the map lazily and looks the torrent's key up |
| TitlesDatabase.TitlesDB.SetImdbIdFromTorrent | tvfamily/core.py:499-503 | stores the id under the key and saves the map; raises before the map has been loaded |
| TitlesDatabase.TitlesDB.GetTitleFromTorrentCached | tvfamily/core.py:402-410 | the cached title of a torrent, as specified |
| TitlesDatabase.TitlesDB.GetTitleFromTorrent | tvfamily/core.py:426-445 | resolves as specified; a search is recorded only on a miss |
| TitlesDatabase.TitlesDB.ResolveTorrents | tvfamily/core.py:412-445 | resolves every torrent in turn, carrying on past exceptions; the outcomes, the first exception and the new cache are those of `ResolveAll` |
| TitlesDatabase.TitlesDB.FetchTitlesFromTorrents | tvfamily/core.py:412-424 | resolves every torrent and keeps every id found even when a search raises, then raises the first exception; otherwise fetches each found title once and stores its attributes updated with its page under its id |
| TitlesDatabase.TitlesDB.GetMediasFromTorrents | tvfamily/core.py:382-400 | the de-duplicated medias of the zip, in first-occurrence order |
| TitlesDatabase.TitlesDB.Deduplicate | tvfamily/core.py:392-400 | the loop with its seen-set keeps each present media at its first occurrence, in order |
| Imdb.IdentityIsId | tvfamily/imdb.py:381-391 | equality and hash depend on the id only, and equality is an equivalence |
| Imdb.Get | tvfamily/imdb.py:384-385 | `title[attr]` returns the attribute, or raises `KeyError` |
| Imdb.ParseInt | tvfamily/imdb.py:69-74 | on ASCII text, `int` succeeds exactly on non-empty strings of the digits 0-9 |
| Imdb.EndYear | tvfamily/imdb.py:70-75 | the end-year group of a title; its contract is stated by `EndYearNormalised` and `EndYearOfYear` |
| Imdb.ParseTitle | tvfamily/imdb.py:61-76 | `_parse_title`; its contract is stated by `ParseTitleCases` |
| Imdb.EndYearNormalised | tvfamily/imdb.py:70-75 | an absent end-year group gives None, a blank one 0, and digits their value |
| Imdb.EndYearOfYear | tvfamily/imdb.py:72-73 | a four-digit end year reads back as its number |
| Imdb.ParseTitleCases | tvfamily/imdb.py:61-76 | a match gives its title and normalised end year; no match raises `UnboundLocalError`, since `title` is never bound |
| Imdb.Validate | tvfamily/imdb.py:431-433 | validation succeeds iff every requested type is a search type; otherwise `ValueError` names a wrong type |
| Imdb.ValidateTypes | tvfamily/imdb.py:431-433 | the validation loop computes exactly the validation result |
| Imdb.InvalidTypeBeforeRequest | tvfamily/imdb.py:431-440 | a wrong type raises before any request, whatever the request would return |
| Imdb.DocumentedTypesAccepted | tvfamily/imdb.py:425-433 | validation accepts a list of types exactly when every type is one of the eight the search documents: the seven of the type pattern and `'Movie'` |
| Imdb.SearchFilter | tvfamily/imdb.py:452-454 | the filter of the search results by type and year; its contract is stated by `SearchFilterSelects` and `SearchFilterKeeps` |
| Imdb.SearchFilterSelects | tvfamily/imdb.py:452-454 | the filter keeps, in order, exactly the results whose type is requested and, with a year, whose year is that year or the one before |
| Imdb.SearchFilterKeeps | tvfamily/imdb.py:452-454 | the filtered results form a subsequence of the parser results, each with a requested type and a matching year |
| Imdb.Search | tvfamily/imdb.py:425-454 | `search` validates, requests and filters, in that order |
| SearchParsing.OnStartTag | tvfamily/imdb.py:105-116 | the start-tag handler of the search page; its contract is stated by `LinkIdsCases`, `OtherEventsKeepResults` and `SearchParser.HandleStartTag` |
| SearchParsing.OnData | tvfamily/imdb.py:118-130 | the data handler of the search page; its contract is stated by `DataInCell` and `FirstYearAndTypeKept` |
| SearchParsing.OnEndTag | tvfamily/imdb.py:132-145 | the end-tag handler of the search page; its contract is stated by `CloseCellAppendsOne`, `OtherEventsKeepResults` and `CellWithoutLinkRepeatsPrevious` |
| SearchParsing.Feed | tvfamily/imdb.py:105-145 | the parse of a search page as a fold of the handlers; its contract is stated by `OneResultPerCell`, `FeedResultsParsed`, `HaltedFeedOk` and `HaltedFeedErr` |
| SearchParsing.LinkId | tvfamily/imdb.py:112-114 | the id is the third `/`-segment of the href; a missing value or too few segments raises |
| SearchParsing.LinkIdsCases | tvfamily/imdb.py:112-114 | without an href the id is kept; with several, the last href decides |
| SearchParsing.CloseCellAppendsOne | tvfamily/imdb.py:132-144 | closing a result cell appends one title with the link's id, the title, the year, and the type (`Movie` when none was seen); it then resets the year, the type and the cell flag |
| SearchParsing.OtherEventsKeepResults | tvfamily/imdb.py:105-145 | every event other than a result cell's close leaves the results unchanged |
| SearchParsing.OneResultPerCell | tvfamily/imdb.py:132-142 | a page yields exactly one result per closing result cell, and earlier results stay a prefix |
| SearchParsing.FirstYearAndTypeKept | tvfamily/imdb.py:121-130 | within a cell, the first year and the first type seen are kept |
| SearchParsing.DataInCell | tvfamily/imdb.py:118-130 | text inside the link sets the title; text elsewhere in the cell sets a year or type only while none is set; other text changes nothing |
| SearchParsing.FeedResultsParsed | tvfamily/imdb.py:135-140 | a feed that does not raise keeps every result well formed: each has a string title, a string type and an integer or None year |
| SearchParsing.PageResultsFilterable | tvfamily/imdb.py:448-454 | the results of a parsed page can always be filtered, and the filter gives a subsequence of them |
| SearchParsing.CellWithoutLinkRepeatsPrevious | tvfamily/imdb.py:132-144 | a result cell without a link appends the previous cell's id and title again |
| SearchParsing.SearchParser.constructor | tvfamily/imdb.py:93-103 | a new parser is outside any cell and has no results |
| SearchParsing.SearchParser.HandleStartTag | tvfamily/imdb.py:105-116 | the handler's effect is the start-tag transition; when it raises, the results are unchanged and the id is that of the last good `href` before the bad one |
| SearchParsing.SearchParser.HandleData | tvfamily/imdb.py:118-130 | the handler's effect is the data transition |
| SearchParsing.SearchParser.HandleEndTag | tvfamily/imdb.py:132-145 | the handler's effect is the end-tag transition; when it raises, the results are unchanged and a missing type has already become `Movie` |
| SearchParsing.HaltedFeedOk | tvfamily/imdb.py:105-145 | when no handler raises, the fields where the feed stops are the fold of the transitions |
| SearchParsing.HaltedFeedErr | tvfamily/imdb.py:105-145 | when a handler raises, the fields are those it leaves after the longest prefix of events that does not raise |
| SearchParsing.SearchParser.FeedEvents | tvfamily/imdb.py:93-145 | feeding events in turn gives the fold of the transitions, the first error, and in every case the fields where the feed stopped |
| SeasonParsing.Episodes | tvfamily/imdb.py:282 | the episodes dictionary has one entry per episode number seen |
| SeasonParsing.FirstDivClass | tvfamily/imdb.py:319-334 | the first matching class decides the div, and none matches iff no attribute is one of the four classes |
| SeasonParsing.SetField | tvfamily/imdb.py:308-355 | writing into the current episode keeps every episode reference valid |
| SeasonParsing.OnStartTag | tvfamily/imdb.py:299-345 | every start-tag transition keeps every episode reference valid |
| SeasonParsing.OnData | tvfamily/imdb.py:347-355 | every data transition keeps every episode reference valid |
| SeasonParsing.Step | tvfamily/imdb.py:299-368 | every event keeps every episode reference valid |
| SeasonParsing.Feed | tvfamily/imdb.py:299-368 | a page keeps every episode reference valid |
| SeasonParsing.HaltedFeedOk | tvfamily/imdb.py:299-368 | when no handler raises, the fields where the feed stops are the fold of the transitions |
| SeasonParsing.HaltedFeedErr | tvfamily/imdb.py:299-368 | when a handler raises, the fields are those after the longest prefix of events that does not raise, since a raising handler changes nothing |
| SeasonParsing.MetaStoresCurrent | tvfamily/imdb.py:310-318 | an `episodeNumber` meta stores the current episode under its content and changes no other entry; without a current episode it raises `AttributeError`, and without a content it raises `UnboundLocalError` |
| SeasonParsing.DataShowsThroughEpisodes | tvfamily/imdb.py:347-355 | a field written into the current episode shows through every entry that shares it, and only those |
| SeasonParsing.PlotOfStoredEpisode | tvfamily/imdb.py:353-354 | plot text is stored stripped in the current episode |
| SeasonParsing.NewEpisodeKeepsEarlier | tvfamily/imdb.py:321-324 | a list item starts a new empty episode and leaves the stored ones unchanged |
| SeasonParsing.EndTagFlags | tvfamily/imdb.py:357-368 | each flag is cleared by its matching end tag, and a `</div>` clears exactly one div flag, the first set |
| SeasonParsing.OneDivFlagPerClose | tvfamily/imdb.py:359-364 | with the airdate and plot flags both set, a `</div>` clears only the airdate flag |
| SeasonParsing.SeasonParser.constructor | tvfamily/imdb.py:279-297 | a new parser has no episodes and no flag set |
| SeasonParsing.SeasonParser.SetEntry | tvfamily/imdb.py:307 | writes one field of the current episode, or fails without a current episode |
| SeasonParsing.SeasonParser.ScanAttrs | tvfamily/imdb.py:302-306 | the attribute loop finds the flag pair and the last value of the named attribute |
| SeasonParsing.SeasonParser.FirstDiv | tvfamily/imdb.py:320-334 | the attribute loop finds the first div class |
| SeasonParsing.SeasonParser.Contains | tvfamily/imdb.py:336-344 | the attribute loop finds whether the pair is present |
| SeasonParsing.SeasonParser.HandleStartTag | tvfamily/imdb.py:299-345 | the handler's effect is the start-tag transition; an error changes nothing |
| SeasonParsing.SeasonParser.HandleImg | tvfamily/imdb.py:300-309 | an `img` tag stores the still of a marked image in the current episode; an error changes nothing |
| SeasonParsing.SeasonParser.HandleMeta | tvfamily/imdb.py:310-319 | an `episodeNumber` meta stores the current episode under its number; an error changes nothing |
| SeasonParsing.SeasonParser.HandleDiv | tvfamily/imdb.py:320-335 | a `div` never fails and starts an episode or sets the flag of the first matching class |
| SeasonParsing.SeasonParser.HandleData | tvfamily/imdb.py:347-355 | the handler's effect is the data transition; an error changes nothing |
| SeasonParsing.SeasonParser.HandleEndTag | tvfamily/imdb.py:357-368 | the handler's effect is the end-tag transition |
| SeasonParsing.SeasonParser.FeedEvents | tvfamily/imdb.py:299-368 | feeding events in turn gives the fold of the transitions, the first error, and in every case the fields where the feed stopped |
| Scheduling.Sleeps | tvfamily/core.py:986-989 | one sleep per round |
| Scheduling.NoDrift | tvfamily/core.py:975-986 | after `k` rounds the next execution is the start plus `k` intervals, whatever the rounds took |
| Scheduling.SleepsReachSchedule | tvfamily/core.py:986-989 | each sleep ends at its scheduled time; a negative sleep means the round overran |
| Scheduling.TaskScheduler.constructor | tvfamily/core.py:971-975 | the first execution is now |
| Scheduling.TaskScheduler.Tick | tvfamily/core.py:986-988 | one round advances by one interval and sleeps until then |
| Scheduling.TaskScheduler.Run | tvfamily/core.py:977-989 | over the rounds, the next execution and the sleeps are as scheduled |
| Profiles.ProfilesOf | tvfamily/core.py:242-246 | profiles are keyed by name, every stored profile's name is present, and a later duplicate wins |
| Profiles.Load | tvfamily/core.py:217-224 | the loaded store is keyed by name; an unreadable file gives no profiles |
| Profiles.Get | tvfamily/core.py:226-231 | a profile by name, or `KeyError` naming the profile |
| Profiles.SetPicture | tvfamily/core.py:262-273 | `set_profile_picture` on the store; its contract is stated by `SetPictureThenHas` and `OperationsKeepKeyed` |
| Profiles.Create | tvfamily/core.py:275-283 | `create_profile` on the store; its contract is stated by `CreateThenGet`, `CreateDuplicateRaises`, `CreateBadPictureRaises` and `OperationsKeepKeyed` |
| Profiles.Delete | tvfamily/core.py:301-313 | `delete_profile` on the store; its contract is stated by `DeleteUnknownRaises`, `CreateThenDelete` and `OperationsKeepKeyed` |
| Profiles.HasPicture | tvfamily/core.py:252-260 | an unknown profile raises; a known one has a picture iff its file exists |
| Profiles.SetPictureThenHas | tvfamily/core.py:252-299 | an unknown profile raises and nothing changes; otherwise the profiles stay, an undecodable picture raises and leaves the store as it was, and afterwards the profile has a picture exactly when the new one is not empty; other profiles' pictures are untouched |
| Profiles.CreateThenGet | tvfamily/core.py:275-283 | creating a new profile gives it default settings, leaves the others unchanged, and stores a picture iff one was given |
| Profiles.CreateDuplicateRaises | tvfamily/core.py:275-283 | creating an existing profile raises `ValueError` and changes nothing |
| Profiles.CreateBadPictureRaises | tvfamily/core.py:285-299 | an undecodable picture raises `IOError` before anything is created |
| Profiles.DeleteUnknownRaises | tvfamily/core.py:301-313 | deleting an unknown profile raises `KeyError`, after its picture file is removed |
| Profiles.CreateThenDelete | tvfamily/core.py:275-313 | creating a profile without a picture and then deleting it restores the store, except that any old picture file of that name is gone |
| Profiles.OperationsKeepKeyed | tvfamily/core.py:262-313 | create, delete and set-picture keep the store keyed by name |
| Profiles.ListingUnique | tvfamily/core.py:248-250 | there is one listing: the profiles sorted by name |
| Profiles.ProfilesManager.constructor | tvfamily/core.py:217-224 | the manager starts from the loaded store |
| Profiles.ProfilesManager.GetProfiles | tvfamily/core.py:248-250 | lists every profile once, sorted by name |
| Profiles.ProfilesManager.KeysInSomeOrder | tvfamily/core.py:248-250 | the profile names, each once, in some order, before the sort |
| Profiles.ProfilesManager.SetProfilePicture | tvfamily/core.py:262-273 | the new state and the result are those of setting the picture |
| Profiles.ProfilesManager.CreateProfile | tvfamily/core.py:275-283 | the new state and the result are those of creating the profile |
| Profiles.ProfilesManager.DeleteProfile | tvfamily/core.py:301-313 | the new state and the result are those of deleting the profile |
| VideoRange.ServeRange | tvfamily/webservice.py:259-290 | the handler's reassignments of `start` and `end` compute the specified response |
| VideoRange.Respond | tvfamily/webservice.py:259-290 | the response of the video handler as written; its contract is stated by `UnsatisfiableIff`, `SuffixShifted`, `EndCapped`, `NoRange`, `ContentLengthIsSize`, `SuffixLongerThanVideo` and `PartialLengthIsWholeSize` |
| VideoRange.RespondCorrected | tvfamily/webservice.py:259-290 | the response as section 2.1, 4.1 and 4.4 of RFC 7233 ask; its contract is stated by `CorrectedSpanInVideo` and `CorrectedLongSuffix` |
| VideoRange.UnsatisfiableIff | tvfamily/webservice.py:267-276 | the answer is 416 with `bytes */SIZE` iff a range starts at or past the size or ends at 0; any other range gives 206 |
| VideoRange.SuffixShifted | tvfamily/webservice.py:277-278 | a negative start is shifted by the size, and a served start is below the size |
| VideoRange.EndCapped | tvfamily/webservice.py:279-282 | an end past the size is capped, so a served end never exceeds the size |
| VideoRange.NoRange | tvfamily/webservice.py:263-267 | without a usable range the whole video is served with 200 and no span |
| VideoRange.ContentLengthIsSize | tvfamily/webservice.py:290 | Content-Length is the whole size on every served response |
| VideoRange.SuffixLongerThanVideo | tvfamily/webservice.py:277-278 | `bytes=-200` on 100 bytes serves from byte -100 |
| VideoRange.PartialLengthIsWholeSize | tvfamily/webservice.py:283-290 | `bytes=0-9` on 100 bytes is a 206 announcing a length of 100 |
| VideoRange.CorrectedSpanInVideo | tvfamily/webservice.py:259-290 | the corrected handler serves every 206 span inside the video with its own length, and refuses the same ranges with 416 |
| VideoRange.CorrectedLongSuffix | tvfamily/webservice.py:277-278 | the corrected handler serves a long suffix as the whole video |

## Left out

- Concurrency: `tornado.gen.multi` runs the plugins and the title searches concurrently. Here they run in sequence, in list order. Set iteration order is not modelled either.
- TitlesDatabase.ResolveAll: the searches run in sequence, so a second torrent with the same uncached key hits the id the first one stored. Under `tornado.gen.multi` every cache lookup runs before any search stores its id (tvfamily/core.py:415-416, 426-438), so both torrents search.
- The scheduler's unbounded loop, `tornado.gen.sleep`, its two task calls and the logging. A run is a finite sequence of clock readings, in whole units.
- All HTTP and network code:
  - the IMDB requests (`IMDBTitle.fetch`, `_fetch_season`, the request inside `search`);
  - the piratebay plugin;
  - the web handlers other than the range computation.
- File persistence: JSON files are their decoded contents, and write failures are not modelled.
  - `_save_torrents_to_imdb` and `ProfilesManager._save` always succeed.
  - The picture write `IOError` of `_save_profile_picture` is not modelled.
  - The profile directory is not created.
  - `os.setuid` and `chown` are not modelled.
- Plugin loading via `importlib` is the allocation of a fresh id; a module that fails to load is not modelled.
- `PTN.parse`, the filter regular expressions and the IMDB year and type patterns are parameters.
- The season parser's rating is kept as its text, with `float` syntax as a parameter.
- Picture decoding and resizing with PIL is a decoder parameter; the resized image is not modelled.
- `TitleParser` is not modelled: it unpacks four values from `_parse_title`, which returns three, so it cannot run as written.
- `TorrentEngine.search` is not modelled: it calls `_filter` with one argument where two are needed, so it raises as soon as one plugin returns a list; with no plugin, or with every plugin raising, it returns the empty list.
- `Core.search_torrents` is not modelled, because it fails on every call (a missing attribute).
- `get_category`, `get_categories_names`, `get_filter_values`, `Core.get_video` and the query-argument errors of the handlers are not modelled: they are lookups in configuration and web plumbing.
- The video's content and the chunked write loop are not modelled; the response ends at the span handed to the video.
- Tornado's `_parse_request_range` is a parameter.
- The `TorrentEngine` constructor's own lookup of the plugins path option (`KeyError` at construction) is not modelled; each reload takes the option's value as a parameter.
- The settings of a profile are opaque stored text.
- Torrents.NewTorrent: `name_info` always carries a title; a parse without a title is not modelled.
- Titles.MediaEquality: only like-for-like comparison is covered; an `Episode` compared with a bare `Title` is not modelled.
- Strings.Lower: only ASCII letters are lowercased, and `strip` removes only space, tab, line feed, carriage return, `\x0b` and `\x0c`. Python's `lower()` is Unicode-wide, and its `strip()` also removes `\x1c`-`\x1f`, `\x85` and the Unicode spaces.
- Profiles.SetPicture: the picture is bytes; a `None` picture is not modelled.
- Torrents.FromDict: the torrent's fields are typed, so a `name` that is not a string or `seeders` or `leechers` that are not integers raise `TypeError` here, while `Torrent(**d)` stores any value. Snapshots written by `fetch_top` always have these types.
- Imdb.ParseInt: ASCII digits only. Python's `int` also accepts Unicode decimal digits (which `\d` in the title pattern matches too), surrounding white space, a sign and underscores.
- Engine.ReloadDiff, Engine.ReloadKeepsRegistry, Engine.ReloadCrashes, Engine.TorrentEngine.ReloadPlugins, Engine.TorrentEngine.FetchTop: the engine walks the basenames in name order, the corrected walk of the finding below. As written, tvfamily/core.py:904-911 walks the basenames of the sorted file names, which can leave the registry unsorted (`a-b` before `a`) and reload a plugin still on disk; Engine.ReloadAsWrittenShape and Engine.ReloadAsWrittenCrashes state what the walk as written still guarantees.
- The season fetch inside `IMDBTitle.fetch` (tvfamily/imdb.py:405-409) is not modelled; the page's attributes are a fetch parameter.

## Findings

| source | as written | input that shows it | evidently intended | confidence | as-written member | corrected member |
|---|---|---|---|---|---|---|
| tvfamily/core.py:904-916 | the plugin files are sorted by full file name, but the walk compares basenames against handle names sorted as names | loaded handle `a`, directory `a.py` and `a-b.py`: file order gives `a-b`, `a`, so the walk drops handle `a` and loads it again under a fresh id | walk the basenames in name order, so a plugin still on disk keeps its handle | not executed | Plugins.FileOrderIsNotNameOrder | Plugins.SortedBasenamesSorted |
| tvfamily/webservice.py:277-278 | a suffix range is shifted by the size with no floor at 0 | `bytes=-200` on a 100-byte video serves from byte -100 and announces `bytes -100-99/100` | a suffix longer than the representation selects the whole representation (section 2.1 of RFC 7233) | not executed | VideoRange.SuffixLongerThanVideo | VideoRange.CorrectedLongSuffix |
| tvfamily/core.py:386-391 | the titles found are filtered to the present ones and then zipped with all the torrents, so a title loses its own torrent | torrent `a` (1x1) not cached, torrent `b` (2x5) cached as a series: the result is episode 1x1 of `b`'s series | pair each torrent with its own cached title, so `b`'s series gives episode 2x5 | not executed | TitlesDatabase.ZipMisaligns | TitlesDatabase.PairedMediasOwnTorrent |
| tvfamily/webservice.py:290 | Content-Length is the whole size on a 206 response | `bytes=0-9` on a 100-byte video answers 206 with `bytes 0-9/100` and a Content-Length of 100 | a 206 carries the length of the enclosed part (section 4.1 of RFC 7233) | not executed | VideoRange.PartialLengthIsWholeSize | VideoRange.CorrectedSpanInVideo |
