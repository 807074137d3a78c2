# go_search_mcp: the cache-aware search pipeline, in Dafny

This project models the core of go_search_mcp, a service that answers a text
query in four stages. It asks a search engine (Google or DuckDuckGo) for result
URLs. It fetches those pages concurrently and keeps their readable text. It
merges the usable pages into one Markdown document. It caches that document
for 24 hours under a hash of the normalised query.

The model follows the Go packages:

- `Cache` (`cache.dfy`, internal/cache). A class whose `rows` field is the SQL
  table, a map from key to `(content, updatedAt)`. `Get`, `Set` and `Clear` are
  methods. Each is tied to a pure function (`Lookup`, `Upsert`, `Evict`), and
  the cache's promises are proved about those functions. The clock is a `now`
  parameter in whole seconds. Storage faults are an `Io` parameter.
- `Scraper` (`scraper.dfy`, internal/scraper). `ScrapeSingle` maps the reply
  to one page request to text or one of its four errors. `Scrape` fills a
  preallocated array, one slot per URL. The goroutines' finishing order is a
  parameter (`completion`, any permutation of the slot indices). The proof
  shows the result is the same whatever that order, and that each slot is
  written once.
- `Search` (`search.dfy`, internal/search). The HTML page is abstracted as the
  element lists the selectors pick out, in document order: the `div.g` blocks,
  all anchors, and the `a.result__a` links. Each filter is a per-element
  `pick` function. The `Each` callbacks are one loop (`Gather`), proved equal
  to `Take(Collect(..))`. That is the capped, order-preserving filter the
  lemmas talk about.
- `Engine` (`engine.dfy`, internal/engine). `QueryHash` hex-prints an abstract
  SHA-256 (`Digest`) of the lower-cased, trimmed query. `Consolidate` and
  `CountSections` are loops proved against `Consolidated` and `SectionCount`.
  The class `Engine` holds the cache; its `Search` and `ClearCache` methods
  update the cache's table. `Search` is proved equal to `Pipeline`, a function
  that returns the result, the new table and a ghost trace of the stages that
  ran. The cache-hit, force, failure-path and rate-limit properties are lemmas
  about `Pipeline`.
- `Text`, `Http` and `Wrappers` hold shared definitions:
  - `Text`: the Go `strings` functions the core uses (`TrimSpace`, `ToLower`,
    `HasPrefix`, `Contains`, `Split` on `"\n"`, byte length).
  - `Http`: the three things an HTTP GET can come back with.
  - `Wrappers`: `Option`, `Result` and `Outcome`.

The outside world is given as parameters:
- the reply to the search request;
- the reply to each page request (`Scraper.Network`);
- URL query-parameter parsing (`Search.QueryParam`);
- the cache's I/O outcome for each statement;
- the clock.

## Model

| member | source | states |
|---|---|---|
| Text.LowerChar | internal/engine/engine.go:116 | an ASCII capital becomes its lower-case letter (code point + 32); every other character is unchanged |
| Text.ToLower | internal/engine/engine.go:116 | lower-casing keeps the length |
| Text.ToLowerIdempotent | internal/search/search.go:50 | lower-casing twice is lower-casing once |
| Text.TrimLeftShape | internal/engine/engine.go:127 | `TrimLeft` drops exactly a maximal blank prefix: the rest is a suffix that is empty or starts with a non-space |
| Text.TrimRightShape | internal/engine/engine.go:127 | `TrimRight` drops exactly a maximal blank suffix |
| Text.TrimSpace | internal/engine/engine.go:116 | definition: `strings.TrimSpace`, leading then trailing `unicode.IsSpace` characters dropped |
| Text.TrimSpaceIgnoresPadding | internal/engine/engine.go:116 | blank text around a string does not change its trimmed form |
| Text.TrimSpaceEmptyIff | internal/engine/engine.go:127 | the trimmed text is empty exactly when the text is all white space |
| Text.TrimSpaceIdempotent | internal/engine/engine.go:134 | trimming twice is trimming once |
| Text.Contains | internal/search/search.go:79 | definition: `strings.Contains`, the substring is a prefix of some suffix |
| Text.ContainsIff | internal/search/search.go:79 | `Contains` holds exactly when the substring occurs at some index |
| Text.Lines | internal/engine/engine.go:143 | splitting on `"\n"` gives at least one line |
| Text.LinesSplit | internal/engine/engine.go:143 | no line holds a newline, and joining the lines with `"\n"` gives the text back |
| Text.LinesAtNewline | internal/engine/engine.go:143 | the lines of `a + "\n" + b` are the lines of `a` followed by the lines of `b` |
| Text.Join | internal/engine/engine.go:130-134 | definition: the parts in order with the separator between consecutive ones, `""` for none |
| Text.Utf8Width | internal/search/search.go:112 | each character takes 1 to 4 bytes |
| Text.Utf8Len | internal/search/search.go:112 | definition: Go's `len` of a string, the sum of the UTF-8 widths of its characters |
| Text.Utf8LenBounds | internal/search/search.go:112 | the byte length `len(title)` lies between the character count and four times that |
| Cache.Lookup | internal/cache/cache.go:62-84 | a hit exactly when the key is present and its age is at most the TTL; the content is the stored one on a hit and `""` otherwise |
| Cache.Fresh | internal/cache/cache.go:79 | definition: a row is fresh while its age `now - updatedAt` is at most the TTL, so only a strictly greater age is stale |
| Cache.Upsert | internal/cache/cache.go:88-95 | the keys afterwards are the old keys plus the written one |
| Cache.Evict | internal/cache/cache.go:104-110 | deleting never adds a key |
| Cache.Cache.Open | internal/cache/cache.go:56 | a cache over an existing table holds exactly that table |
| Cache.Cache.Get | internal/cache/cache.go:62-84 | an I/O error is returned as is; otherwise the answer is the `Lookup` answer; the table is not modified |
| Cache.Cache.Set | internal/cache/cache.go:87-99 | on success the table is the upsert of the key with the content and `now`; on an error it is unchanged |
| Cache.Cache.Clear | internal/cache/cache.go:104-115 | on success the table is the eviction of the key (all rows for `""`); on an error it is unchanged |
| Cache.SetThenGet | internal/cache/cache.go:62-99 | `Set(k, v)` then `Get(k)` within the TTL returns `(v, true)` |
| Cache.SetKeepsOthers | internal/cache/cache.go:88-95 | a `Set` does not change any other key's answer |
| Cache.UpsertRowCount | internal/cache/cache.go:88-93 | overwriting a key keeps the number of rows; a new key adds exactly one |
| Cache.GetAbsent | internal/cache/cache.go:71-73 | an absent key misses with `""` |
| Cache.TtlBoundary | internal/cache/cache.go:79-81 | age equal to the TTL is a hit; one second older is a miss with `""` although the row is still stored |
| Cache.ClearOne | internal/cache/cache.go:108-110 | `Clear(k)` with `k != ""` removes `k` and leaves every other row as it was |
| Cache.ClearAllMisses | internal/cache/cache.go:106-107 | after `Clear("")` every key misses at every time |
| Cache.ClearIdempotent | internal/cache/cache.go:104-115 | clearing twice equals clearing once; clearing a missing key changes nothing |
| Scraper.ScrapeSingle | internal/scraper/scraper.go:57-87 | text exactly for a 200 response whose extraction worked, and then the extracted text; otherwise the matching error |
| Scraper.PageOf | internal/scraper/scraper.go:44-49 | the slot carries its own URL; no error exactly on a 200 with successful extraction; content `""` with every error |
| Scraper.Scraped | internal/scraper/scraper.go:36-55 | one page per URL |
| Scraper.InOrder | internal/scraper/scraper.go:40-51 | the goroutines finishing in start order is a completion order |
| Scraper.Scrape | internal/scraper/scraper.go:36-55 | for every completion order the result is `Scraped(urls, net)`: `len(urls)` slots, slot `i` for `urls[i]`, each slot written exactly once |
| Scraper.SlotIndependence | internal/scraper/scraper.go:44-49 | a slot depends only on the reply to its own URL, so another URL's failure cannot change it |
| Scraper.ScrapeEmpty | internal/scraper/scraper.go:37 | no URLs, no pages |
| Scraper.FailureHasNoText | internal/scraper/scraper.go:62-84 | every failure leaves empty text; a non-200 status gives the unexpected-status error |
| Search.FetchDocument | internal/search/search.go:154-177 | a document exactly for a 200 response that parses, and then that document |
| Search.Take | internal/search/search.go:70-72 | the result is a prefix of the hits, of length `min(len, count)` and 0 when `count <= 0` |
| Search.Collect | internal/search/search.go:67-87 | definition: the hits the filter accepts, in element order |
| Search.PrimaryPick | internal/search/search.go:73-86 | definition: a block's first link unless missing, empty, starting with `/` or containing `google.com`; titled by the `h3` text, or the link text when that is empty, trimmed |
| Search.FallbackPick | internal/search/search.go:95-115 | definition: a `/url?` link is replaced by its `q` parameter when it parses; kept only when non-empty, starting with `http`, off google.com and youtube.com, with a trimmed title of 1 to 200 bytes |
| Search.DuckPick | internal/search/search.go:135-148 | definition: a missing or empty `href` is skipped; a `duckduckgo.com/l/?` link is replaced by a non-empty `uddg` parameter; the title is the trimmed text, possibly empty |
| Search.GoogleHits | internal/search/search.go:69-119 | definition: the capped primary hits, or the capped fallback hits over all anchors when there are none |
| Search.DuckHits | internal/search/search.go:131-151 | definition: the capped DuckDuckGo hits |
| Search.UsesDuckDuckGo | internal/search/search.go:50-51 | definition: the lower-cased engine name is `duckduckgo` or `ddg` |
| Search.Discover | internal/search/search.go:49-65 | definition: a failed fetch is wrapped with the selected engine's error; otherwise that engine's hits |
| Search.Gather | internal/search/search.go:69-87 | one `Each` pass under the `len(results) >= count` guard collects the first `count` accepted elements in document order |
| Search.SearchGoogle | internal/search/search.go:58-120 | a fetch error is wrapped as a Google error; otherwise the primary results, or the fallback results when there are none |
| Search.SearchDuckDuckGo | internal/search/search.go:122-152 | a fetch error is wrapped as a DuckDuckGo error; otherwise the capped DuckDuckGo results |
| Search.Search | internal/search/search.go:49-56 | the dispatch returns the `Discover` answer for the engine name |
| Search.CollectAppend | internal/search/search.go:69-87 | filtering a concatenation is filtering each part, in order |
| Search.CollectSound | internal/search/search.go:69-87 | every kept hit is what the filter made of some element |
| Search.CollectComplete | internal/search/search.go:69-87 | every element the filter accepts is kept (before the cap) |
| Search.DiscoverCapped | internal/search/search.go:70-72 | no engine returns more than `count` results, none for `count <= 0`; an error exactly when the fetch fails |
| Search.EmptyPage | internal/search/search.go:119 | a page with no matching elements gives no results and no error |
| Search.FallbackOnlyWhenPrimaryEmpty | internal/search/search.go:89 | the two cases of `GoogleHits` stated separately: the primary results when there are any, the fallback results only otherwise |
| Search.PrimaryHitsSound | internal/search/search.go:73-81 | a primary hit is a block's non-empty link that is not site-relative and not on google.com |
| Search.FallbackHitsSound | internal/search/search.go:99-115 | a fallback hit starts with `http`, is off google.com and youtube.com, and has a non-empty title of at most 200 bytes |
| Search.DuckPickSound | internal/search/search.go:135-146 | a DuckDuckGo hit is non-empty and is either the anchor's `href` or its `uddg` parameter |
| Search.DuckHitsSound | internal/search/search.go:135-148 | every DuckDuckGo result has a non-empty URL taken from some result link, directly or through `uddg` |
| Search.EngineSelection | internal/search/search.go:50-55 | examples: `duckduckgo`, `DuckDuckGo`, `ddg` and `DDG` select DuckDuckGo; `google`, `""` and `bing` select Google (the general rule is `UsesDuckDuckGo`) |
| Search.EngineNameCaseInsensitive | internal/search/search.go:50 | the engine choice does not change when the name is lower-cased first |
| Engine.Hex | internal/engine/engine.go:118 | `%x` prints two characters per byte |
| Engine.HexDigitsOnly | internal/engine/engine.go:118 | `%x` prints only lower-case hex digits |
| Engine.Normalize | internal/engine/engine.go:116 | definition: the query lower-cased, then trimmed |
| Engine.QueryHash | internal/engine/engine.go:115-119 | the key of a query is 64 characters long, so never `""` |
| Engine.KeyIsHexDigest | internal/engine/engine.go:115-119 | every key is 64 lower-case hex digits |
| Engine.KeyIgnoresPadding | internal/engine/engine.go:116 | white space around a query does not change its key |
| Engine.KeyIgnoresCase | internal/engine/engine.go:116 | a query and its lower-cased form have the same key |
| Engine.Included | internal/engine/engine.go:127 | definition: a page is kept when it has no error and its trimmed text is not empty |
| Engine.Section | internal/engine/engine.go:134 | definition: `"## " + URL + "\n\n" + trimmed text` |
| Engine.Survivors | internal/engine/engine.go:126-129 | consolidation keeps at most as many pages as it is given |
| Engine.SectionsOfSnoc | internal/engine/engine.go:126-134 | one more kept page adds its section at the end |
| Engine.Consolidated | internal/engine/engine.go:123-137 | definition: the sections of the kept pages, in input order, joined by `"\n\n---\n\n"` |
| Engine.ConsolidatedSnoc | internal/engine/engine.go:126-135 | one more page adds its section at the end, after the separator unless it is the first, and only if the page is kept |
| Engine.Consolidate | internal/engine/engine.go:123-137 | the loop returns the consolidated document and the number of kept pages |
| Engine.SurvivorsAreUsable | internal/engine/engine.go:127-129 | every kept page is an input page with no error and non-blank text |
| Engine.UsablePagesSurvive | internal/engine/engine.go:127-129 | every input page with no error and non-blank text is kept |
| Engine.SurvivorsAppend | internal/engine/engine.go:126-129 | the kept pages of a concatenation are those of each part, in input order |
| Engine.ConsolidatedEmptyIff | internal/engine/engine.go:130-136 | the document is `""` exactly when the count is 0 |
| Engine.ConsolidatedStartsWithHeader | internal/engine/engine.go:134 | a non-empty document starts with `"## "` and the first kept URL |
| Engine.ConsolidateNothing | internal/engine/engine_test.go:39-52 | no pages, or one failed page, give `""` and count 0 |
| Engine.ConsolidateOne | internal/engine/engine_test.go:53-60 | one kept page gives `"## " + URL + "\n\n" + trimmed text` and count 1 |
| Engine.ConsolidateTwo | internal/engine/engine_test.go:61-69 | two kept pages give their sections joined by `"\n\n---\n\n"` and count 2 |
| Engine.ConsolidateSkips | internal/engine/engine_test.go:70-80 | a failed or blank page anywhere in the input changes neither the document nor the count |
| Engine.SectionCount | internal/engine/engine.go:141-149 | definition: the number of lines starting with `"## "` |
| Engine.CountSections | internal/engine/engine.go:141-149 | the loop counts the lines that start with `"## "`; content that starts with `"## "` counts at least one |
| Engine.SectionCountAppend | internal/engine/engine.go:143-147 | the count over concatenated lines is the sum of the counts |
| Engine.HeaderedContentCounts | internal/engine/engine.go:143-147 | content starting with `"## "` counts at least one section |
| Engine.SectionCountSkipsLine | internal/engine/engine.go:144 | a line without the mark adds nothing |
| Engine.LinesAcrossSeparator | internal/engine/engine.go:131 | the separator adds no header line: sections are counted independently on each side |
| Engine.SectionLines | internal/engine/engine.go:134 | a section counts its header line plus the header lines of its text |
| Engine.SectionHeaders | internal/engine/engine.go:134 | a section counts at least one header, and exactly one for a URL without newline and text without `"## "` lines |
| Engine.SectionsCountHeaders | internal/engine/engine.go:130-134 | joined sections count at least one header each, exactly one each when every page is plain |
| Engine.CountSectionsOfConsolidated | internal/engine/engine.go:52-56 | `countSections` of a consolidated document is at least the `consolidate` count, and equal to it when every kept page is plain |
| Engine.UrlsOf | internal/engine/engine.go:76-79 | one URL per hit, in hit order |
| Engine.CollectUrls | internal/engine/engine.go:76-79 | the copy loop yields the hits' URLs in order |
| Engine.Waits | internal/engine/engine.go:71-73 | at most one pause |
| Engine.ClearKey | internal/engine/engine.go:104-107 | the deleted key is `""` exactly for the empty query |
| Engine.Pipeline | internal/engine/engine.go:43-98 | definition: one run stage by stage, giving the result, the table afterwards and the trace: lookup unless forced, hit returned, discovery, no-hit error, pause, scrape, consolidation, empty-document error, upsert stamped with the store time |
| Engine.Engine.constructor | internal/engine/engine.go:35-37 | the engine holds the given cache and configuration; it is valid exactly when every row of the table starts with `"## "` |
| Engine.Engine.Search | internal/engine/engine.go:43-98 | result, new table and stage trace equal `Pipeline` for the search module's answer; a table whose rows all start with `"## "` keeps that shape, and from such a table every success counts at least one section |
| Engine.Engine.ClearCache | internal/engine/engine.go:103-112 | on success the table is the eviction of `ClearKey(query)`; a cache error is wrapped and leaves the table unchanged |
| Engine.TraceShape | internal/engine/engine.go:43-98 | the stages in order: lookup unless forced; then discovery; then with hits the pause (positive delay only), one fetch of the discovered URLs in discovery order, and the store once a document exists |
| Engine.MissTraceHasNoLookup | internal/engine/engine.go:47-62 | helper for `ForceBypassesCache`: a trace that starts with discovery has no lookup step |
| Engine.ForceBypassesCache | internal/engine/engine.go:47-62 | with `force` the cache is never read, discovery runs first, and no result has `FromCache` |
| Engine.HitServesStoredContent | internal/engine/engine.go:48-58 | a fresh entry is returned unchanged with `FromCache` and `countSections(content)`; nothing but the lookup runs and the table is unchanged |
| Engine.OnlyFreshSuccessWrites | internal/engine/engine.go:89-97 | only a fresh success writes, and it writes the returned document under `queryHash(query)`, stamped with the store time; every other path leaves the table unchanged |
| Engine.FailurePaths | internal/engine/engine.go:49-91 | each failure path gives its error: cache get, search, no results, all pages failed, cache set |
| Engine.FreshSuccessContent | internal/engine/engine.go:76-97 | a fresh success had hits; it returns the consolidated document of the pages scraped from them, with the kept-page count, at least 1 |
| Engine.MissTraceWaitsOnce | internal/engine/engine.go:70-73 | a run that reaches the fetch pauses at most once |
| Engine.MissTraceWaitsRight | internal/engine/engine.go:70-80 | such a run pauses only for the configured positive delay, and it fetches the URLs |
| Engine.NoWaits | internal/engine/engine.go:70-73 | helper for `RateLimitAtMostOnce`: a trace with no wait step holds no pause |
| Engine.RateLimitAtMostOnce | internal/engine/engine.go:70-73 | every run pauses at most once, only for a positive delay, and only when the discovered URLs are fetched |
| Engine.RepeatIsServedFromCache | internal/engine/engine.go:44-58 | after a fresh success, the same query (in any spelling with the same normalisation) within the TTL of the store time is served from the cache: the same document, `FromCache`, only a lookup, the table unchanged |
| Engine.RepeatCountMatches | internal/engine/engine.go:53-57 | the repeated count is never below the stored run's count, and equals it when every kept page is plain |
| Engine.PipelineKeepsRowsValid | internal/engine/engine.go:88-97 | every stored row starts with a section header before and after a run, and every success counts at least one section |
| Engine.ClearCacheScope | internal/engine/engine.go:103-112 | `ClearCache("")` empties the table; any other query, even a blank one, removes only its own key |

## Left out

- SHA-256 is abstract. `Digest` is any function from the normalised text to 32 bytes (the UTF-8 encoding of the text is inside it). So distinct queries getting distinct keys, which needs collision resistance, is not stated.
- Text.LowerChar, Text.ToLower: only ASCII letters are lowered. Go's `strings.ToLower` maps all of Unicode (U+212A KELVIN SIGN becomes `k`, for instance). So two queries that differ only in the case of non-ASCII letters get different keys in the model but the same key in Go. The engine choice differs too: `"DUC\u212ADUCKGO"` selects DuckDuckGo in Go and Google in the model.
- Strings are sequences of Unicode characters. Go strings are byte strings, and the model does not cover invalid UTF-8.
- HTTP itself is left out: request construction, headers, the User-Agent, the search URL built with `url.QueryEscape`, response bodies and the 3-second per-URL timeout. Each exchange is one `Http.Reply`.
- goquery is left out: the page is given as the element lists the selectors return. go-readability is left out: its result for a body is the `Extraction` in the reply.
- `url.Parse` with `Query().Get` is the `QueryParam` parameter.
- Goroutines, `sync.WaitGroup` and `context` cancellation are left out. The scraper loop writes the slots in a given completion order instead.
- The network is a function of the URL, so the same URL gets the same reply everywhere in one run.
- `time.Sleep` is left out. The rate-limit pause is a `RateLimitWait` step in the ghost trace.
- The clock is an integer number of seconds, supplied by the caller. A run reads it twice: `now` for the lookup's freshness test, and `Environment.storeTime` for the upsert's `CURRENT_TIMESTAMP`, which Go reads after the pause and the scrape. The model does not require the second reading to be later than the first.
- SQLite is left out: `cache.New`, the default path and directory creation, table creation, and `Close`. The store is a map that already exists, and each statement's failure is the `Io` parameter.
- Error messages are not modelled as text. Each is a datatype constructor carrying part of what the Go message formats. The cache errors carry the storage layer's reason but not the `%q`-quoted key (internal/cache/cache.go:75 and :96). `Search.UnexpectedStatus` carries the status but not the request URL, which is not modelled. The scraper's errors carry the URL, status and reason.
- `Engine.Pipeline` is stated for any discovery answer. `Engine.Engine.Search` instantiates it with the answer `Search.Discover` gives for the configured engine.
- Engine.RepeatCountMatches: a cache hit reports `countSections(content)`. That count can exceed the stored run's count when a kept page's URL holds a newline or its text has a line starting with `"## "`. The lemma states equality only for plain pages, which is the source's behaviour.
- The MCP and HTTP API adapters, `profile_main.go` and the test-only overrides (`OverrideHTTPClient`, `OverrideBaseURLs`) are not part of this model.
