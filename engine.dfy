/** internal/engine: the cache-aware pipeline. A query is normalised and
    hashed into a cache key; a fresh cache entry is served as is; otherwise
    the search engine is asked for result URLs, the pages are scraped, the
    usable ones are consolidated into one document, and that document is
    stored under the key. */
module Engine {

  import opened Wrappers
  import opened Text
  import Cache
  import Scraper
  import Web = Search
  import Http

  // ----- query key -----

  /** A SHA-256 sum: 32 bytes. */
  type Sum = b: seq<bv8> | |b| == 32 witness seq(32, _ => 0 as bv8)

  /** `sha256.Sum256` of a string's bytes. Its internals are not modelled:
      every function of this type stands for it. */
  type Digest = string -> Sum

  const HexDigits: string := "0123456789abcdef"

  /** `fmt.Sprintf("%x", b)`: two lower-case hex digits per byte, high
      nibble first. */
  function Hex(b: seq<bv8>): (s: string)
    ensures |s| == 2 * |b|
  {
    if b == [] then ""
    else
      var x := b[|b| - 1] as int;
      Hex(b[..|b| - 1]) + [HexDigits[x / 16], HexDigits[x % 16]]
  }

  /** A SHA-256 digest printed with `%x`: 64 lower-case hex digits. */
  predicate IsHexDigest(s: string) {
    |s| == 64 && forall k :: 0 <= k < |s| ==> s[k] in HexDigits
  }

  /** `Hex` writes nothing but hex digits. */
  lemma {:induction false} HexDigitsOnly(b: seq<bv8>)
    ensures forall k :: 0 <= k < |Hex(b)| ==> Hex(b)[k] in HexDigits
  {
    if b != [] {
      var init := b[..|b| - 1];
      HexDigitsOnly(init);
      var x := b[|b| - 1] as int;
      var s := Hex(b);
      assert s == Hex(init) + [HexDigits[x / 16], HexDigits[x % 16]];
      forall k | 0 <= k < |s| ensures s[k] in HexDigits {
        if k < |Hex(init)| {
          assert s[k] == Hex(init)[k];
        }
      }
    }
  }

  /** The normalisation `queryHash` hashes: lower-cased, then trimmed. */
  function Normalize(query: string): string {
    TrimSpace(ToLower(query))
  }

  /** `queryHash`: the cache key of a query, the hex form of the SHA-256 sum
      of its normalised text; never the empty string. */
  function QueryHash(digest: Digest, query: string): (key: string)
    ensures |key| == 64
  {
    Hex(digest(Normalize(query)))
  }

  /** Every key is 64 lower-case hex digits. */
  lemma KeyIsHexDigest(digest: Digest, query: string)
    ensures IsHexDigest(QueryHash(digest, query))
  {
    HexDigitsOnly(digest(Normalize(query)));
  }

  /** Surrounding white space does not change the key. */
  lemma KeyIgnoresPadding(digest: Digest, before: string, query: string, after: string)
    requires IsBlank(before) && IsBlank(after)
    ensures QueryHash(digest, before + query + after) == QueryHash(digest, query)
  {
    ToLowerAppend(before + query, after);
    ToLowerAppend(before, query);
    ToLowerOfBlank(before);
    ToLowerOfBlank(after);
    TrimSpaceIgnoresPadding(before, ToLower(query), after);
  }

  /** Letter case does not change the key: a query and its lower-cased
      form hash alike. */
  lemma KeyIgnoresCase(digest: Digest, query: string)
    ensures QueryHash(digest, ToLower(query)) == QueryHash(digest, query)
  {
    ToLowerIdempotent(query);
  }

  // ----- consolidation -----

  const Separator: string := "\n\n---\n\n"
  const HeaderMark: string := "## "

  /** A page `consolidate` keeps: no error and some non-blank text. */
  predicate Included(p: Scraper.ScrapedPage) {
    p.err.None? && TrimSpace(p.content) != ""
  }

  /** The section a kept page contributes: a header naming the URL, a blank
      line, and the trimmed text. */
  function Section(p: Scraper.ScrapedPage): string {
    HeaderMark + p.url + "\n\n" + TrimSpace(p.content)
  }

  /** The kept pages, in input order. */
  function Survivors(pages: seq<Scraper.ScrapedPage>): (r: seq<Scraper.ScrapedPage>)
    ensures |r| <= |pages|
  {
    if pages == [] then []
    else
      var init := Survivors(pages[..|pages| - 1]);
      if Included(pages[|pages| - 1]) then init + [pages[|pages| - 1]] else init
  }

  function SectionsOf(ps: seq<Scraper.ScrapedPage>): (r: seq<string>)
    ensures |r| == |ps|
  {
    seq(|ps|, i requires 0 <= i < |ps| => Section(ps[i]))
  }

  /** The consolidated document: the sections of the kept pages, in input
      order, separated by a `---` rule. */
  function Consolidated(pages: seq<Scraper.ScrapedPage>): string {
    Join(SectionsOf(Survivors(pages)), Separator)
  }

  lemma SectionsOfSnoc(ps: seq<Scraper.ScrapedPage>, p: Scraper.ScrapedPage)
    ensures SectionsOf(ps + [p]) == SectionsOf(ps) + [Section(p)]
  {
    var l, r := SectionsOf(ps + [p]), SectionsOf(ps) + [Section(p)];
    assert |l| == |r|;
    forall i | 0 <= i < |l| ensures l[i] == r[i] {
      if i < |ps| {
        assert (ps + [p])[i] == ps[i];
      } else {
        assert (ps + [p])[i] == p;
      }
    }
  }

  /** Appending one page to the input appends its section, after a
      separator when it is not the first. */
  lemma ConsolidatedSnoc(pages: seq<Scraper.ScrapedPage>, p: Scraper.ScrapedPage)
    ensures Survivors(pages + [p]) == if Included(p) then Survivors(pages) + [p] else Survivors(pages)
    ensures Consolidated(pages + [p]) ==
              if !Included(p) then Consolidated(pages)
              else if |Survivors(pages)| == 0 then Section(p)
              else Consolidated(pages) + Separator + Section(p)
  {
    assert (pages + [p])[..|pages|] == pages;
    var done := Survivors(pages);
    if Included(p) {
      SectionsOfSnoc(done, p);
      assert SectionsOf(done + [p])[..|done|] == SectionsOf(done);
    }
  }

  /** `consolidate`: one pass over the pages appending each kept page's
      section, preceded by the separator from the second one on. */
  method Consolidate(pages: seq<Scraper.ScrapedPage>) returns (text: string, count: int)
    ensures text == Consolidated(pages)
    ensures count == |Survivors(pages)|
  {
    text, count := "", 0;
    var i := 0;
    while i < |pages|
      invariant 0 <= i <= |pages|
      invariant text == Consolidated(pages[..i])
      invariant count == |Survivors(pages[..i])|
    {
      var p := pages[i];
      assert pages[..i + 1] == pages[..i] + [p];
      ConsolidatedSnoc(pages[..i], p);
      if Included(p) {
        if count > 0 {
          text := text + Separator;
        }
        count := count + 1;
        text := text + Section(p);
      }
      i := i + 1;
    }
    assert pages[..|pages|] == pages;
  }

  /** Every survivor is a page of the input without error whose text is
      not all white space. */
  lemma {:induction false} SurvivorsAreUsable(pages: seq<Scraper.ScrapedPage>)
    ensures forall p :: p in Survivors(pages) ==> p in pages && p.err.None? && !IsBlank(p.content)
  {
    if pages != [] {
      var n := |pages|;
      var init := pages[..n - 1];
      SurvivorsAreUsable(init);
      forall p | p in Survivors(pages) ensures p in pages && p.err.None? && !IsBlank(p.content) {
        TrimSpaceEmptyIff(p.content);
        if p in Survivors(init) {
          var j :| 0 <= j < |init| && init[j] == p;
          assert pages[j] == p;
        }
      }
    }
  }

  /** Every page without error whose text is not all white space survives. */
  lemma {:induction false} UsablePagesSurvive(pages: seq<Scraper.ScrapedPage>)
    ensures forall i :: 0 <= i < |pages| && pages[i].err.None? && !IsBlank(pages[i].content) ==> pages[i] in Survivors(pages)
  {
    if pages != [] {
      var n := |pages|;
      var init := pages[..n - 1];
      var last := pages[n - 1];
      UsablePagesSurvive(init);
      var done := Survivors(init);
      assert Survivors(pages) == if Included(last) then done + [last] else done;
      forall i | 0 <= i < n && pages[i].err.None? && !IsBlank(pages[i].content)
        ensures pages[i] in Survivors(pages)
      {
        if i < n - 1 {
          assert init[i] == pages[i];
          assert pages[i] in done;
        } else {
          TrimSpaceEmptyIff(last.content);
          assert Survivors(pages) == done + [last];
        }
      }
    }
  }

  /** Dropping pages never reorders the others. */
  lemma {:induction false} SurvivorsAppend(pages: seq<Scraper.ScrapedPage>, more: seq<Scraper.ScrapedPage>)
    ensures Survivors(pages + more) == Survivors(pages) + Survivors(more)
    decreases |more|
  {
    if more == [] {
      assert pages + more == pages;
    } else {
      var n := |more|;
      assert (pages + more)[..|pages + more| - 1] == pages + more[..n - 1];
      SurvivorsAppend(pages, more[..n - 1]);
    }
  }

  lemma {:induction false} JoinEndsWithLast(xs: seq<string>, sep: string)
    requires |xs| >= 1
    ensures |Join(xs, sep)| >= |xs[|xs| - 1]|
  {
  }

  /** The document is empty exactly when no page was kept. */
  lemma ConsolidatedEmptyIff(pages: seq<Scraper.ScrapedPage>)
    ensures Consolidated(pages) == "" <==> |Survivors(pages)| == 0
  {
    var xs := SectionsOf(Survivors(pages));
    if |xs| >= 1 {
      JoinEndsWithLast(xs, Separator);
    }
  }

  lemma {:induction false} JoinStartsWithFirst(xs: seq<string>, sep: string)
    requires |xs| >= 1
    ensures HasPrefix(Join(xs, sep), xs[0])
    decreases |xs|
  {
    if |xs| >= 2 {
      var init := xs[..|xs| - 1];
      JoinStartsWithFirst(init, sep);
      assert init[0] == xs[0];
    }
  }

  /** A non-empty document starts with the header of the first kept page. */
  lemma ConsolidatedStartsWithHeader(pages: seq<Scraper.ScrapedPage>)
    requires |Survivors(pages)| > 0
    ensures HasPrefix(Consolidated(pages), HeaderMark + Survivors(pages)[0].url)
  {
    var xs := SectionsOf(Survivors(pages));
    var first := Survivors(pages)[0];
    JoinStartsWithFirst(xs, Separator);
    assert xs[0] == Section(first);
    PrefixOfConcat(HeaderMark + first.url, "\n\n", TrimSpace(first.content));
    PrefixTrans(HeaderMark + first.url, xs[0], Join(xs, Separator));
  }

  /** No pages, or only a failed one, give the empty document. */
  lemma ConsolidateNothing(url: string, e: Scraper.ScrapeError)
    ensures Consolidated([]) == ""
    ensures var failed := Scraper.ScrapedPage(url, "", Some(e));
            Consolidated([failed]) == "" && |Survivors([failed])| == 0
  {
    var failed := Scraper.ScrapedPage(url, "", Some(e));
    assert [failed][..0] == [];
  }

  /** One kept page is the whole document: its header, a blank line, its
      trimmed text. */
  lemma ConsolidateOne(a: Scraper.ScrapedPage)
    requires Included(a)
    ensures Consolidated([a]) == HeaderMark + a.url + "\n\n" + TrimSpace(a.content)
    ensures |Survivors([a])| == 1
  {
    ConsolidatedSnoc([], a);
    assert [] + [a] == [a];
  }

  /** Two kept pages appear in input order with the `---` rule between them. */
  lemma ConsolidateTwo(a: Scraper.ScrapedPage, b: Scraper.ScrapedPage)
    requires Included(a) && Included(b)
    ensures Consolidated([a, b]) == Section(a) + Separator + Section(b)
    ensures |Survivors([a, b])| == 2
  {
    ConsolidatedSnoc([], a);
    assert [] + [a] == [a];
    ConsolidatedSnoc([a], b);
    assert [a] + [b] == [a, b];
  }

  /** A failed or blank page can be removed from anywhere in the input
      without changing the document or the count. */
  lemma ConsolidateSkips(before: seq<Scraper.ScrapedPage>, p: Scraper.ScrapedPage, after: seq<Scraper.ScrapedPage>)
    requires !Included(p)
    ensures Survivors(before + [p] + after) == Survivors(before + after)
    ensures Consolidated(before + [p] + after) == Consolidated(before + after)
  {
    assert Survivors([p]) == [] by {
      assert [p][..0] == [];
    }
    var x, y := Survivors(before), Survivors(after);
    assert Survivors(before + [p]) == x by {
      SurvivorsAppend(before, [p]);
    }
    assert Survivors(before + [p] + after) == x + y by {
      SurvivorsAppend(before + [p], after);
    }
    assert Survivors(before + after) == x + y by {
      SurvivorsAppend(before, after);
    }
  }

  // ----- counting sections of cached content -----

  /** The number of lines that start with `"## "`. */
  function SectionCount(lines: seq<string>): nat {
    if lines == [] then 0
    else SectionCount(lines[..|lines| - 1]) + (if HasPrefix(lines[|lines| - 1], HeaderMark) then 1 else 0)
  }

  /** `countSections`: split the content into lines and count the headers. */
  method CountSections(content: string) returns (count: int)
    ensures count == SectionCount(Lines(content))
    ensures HasPrefix(content, HeaderMark) ==> count >= 1
  {
    var lines := Lines(content);
    count := 0;
    var i := 0;
    while i < |lines|
      invariant 0 <= i <= |lines|
      invariant count == SectionCount(lines[..i])
    {
      assert lines[..i + 1][..i] == lines[..i];
      if HasPrefix(lines[i], HeaderMark) {
        count := count + 1;
      }
      i := i + 1;
    }
    assert lines[..|lines|] == lines;
    if HasPrefix(content, HeaderMark) {
      HeaderedContentCounts(content);
    }
  }

  lemma {:induction false} SectionCountAppend(a: seq<string>, b: seq<string>)
    ensures SectionCount(a + b) == SectionCount(a) + SectionCount(b)
    decreases |b|
  {
    if b == [] {
      assert a + b == a;
    } else {
      assert (a + b)[..|a + b| - 1] == a + b[..|b| - 1];
      SectionCountAppend(a, b[..|b| - 1]);
    }
  }

  /** Content that starts with a header counts at least one section. */
  lemma HeaderedContentCounts(content: string)
    requires HasPrefix(content, HeaderMark)
    ensures SectionCount(Lines(content)) >= 1
  {
    assert content == HeaderMark + content[3..];
    FirstLineHasPrefix(HeaderMark, content[3..]);
    var lines := Lines(content);
    assert lines == [lines[0]] + lines[1..];
    SectionCountAppend([lines[0]], lines[1..]);
  }

  /** A line that is not a header adds nothing to the count. */
  lemma SectionCountSkipsLine(line: string, rest: seq<string>)
    requires !HasPrefix(line, HeaderMark)
    ensures SectionCount([line] + rest) == SectionCount(rest)
  {
    assert SectionCount([line]) == 0 by {
      assert [line][..0] == [];
    }
    SectionCountAppend([line], rest);
  }

  /** The separator adds three lines, none of them a header. */
  lemma LinesAcrossSeparator(a: string, x: string)
    ensures SectionCount(Lines(a + Separator + x)) == SectionCount(Lines(a)) + SectionCount(Lines(x))
  {
    var empty, rule := "", "---";
    var tail := empty + "\n" + x;
    var mid := rule + "\n" + tail;
    var rest := empty + "\n" + mid;
    assert a + Separator + x == a + "\n" + rest;
    assert Lines(a + "\n" + rest) == Lines(a) + Lines(rest) by {
      LinesAtNewline(a, rest);
    }
    assert Lines(rest) == [empty] + Lines(mid) by {
      LinesAtNewline(empty, mid);
    }
    assert Lines(mid) == [rule] + Lines(tail) by {
      LinesAtNewline(rule, tail);
      LinesWithoutNewline(rule);
    }
    assert Lines(tail) == [empty] + Lines(x) by {
      LinesAtNewline(empty, x);
    }
    assert SectionCount(Lines(rest)) == SectionCount(Lines(x)) by {
      SectionCountSkipsLine(empty, Lines(x));
      SectionCountSkipsLine(rule, Lines(tail));
      SectionCountSkipsLine(empty, Lines(mid));
    }
    SectionCountAppend(Lines(a), Lines(rest));
  }

  /** A kept page has no newline in its URL and no line of its text that
      starts with `"## "`: its section then holds exactly one header line. */
  ghost predicate Plain(p: Scraper.ScrapedPage) {
    '\n' !in p.url && SectionCount(Lines(TrimSpace(p.content))) == 0
  }

  /** The blank line after a header adds nothing to the count. */
  lemma SectionLines(url: string, body: string)
    ensures SectionCount(Lines(HeaderMark + url + "\n\n" + body)) ==
              SectionCount(Lines(HeaderMark + url)) + SectionCount(Lines(body))
  {
    var head, empty := HeaderMark + url, "";
    var rest := empty + "\n" + body;
    assert head + "\n\n" + body == head + "\n" + rest;
    assert Lines(head + "\n" + rest) == Lines(head) + Lines(rest) by {
      LinesAtNewline(head, rest);
    }
    assert SectionCount(Lines(rest)) == SectionCount(Lines(body)) by {
      LinesAtNewline(empty, body);
      SectionCountSkipsLine(empty, Lines(body));
    }
    SectionCountAppend(Lines(head), Lines(rest));
  }

  lemma SectionHeaders(p: Scraper.ScrapedPage)
    ensures SectionCount(Lines(Section(p))) >= 1
    ensures Plain(p) ==> SectionCount(Lines(Section(p))) == 1
  {
    var head := HeaderMark + p.url;
    SectionLines(p.url, TrimSpace(p.content));
    assert SectionCount(Lines(head)) >= 1 by {
      HeaderedContentCounts(head);
    }
    if '\n' !in p.url {
      assert SectionCount(Lines(head)) == 1 by {
        assert '\n' !in head;
        LinesWithoutNewline(head);
        assert [head][..0] == [];
      }
    }
  }

  lemma {:induction false} SectionsCountHeaders(ps: seq<Scraper.ScrapedPage>)
    ensures SectionCount(Lines(Join(SectionsOf(ps), Separator))) >= |ps|
    ensures (forall p :: p in ps ==> Plain(p)) ==> SectionCount(Lines(Join(SectionsOf(ps), Separator))) == |ps|
    decreases |ps|
  {
    if ps == [] {
    } else {
      var n := |ps|;
      var init := ps[..n - 1];
      var p := ps[n - 1];
      assert ps == init + [p];
      SectionsOfSnoc(init, p);
      SectionHeaders(p);
      SectionsCountHeaders(init);
      var xs := SectionsOf(ps);
      assert xs[..n - 1] == SectionsOf(init);
      if n > 1 {
        assert Join(xs, Separator) == Join(SectionsOf(init), Separator) + Separator + Section(p);
        LinesAcrossSeparator(Join(SectionsOf(init), Separator), Section(p));
      } else {
        assert Join(xs, Separator) == Section(p);
      }
      if forall q :: q in ps ==> Plain(q) {
        assert forall q :: q in init ==> q in ps;
      }
    }
  }

  /** `countSections` of a consolidated document finds at least one header
      per kept page, and exactly one when every kept page is plain: only then
      does a later cache hit report the count the original run did. */
  lemma CountSectionsOfConsolidated(pages: seq<Scraper.ScrapedPage>)
    ensures SectionCount(Lines(Consolidated(pages))) >= |Survivors(pages)|
    ensures (forall p :: p in Survivors(pages) ==> Plain(p)) ==>
              SectionCount(Lines(Consolidated(pages))) == |Survivors(pages)|
  {
    SectionsCountHeaders(Survivors(pages));
  }

  // ----- the pipeline -----

  /** `Config`: the search engine's name and the delay between the search
      request and the page scrapes (a `time.Duration`, in nanoseconds). */
  datatype Config = Config(searchEngine: string, rateLimit: int)

  /** `SearchResult`. */
  datatype SearchResult = SearchResult(content: string, resultCount: int, fromCache: bool)

  /** The errors `Search` and `ClearCache` wrap. */
  datatype EngineError =
    | CacheGetFailed(reason: string)
    | SearchFailed(cause: Web.SearchError)
    | NoSearchResults(query: string)
    | AllPagesFailed(query: string)
    | CacheSetFailed(reason: string)
    | ClearFailed(reason: string)

  /** The stages of one run, in the order they happen. */
  datatype Step =
    | CacheLookup(key: string)
    | Discover(engine: string, count: int)
    | RateLimitWait(delay: int)
    | Fetch(urls: seq<string>)
    | Store(key: string)

  /** Everything the outside world answers during one run: the cache's read
      and write statements, the search engine's reply, URL query parsing,
      the reply to each page request, and the clock when the upsert runs
      (`CURRENT_TIMESTAMP`, read after the pause and the scrape, whereas the
      lookup judges freshness at the `now` the run starts with). */
  datatype Environment = Environment(
    lookupIo: Cache.Io,
    searchReply: Http.Reply<Web.Markup>,
    queryParam: Web.QueryParam,
    net: Scraper.Network,
    storeIo: Cache.Io,
    storeTime: int)

  /** The outcome of one run: its result, the cache table afterwards, and the
      stages it went through. */
  datatype Run = Run(result: Result<SearchResult, EngineError>, rows: Cache.Rows, trace: seq<Step>)

  function UrlsOf(hits: seq<Web.Hit>): (urls: seq<string>)
    ensures |urls| == |hits| && forall i :: 0 <= i < |hits| ==> urls[i] == hits[i].url
  {
    seq(|hits|, i requires 0 <= i < |hits| => hits[i].url)
  }

  /** The URL copy loop of `Engine.Search`: the hits' URLs, in order. */
  method CollectUrls(hits: seq<Web.Hit>) returns (urls: seq<string>)
    ensures urls == UrlsOf(hits)
  {
    var slots := new string[|hits|];
    var i := 0;
    while i < |hits|
      invariant 0 <= i <= |hits|
      invariant forall k :: 0 <= k < i ==> slots[k] == hits[k].url
    {
      slots[i] := hits[i].url;
      i := i + 1;
    }
    urls := slots[..];
  }

  /** Answers of the search module: the hits, or why the search failed. */
  type Discovery = Result<seq<Web.Hit>, Web.SearchError>

  /** The rate-limit pause, present only for a positive delay. */
  function Waits(config: Config): (w: seq<Step>)
    ensures |w| <= 1
  {
    if config.rateLimit > 0 then [RateLimitWait(config.rateLimit)] else []
  }

  /** The run `Engine.Search` performs, stage by stage, when discovery
      would answer `found`. */
  function Pipeline(config: Config, digest: Digest, rows: Cache.Rows, query: string, count: int,
                    force: bool, now: int, env: Environment, found: Discovery): Run
  {
    var key := QueryHash(digest, query);
    var probed := if force then [] else [CacheLookup(key)];
    if !force && env.lookupIo.Broken? then
      Run(Failure(CacheGetFailed(env.lookupIo.reason)), rows, probed)
    else if !force && Cache.Lookup(rows, key, now).hit then
      var content := Cache.Lookup(rows, key, now).content;
      Run(Success(SearchResult(content, SectionCount(Lines(content)), true)), rows, probed)
    else
      var asked := probed + [Discover(config.searchEngine, count)];
      match found
      case Failure(e) => Run(Failure(SearchFailed(e)), rows, asked)
      case Success(hits) =>
        if hits == [] then Run(Failure(NoSearchResults(query)), rows, asked)
        else
          var urls := UrlsOf(hits);
          var fetched := asked + Waits(config) + [Fetch(urls)];
          var pages := Scraper.Scraped(urls, env.net);
          var content := Consolidated(pages);
          if content == "" then Run(Failure(AllPagesFailed(query)), rows, fetched)
          else if env.storeIo.Broken? then
            Run(Failure(CacheSetFailed(env.storeIo.reason)), rows, fetched + [Store(key)])
          else
            Run(Success(SearchResult(content, |Survivors(pages)|, false)),
                Cache.Upsert(rows, key, content, env.storeTime), fetched + [Store(key)])
  }

  /** The key `ClearCache` deletes: `""` (everything) for the empty query,
      otherwise the query's hash. */
  function ClearKey(digest: Digest, query: string): (key: string)
    ensures key == "" <==> query == ""
  {
    if query == "" then "" else QueryHash(digest, query)
  }

  /** Every row the engine writes holds a consolidated document, which
      starts with a section header. */
  ghost predicate RowsValid(rows: Cache.Rows) {
    forall k :: k in rows ==> HasPrefix(rows[k].content, HeaderMark)
  }

  class Engine {
    const cache: Cache.Cache
    const config: Config
    const digest: Digest

    /** `engine.New`. */
    constructor (c: Cache.Cache, cfg: Config, digest: Digest)
      ensures cache == c && config == cfg && this.digest == digest
      ensures Valid() <==> RowsValid(c.rows)
    {
      cache := c;
      config := cfg;
      this.digest := digest;
    }

    ghost predicate Valid()
      reads this, cache
    {
      RowsValid(cache.rows)
    }

    /** `Engine.Search`: hash, cache check (skipped when `force`), search,
        rate-limit wait, scrape, consolidate, upsert. `trace` records the
        stages that ran. */
    method Search(query: string, count: int, force: bool, now: int, env: Environment)
      returns (r: Result<SearchResult, EngineError>, ghost trace: seq<Step>)
      modifies cache
      ensures Run(r, cache.rows, trace) ==
                Pipeline(config, digest, old(cache.rows), query, count, force, now, env,
                         Web.Discover(config.searchEngine, count, env.searchReply, env.queryParam))
      ensures old(Valid()) ==> Valid()
      ensures old(Valid()) && r.Success? ==> r.value.resultCount >= 1
    {
      ghost var found := Web.Discover(config.searchEngine, count, env.searchReply, env.queryParam);
      ghost var before := cache.rows;
      ghost var run := Pipeline(config, digest, before, query, count, force, now, env, found);
      var key := QueryHash(digest, query);
      ghost var probed: seq<Step> := if force then [] else [CacheLookup(key)];
      trace := probed;
      if !force {
        var got := cache.Get(key, now, env.lookupIo);
        if got.Failure? {
          r := Failure(CacheGetFailed(got.error));
          assert run == Run(r, before, trace);
          return;
        }
        if got.value.hit {
          var sections := CountSections(got.value.content);
          r := Success(SearchResult(got.value.content, sections, true));
          assert run == Run(r, before, trace);
          return;
        }
      }
      trace := trace + [Discover(config.searchEngine, count)];
      var answer := Web.Search(count, config.searchEngine, env.searchReply, env.queryParam);
      assert answer == found;
      if answer.Failure? {
        r := Failure(SearchFailed(answer.error));
        assert run == Run(r, before, trace);
        return;
      }
      var hits := answer.value;
      if |hits| == 0 {
        r := Failure(NoSearchResults(query));
        assert hits == [];
        assert run == Run(r, before, trace);
        return;
      }
      if config.rateLimit > 0 {
        trace := trace + [RateLimitWait(config.rateLimit)];
      }
      assert trace == probed + [Discover(config.searchEngine, count)] + Waits(config);
      var urls := CollectUrls(hits);
      trace := trace + [Fetch(urls)];
      ghost var writes;
      var pages;
      pages, writes := Scraper.Scrape(urls, env.net, Scraper.InOrder(|urls|));
      var content, resultCount := Consolidate(pages);
      if content == "" {
        r := Failure(AllPagesFailed(query));
        assert run == Run(r, before, trace);
        return;
      }
      trace := trace + [Store(key)];
      var stored := cache.Set(key, content, env.storeTime, env.storeIo);
      if stored.Fail? {
        r := Failure(CacheSetFailed(stored.error));
        assert run == Run(r, before, trace);
        return;
      }
      r := Success(SearchResult(content, resultCount, false));
      assert run == Run(r, cache.rows, trace);
      if old(Valid()) {
        PipelineKeepsRowsValid(config, digest, before, query, count, force, now, env, found);
      }
    }

    /** `Engine.ClearCache`. */
    method ClearCache(query: string, io: Cache.Io) returns (r: Outcome<EngineError>)
      modifies cache
      ensures r == if io.Ok? then Pass else Fail(ClearFailed(io.reason))
      ensures cache.rows == if io.Ok? then Cache.Evict(old(cache.rows), ClearKey(digest, query)) else old(cache.rows)
      ensures old(Valid()) ==> Valid()
    {
      var hash := "";
      if query != "" {
        hash := QueryHash(digest, query);
      }
      var cleared := cache.Clear(hash, io);
      if cleared.Fail? {
        return Fail(ClearFailed(cleared.error));
      }
      return Pass;
    }
  }

  // ----- properties of the pipeline -----

  /** The stages each run goes through, in order: the cache lookup unless
      forced; then, on a miss, discovery; with hits, the rate-limit pause
      (only for a positive delay) directly followed by one fetch of the
      discovered URLs in discovery order; and the store once a document
      exists. */
  lemma TraceShape(config: Config, digest: Digest, rows: Cache.Rows, query: string, count: int,
                   force: bool, now: int, env: Environment, found: Discovery)
    ensures var t := Pipeline(config, digest, rows, query, count, force, now, env, found).trace;
            var key := QueryHash(digest, query);
            var probed := if force then [] else [CacheLookup(key)];
            var asked := probed + [Discover(config.searchEngine, count)];
            if !force && (env.lookupIo.Broken? || Cache.Lookup(rows, key, now).hit) then t == probed
            else if found.Failure? || found.value == [] then t == asked
            else
              var fetched := asked + Waits(config) + [Fetch(UrlsOf(found.value))];
              t == fetched + (if Consolidated(Scraper.Scraped(UrlsOf(found.value), env.net)) == "" then [] else [Store(key)])
  {
  }

  /** A run that skipped the lookup and went on to fetch has no lookup step. */
  lemma MissTraceHasNoLookup(config: Config, count: int, urls: seq<string>, tail: seq<Step>)
    requires |tail| <= 1 && forall j :: 0 <= j < |tail| ==> tail[j].Store?
    ensures var t := [Discover(config.searchEngine, count)] + Waits(config) + [Fetch(urls)] + tail;
            t[0] == Discover(config.searchEngine, count) && forall k :: CacheLookup(k) !in t
  {
    var t := [Discover(config.searchEngine, count)] + Waits(config) + [Fetch(urls)] + tail;
    forall k ensures CacheLookup(k) !in t {
      if CacheLookup(k) in t {
        var j :| 0 <= j < |t| && t[j] == CacheLookup(k);
        assert false;
      }
    }
  }

  /** With `force` the cache is never read, discovery always runs first, and
      the result never claims to come from the cache. */
  lemma ForceBypassesCache(config: Config, digest: Digest, rows: Cache.Rows, query: string, count: int,
                           now: int, env: Environment, found: Discovery)
    ensures var run := Pipeline(config, digest, rows, query, count, true, now, env, found);
            && |run.trace| >= 1 && run.trace[0] == Discover(config.searchEngine, count)
            && (forall k :: CacheLookup(k) !in run.trace)
            && (run.result.Success? ==> !run.result.value.fromCache)
  {
    var run := Pipeline(config, digest, rows, query, count, true, now, env, found);
    var probed: seq<Step> := [];
    var asked := probed + [Discover(config.searchEngine, count)];
    TraceShape(config, digest, rows, query, count, true, now, env, found);
    if found.Failure? || found.value == [] {
      assert run.trace == asked;
      assert run.result.Failure?;
    } else {
      var key := QueryHash(digest, query);
      var urls := UrlsOf(found.value);
      var tail: seq<Step> := if Consolidated(Scraper.Scraped(urls, env.net)) == "" then [] else [Store(key)];
      assert run.trace == asked + Waits(config) + [Fetch(urls)] + tail;
      assert run.result.Success? ==> !run.result.value.fromCache;
      assert asked == [Discover(config.searchEngine, count)];
      MissTraceHasNoLookup(config, count, urls, tail);
    }
  }

  /** A fresh cache entry is returned unchanged, flagged as cached, with the
      number of header lines as its count; nothing else runs. */
  lemma HitServesStoredContent(config: Config, digest: Digest, rows: Cache.Rows, query: string, count: int,
                               now: int, env: Environment, found: Discovery)
    requires env.lookupIo.Ok?
    requires var key := QueryHash(digest, query); key in rows && Cache.Fresh(rows[key], now)
    ensures var key := QueryHash(digest, query);
            var content := rows[key].content;
            Pipeline(config, digest, rows, query, count, false, now, env, found)
              == Run(Success(SearchResult(content, SectionCount(Lines(content)), true)), rows, [CacheLookup(key)])
  {
  }

  /** Only a fresh, successful run writes the cache, and it writes exactly
      the returned document under the query's key: every other outcome
      leaves the table as it was. */
  lemma OnlyFreshSuccessWrites(config: Config, digest: Digest, rows: Cache.Rows, query: string, count: int,
                               force: bool, now: int, env: Environment, found: Discovery)
    ensures var run := Pipeline(config, digest, rows, query, count, force, now, env, found);
            run.rows == if run.result.Success? && !run.result.value.fromCache
                        then Cache.Upsert(rows, QueryHash(digest, query), run.result.value.content, env.storeTime)
                        else rows
  {
    var key := QueryHash(digest, query);
    var run := Pipeline(config, digest, rows, query, count, force, now, env, found);
    if !force && (env.lookupIo.Broken? || Cache.Lookup(rows, key, now).hit) {
      assert run.rows == rows;
      assert !run.result.Success? || run.result.value.fromCache;
    } else if found.Failure? || found.value == [] {
      assert run.rows == rows;
      assert !run.result.Success?;
    } else {
      var pages := Scraper.Scraped(UrlsOf(found.value), env.net);
      if Consolidated(pages) == "" {
        assert run.rows == rows;
        assert !run.result.Success?;
      } else if env.storeIo.Broken? {
        assert run.rows == rows;
        assert !run.result.Success?;
      } else {
        assert run.result.Success? && !run.result.value.fromCache;
        assert run.result.value.content == Consolidated(pages);
        assert run.rows == Cache.Upsert(rows, key, Consolidated(pages), env.storeTime);
      }
    }
  }

  /** The failure paths and their errors: a cache read error (unless forced),
      a failed search, no hits, and nothing usable scraped. */
  lemma FailurePaths(config: Config, digest: Digest, rows: Cache.Rows, query: string, count: int,
                     force: bool, now: int, env: Environment, found: Discovery)
    ensures var run := Pipeline(config, digest, rows, query, count, force, now, env, found);
            var missed := force || (env.lookupIo.Ok? && !Cache.Lookup(rows, QueryHash(digest, query), now).hit);
            && (!force && env.lookupIo.Broken? ==> run.result == Failure(CacheGetFailed(env.lookupIo.reason)))
            && (missed && found.Failure? ==> run.result == Failure(SearchFailed(found.error)))
            && (missed && found == Success([]) ==> run.result == Failure(NoSearchResults(query)))
            && (missed && found.Success? && found.value != [] &&
                Survivors(Scraper.Scraped(UrlsOf(found.value), env.net)) == [] ==>
                  run.result == Failure(AllPagesFailed(query)))
            && (missed && found.Success? && found.value != [] &&
                Survivors(Scraper.Scraped(UrlsOf(found.value), env.net)) != [] && env.storeIo.Broken? ==>
                  run.result == Failure(CacheSetFailed(env.storeIo.reason)))
  {
    if found.Success? && found.value != [] {
      ConsolidatedEmptyIff(Scraper.Scraped(UrlsOf(found.value), env.net));
    }
  }

  /** A fresh success reports the number of kept pages (at least one) and
      the consolidated document of the pages scraped from the URLs the
      search returned. */
  lemma FreshSuccessContent(config: Config, digest: Digest, rows: Cache.Rows, query: string, count: int,
                            force: bool, now: int, env: Environment, found: Discovery)
    requires var run := Pipeline(config, digest, rows, query, count, force, now, env, found);
             run.result.Success? && !run.result.value.fromCache
    ensures found.Success? && found.value != []
    ensures var run := Pipeline(config, digest, rows, query, count, force, now, env, found);
            var pages := Scraper.Scraped(UrlsOf(found.value), env.net);
            && run.result.value.content == Consolidated(pages)
            && run.result.value.resultCount == |Survivors(pages)| >= 1
  {
    ConsolidatedEmptyIff(Scraper.Scraped(UrlsOf(found.value), env.net));
  }

  /** The trace of a run that went as far as the fetch. */
  function MissTrace(config: Config, force: bool, key: string, count: int, urls: seq<string>, tail: seq<Step>): seq<Step> {
    var probed := if force then [] else [CacheLookup(key)];
    probed + [Discover(config.searchEngine, count)] + Waits(config) + [Fetch(urls)] + tail
  }

  /** Such a trace pauses at most once. */
  lemma MissTraceWaitsOnce(config: Config, force: bool, key: string, count: int, urls: seq<string>, tail: seq<Step>)
    requires tail == [] || tail == [Store(key)]
    ensures multiset(MissTrace(config, force, key, count, urls, tail))[RateLimitWait(config.rateLimit)] <= 1
  {
    var probed: seq<Step> := if force then [] else [CacheLookup(key)];
    var head := probed + [Discover(config.searchEngine, count)];
    var w := RateLimitWait(config.rateLimit);
    assert multiset(probed)[w] == 0;
    assert multiset(head)[w] == 0;
    assert multiset(tail)[w] == 0;
    assert multiset(Waits(config))[w] <= 1;
    assert multiset(MissTrace(config, force, key, count, urls, tail))
        == multiset(head) + multiset(Waits(config)) + multiset([Fetch(urls)]) + multiset(tail);
  }

  /** Such a trace pauses only for the configured, positive delay, and it
      fetches `urls`. */
  lemma MissTraceWaitsRight(config: Config, force: bool, key: string, count: int, urls: seq<string>, tail: seq<Step>)
    requires tail == [] || tail == [Store(key)]
    ensures var t := MissTrace(config, force, key, count, urls, tail);
            && (forall d :: RateLimitWait(d) in t ==> d == config.rateLimit > 0)
            && Fetch(urls) in t
  {
    var probed: seq<Step> := if force then [] else [CacheLookup(key)];
    var head := probed + [Discover(config.searchEngine, count)];
    var t := MissTrace(config, force, key, count, urls, tail);
    assert forall j :: 0 <= j < |head| ==> !head[j].RateLimitWait?;
    forall d | RateLimitWait(d) in t ensures d == config.rateLimit > 0 {
      var j :| 0 <= j < |t| && t[j] == RateLimitWait(d);
    }
    assert t[|head| + |Waits(config)|] == Fetch(urls);
  }

  /** A trace without any wait step. */
  lemma NoWaits(t: seq<Step>)
    requires forall j :: 0 <= j < |t| ==> !t[j].RateLimitWait?
    ensures forall d :: RateLimitWait(d) !in t
    ensures forall d :: multiset(t)[RateLimitWait(d)] == 0
  {
  }

  /** The rate-limit pause happens at most once, only with a positive delay,
      and never without a fetch. */
  lemma RateLimitAtMostOnce(config: Config, digest: Digest, rows: Cache.Rows, query: string, count: int,
                            force: bool, now: int, env: Environment, found: Discovery)
    ensures var t := Pipeline(config, digest, rows, query, count, force, now, env, found).trace;
            && multiset(t)[RateLimitWait(config.rateLimit)] <= 1
            && (forall d :: RateLimitWait(d) in t ==> d == config.rateLimit > 0)
            && (RateLimitWait(config.rateLimit) in t ==> found.Success? && Fetch(UrlsOf(found.value)) in t)
  {
    var t := Pipeline(config, digest, rows, query, count, force, now, env, found).trace;
    var key := QueryHash(digest, query);
    var probed: seq<Step> := if force then [] else [CacheLookup(key)];
    var asked := probed + [Discover(config.searchEngine, count)];
    TraceShape(config, digest, rows, query, count, force, now, env, found);
    if !force && (env.lookupIo.Broken? || Cache.Lookup(rows, key, now).hit) {
      assert t == probed;
      NoWaits(probed);
    } else if found.Failure? || found.value == [] {
      assert t == asked;
      NoWaits(asked);
    } else {
      var urls := UrlsOf(found.value);
      var tail: seq<Step> := if Consolidated(Scraper.Scraped(urls, env.net)) == "" then [] else [Store(key)];
      assert t == MissTrace(config, force, key, count, urls, tail);
      MissTraceWaitsOnce(config, force, key, count, urls, tail);
      MissTraceWaitsRight(config, force, key, count, urls, tail);
    }
  }

  /** Running the same query again (in any spelling with the same
      normalisation) within the TTL of the moment the document was stored
      is served from the cache: the same
      document, flagged as cached, without discovery or scraping. */
  lemma RepeatIsServedFromCache(config: Config, digest: Digest, rows: Cache.Rows, query: string, count: int,
                                force: bool, now: int, env: Environment, found: Discovery,
                                query': string, count': int, later: int, env': Environment, found': Discovery)
    requires var run := Pipeline(config, digest, rows, query, count, force, now, env, found);
             run.result.Success? && !run.result.value.fromCache
    requires Normalize(query') == Normalize(query)
    requires later - env.storeTime <= Cache.TTL && env'.lookupIo.Ok?
    ensures var run := Pipeline(config, digest, rows, query, count, force, now, env, found);
            var again := Pipeline(config, digest, run.rows, query', count', false, later, env', found');
            && again.result.Success? && again.result.value.fromCache
            && again.result.value.content == run.result.value.content
            && again.result.value.resultCount >= 1
            && again.rows == run.rows
            && again.trace == [CacheLookup(QueryHash(digest, query))]
  {
    var run := Pipeline(config, digest, rows, query, count, force, now, env, found);
    var key := QueryHash(digest, query);
    var content := run.result.value.content;
    assert run.rows == Cache.Upsert(rows, key, content, env.storeTime) by {
      OnlyFreshSuccessWrites(config, digest, rows, query, count, force, now, env, found);
    }
    assert HasPrefix(content, HeaderMark) by {
      FreshSuccessContent(config, digest, rows, query, count, force, now, env, found);
      ConsolidatedStartsWithHeader(Scraper.Scraped(UrlsOf(found.value), env.net));
    }
    assert SectionCount(Lines(content)) >= 1 by {
      HeaderedContentCounts(content);
    }
    assert QueryHash(digest, query') == key;
    assert key in run.rows && run.rows[key].content == content && Cache.Fresh(run.rows[key], later);
    HitServesStoredContent(config, digest, run.rows, query', count', later, env', found');
  }

  /** The repeat reports the same count as the run that stored the document
      when no kept page has a newline in its URL or a `"## "` line in its
      text; otherwise it may report more, never fewer. */
  lemma RepeatCountMatches(config: Config, digest: Digest, rows: Cache.Rows, query: string, count: int,
                           force: bool, now: int, env: Environment, found: Discovery,
                           later: int, env': Environment, found': Discovery)
    requires var run := Pipeline(config, digest, rows, query, count, force, now, env, found);
             run.result.Success? && !run.result.value.fromCache
    requires later - env.storeTime <= Cache.TTL && env'.lookupIo.Ok?
    ensures found.Success?
    ensures var run := Pipeline(config, digest, rows, query, count, force, now, env, found);
            var again := Pipeline(config, digest, run.rows, query, count, false, later, env', found');
            && again.result.Success?
            && again.result.value.resultCount >= run.result.value.resultCount
            && ((forall p :: p in Survivors(Scraper.Scraped(UrlsOf(found.value), env.net)) ==> Plain(p))
                ==> again.result.value.resultCount == run.result.value.resultCount)
  {
    var run := Pipeline(config, digest, rows, query, count, force, now, env, found);
    var key := QueryHash(digest, query);
    var content := run.result.value.content;
    FreshSuccessContent(config, digest, rows, query, count, force, now, env, found);
    var pages := Scraper.Scraped(UrlsOf(found.value), env.net);
    assert run.rows == Cache.Upsert(rows, key, content, env.storeTime) by {
      OnlyFreshSuccessWrites(config, digest, rows, query, count, force, now, env, found);
    }
    assert key in run.rows && run.rows[key].content == content && Cache.Fresh(run.rows[key], later);
    HitServesStoredContent(config, digest, run.rows, query, count, later, env', found');
    assert SectionCount(Lines(content)) >= run.result.value.resultCount by {
      CountSectionsOfConsolidated(pages);
    }
    if forall p :: p in Survivors(pages) ==> Plain(p) {
      assert SectionCount(Lines(content)) == run.result.value.resultCount by {
        CountSectionsOfConsolidated(pages);
      }
    }
  }

  /** The engine only ever stores consolidated documents, so a table that
      holds nothing else keeps that shape, and every success, cached or not,
      counts at least one section. */
  lemma PipelineKeepsRowsValid(config: Config, digest: Digest, rows: Cache.Rows, query: string, count: int,
                               force: bool, now: int, env: Environment, found: Discovery)
    requires RowsValid(rows)
    ensures var run := Pipeline(config, digest, rows, query, count, force, now, env, found);
            && RowsValid(run.rows)
            && (run.result.Success? ==> run.result.value.resultCount >= 1)
  {
    var key := QueryHash(digest, query);
    var run := Pipeline(config, digest, rows, query, count, force, now, env, found);
    OnlyFreshSuccessWrites(config, digest, rows, query, count, force, now, env, found);
    if !force && (env.lookupIo.Broken? || Cache.Lookup(rows, key, now).hit) {
      assert run.rows == rows;
      if env.lookupIo.Ok? {
        var content := rows[key].content;
        assert run.result == Success(SearchResult(content, SectionCount(Lines(content)), true));
        HeaderedContentCounts(content);
      }
    } else if run.result.Success? {
      FreshSuccessContent(config, digest, rows, query, count, force, now, env, found);
      var pages := Scraper.Scraped(UrlsOf(found.value), env.net);
      var content := run.result.value.content;
      assert HasPrefix(content, HeaderMark) by {
        ConsolidatedStartsWithHeader(pages);
      }
      assert run.rows == Cache.Upsert(rows, key, content, env.storeTime);
    } else {
      assert run.rows == rows;
    }
  }

  /** `ClearCache("")` empties the table; any other query, even one that is
      only white space, removes at most the row under its own key. */
  lemma ClearCacheScope(digest: Digest, rows: Cache.Rows, query: string, other: string, now: int)
    ensures query == "" ==> Cache.Evict(rows, ClearKey(digest, query)) == map[]
    ensures query != "" ==> QueryHash(digest, query) !in Cache.Evict(rows, ClearKey(digest, query))
    ensures query != "" && other != QueryHash(digest, query) ==>
              Cache.Lookup(Cache.Evict(rows, ClearKey(digest, query)), other, now) == Cache.Lookup(rows, other, now)
  {
  }
}
