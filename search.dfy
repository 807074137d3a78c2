/** internal/search: turn a search engine's result page into an ordered,
    capped list of `{URL, Title}` results. The HTML page is given as the
    three element lists the selectors pick out of it, in document order; the
    request URL, the HTTP exchange and goquery are not modelled. */
module Search {

  import opened Wrappers
  import opened Text
  import Http

  /** `search.Result`. */
  datatype Hit = Hit(url: string, title: string)

  /** One `div.g` element: the `href` of its first `a` (absent when there is
      no anchor or no attribute), that anchor's text, and the text of its
      first `h3` (`""` when there is none). */
  datatype Block = Block(href: Option<string>, linkText: string, headingText: string)

  /** One `a` element: its `href` attribute, if any, and its text. */
  datatype Anchor = Anchor(href: Option<string>, text: string)

  /** A parsed result page: the `div.g` blocks, every `a` element, and the
      `a.result__a` elements. */
  datatype Document = Document(blocks: seq<Block>, anchors: seq<Anchor>, resultLinks: seq<Anchor>)

  /** What goquery made of a response body. */
  type Markup = Result<Document, string>

  /** `url.Parse(href)` followed by `.Query().Get(name)`: `None` when the
      URL does not parse, otherwise the parameter (`""` when absent). */
  type QueryParam = (string, string) -> Option<string>

  /** The ways `fetchDocument` fails. */
  datatype FetchError =
    | CreateRequest(reason: string)
    | HttpGet(reason: string)
    | UnexpectedStatus(status: int)
    | ParseHtml(reason: string)

  /** The wrapped errors of `searchGoogle` and `searchDuckDuckGo`. */
  datatype SearchError = GoogleFailed(cause: FetchError) | DuckDuckGoFailed(cause: FetchError)

  /** `fetchDocument`: a document only from a 200 response that parses. */
  function FetchDocument(reply: Http.Reply<Markup>): (r: Result<Document, FetchError>)
    ensures r.Success? <==> reply.Response? && reply.status == Http.StatusOK && reply.body.Success?
    ensures r.Success? ==> r.value == reply.body.value
  {
    match reply
    case RequestError(reason) => Failure(CreateRequest(reason))
    case TransportError(reason) => Failure(HttpGet(reason))
    case Response(status, body) =>
      if status != Http.StatusOK then Failure(UnexpectedStatus(status))
      else match body
        case Failure(reason) => Failure(ParseHtml(reason))
        case Success(doc) => Success(doc)
  }

  // ----- element filters -----

  /** The hits `pick` accepts, in the order of `xs`. */
  function Collect<T>(xs: seq<T>, pick: T -> Option<Hit>): seq<Hit> {
    if xs == [] then []
    else
      var init := Collect(xs[..|xs| - 1], pick);
      match pick(xs[|xs| - 1])
      case Some(h) => init + [h]
      case None => init
  }

  /** The first `count` elements of `hits`; none when `count <= 0`. */
  function Take(hits: seq<Hit>, count: int): (r: seq<Hit>)
    ensures r <= hits
    ensures |r| == if count <= 0 then 0 else if |hits| <= count then |hits| else count
  {
    if count <= 0 then [] else if |hits| <= count then hits else hits[..count]
  }

  /** The primary Google filter on one `div.g`: its first link, unless it is
      missing, empty, site-relative or on google.com; titled by the `h3`
      text, or by the link text when the `h3` text is empty. */
  function PrimaryPick(b: Block): Option<Hit> {
    match b.href
    case None => None
    case Some(href) =>
      if href == "" || HasPrefix(href, "/") || Contains(href, "google.com") then None
      else
        var title := if b.headingText == "" then b.linkText else b.headingText;
        Some(Hit(href, TrimSpace(title)))
  }

  /** The fallback Google filter on one `a`: a `/url?` redirect is replaced
      by its `q` parameter when it parses; the link must then be absolute
      http(s), off google.com and youtube.com, and have a trimmed title of
      1 to 200 bytes. */
  function FallbackPick(param: QueryParam, a: Anchor): Option<Hit> {
    match a.href
    case None => None
    case Some(raw) =>
      var href := if HasPrefix(raw, "/url?") && param(raw, "q").Some? then param(raw, "q").value else raw;
      var title := TrimSpace(a.text);
      if href == "" || !HasPrefix(href, "http") then None
      else if Contains(href, "google.com") || Contains(href, "youtube.com") then None
      else if title == "" || Utf8Len(title) > 200 then None
      else Some(Hit(href, title))
  }

  /** `FallbackPick` for one page, as the function the loop applies. */
  function FallbackPicker(param: QueryParam): Anchor -> Option<Hit> {
    a => FallbackPick(param, a)
  }

  /** The DuckDuckGo filter on one `a.result__a`: skip a missing or empty
      `href`; unwrap a `duckduckgo.com/l/?` redirect to its `uddg` parameter
      when that is present and non-empty; the title is the trimmed text, and
      may be empty. */
  function DuckPick(param: QueryParam, a: Anchor): Option<Hit> {
    match a.href
    case None => None
    case Some(raw) =>
      if raw == "" then None
      else
        var unwrap := Contains(raw, "duckduckgo.com/l/?") && param(raw, "uddg").Some? && param(raw, "uddg").value != "";
        Some(Hit(if unwrap then param(raw, "uddg").value else raw, TrimSpace(a.text)))
  }

  function DuckPicker(param: QueryParam): Anchor -> Option<Hit> {
    a => DuckPick(param, a)
  }

  // ----- what each engine returns -----

  /** The Google results of a page: the primary filter, or the fallback
      filter over all anchors when the primary one found nothing. */
  function GoogleHits(doc: Document, count: int, param: QueryParam): seq<Hit> {
    var primary := Take(Collect(doc.blocks, PrimaryPick), count);
    if primary == [] then Take(Collect(doc.anchors, FallbackPicker(param)), count) else primary
  }

  function DuckHits(doc: Document, count: int, param: QueryParam): seq<Hit> {
    Take(Collect(doc.resultLinks, DuckPicker(param)), count)
  }

  /** The engine names that select DuckDuckGo, compared lower-cased. */
  predicate UsesDuckDuckGo(engine: string) {
    ToLower(engine) == "duckduckgo" || ToLower(engine) == "ddg"
  }

  /** What `Search` returns for an engine name, a count and the reply to its
      one request. */
  function Discover(engine: string, count: int, reply: Http.Reply<Markup>, param: QueryParam): Result<seq<Hit>, SearchError> {
    match FetchDocument(reply)
    case Failure(e) => Failure(if UsesDuckDuckGo(engine) then DuckDuckGoFailed(e) else GoogleFailed(e))
    case Success(doc) => Success(if UsesDuckDuckGo(engine) then DuckHits(doc, count, param) else GoogleHits(doc, count, param))
  }

  // ----- the imperative parsers -----

  /** One `Each` pass: visit the elements in document order and append the
      accepted hits while fewer than `count` have been collected. */
  method Gather<T>(xs: seq<T>, pick: T -> Option<Hit>, count: int) returns (hits: seq<Hit>)
    ensures hits == Take(Collect(xs, pick), count)
  {
    hits := [];
    var i := 0;
    while i < |xs|
      invariant 0 <= i <= |xs|
      invariant hits == Take(Collect(xs[..i], pick), count)
    {
      assert xs[..i + 1][..i] == xs[..i];
      if |hits| < count {
        match pick(xs[i]) {
          case Some(h) => hits := hits + [h];
          case None =>
        }
      }
      i := i + 1;
    }
    assert xs[..|xs|] == xs;
  }

  /** `searchGoogle`; the fallback pass runs only when the primary one
      collected nothing. */
  method SearchGoogle(count: int, reply: Http.Reply<Markup>, param: QueryParam) returns (r: Result<seq<Hit>, SearchError>)
    ensures FetchDocument(reply).Failure? ==> r == Failure(GoogleFailed(FetchDocument(reply).error))
    ensures FetchDocument(reply).Success? ==> r == Success(GoogleHits(FetchDocument(reply).value, count, param))
  {
    var fetched := FetchDocument(reply);
    if fetched.Failure? {
      return Failure(GoogleFailed(fetched.error));
    }
    var doc := fetched.value;
    var results := Gather(doc.blocks, PrimaryPick, count);
    if |results| == 0 {
      results := Gather(doc.anchors, FallbackPicker(param), count);
    }
    return Success(results);
  }

  /** `searchDuckDuckGo`. */
  method SearchDuckDuckGo(count: int, reply: Http.Reply<Markup>, param: QueryParam) returns (r: Result<seq<Hit>, SearchError>)
    ensures FetchDocument(reply).Failure? ==> r == Failure(DuckDuckGoFailed(FetchDocument(reply).error))
    ensures FetchDocument(reply).Success? ==> r == Success(DuckHits(FetchDocument(reply).value, count, param))
  {
    var fetched := FetchDocument(reply);
    if fetched.Failure? {
      return Failure(DuckDuckGoFailed(fetched.error));
    }
    var results := Gather(fetched.value.resultLinks, DuckPicker(param), count);
    return Success(results);
  }

  /** `Search`: dispatch on the lower-cased engine name. */
  method Search(count: int, engine: string, reply: Http.Reply<Markup>, param: QueryParam) returns (r: Result<seq<Hit>, SearchError>)
    ensures r == Discover(engine, count, reply, param)
  {
    var name := ToLower(engine);
    if name == "duckduckgo" || name == "ddg" {
      r := SearchDuckDuckGo(count, reply, param);
    } else {
      r := SearchGoogle(count, reply, param);
    }
  }

  // ----- properties -----

  /** Collecting is compositional: the hits of a concatenation are the hits
      of each part, in order. */
  lemma {:induction false} CollectAppend<T>(xs: seq<T>, ys: seq<T>, pick: T -> Option<Hit>)
    ensures Collect(xs + ys, pick) == Collect(xs, pick) + Collect(ys, pick)
    decreases |ys|
  {
    if ys == [] {
      assert xs + ys == xs;
    } else {
      var n := |ys|;
      assert (xs + ys)[..|xs + ys| - 1] == xs + ys[..n - 1];
      assert (xs + ys)[|xs + ys| - 1] == ys[n - 1];
      CollectAppend(xs, ys[..n - 1], pick);
    }
  }

  /** Every collected hit is what `pick` made of some element. */
  lemma {:induction false} CollectSound<T>(xs: seq<T>, pick: T -> Option<Hit>, h: Hit)
    requires h in Collect(xs, pick)
    ensures exists i :: 0 <= i < |xs| && pick(xs[i]) == Some(h)
  {
    var n := |xs|;
    if h in Collect(xs[..n - 1], pick) {
      CollectSound(xs[..n - 1], pick, h);
      var i :| 0 <= i < n - 1 && pick(xs[..n - 1][i]) == Some(h);
      assert xs[..n - 1][i] == xs[i];
    } else {
      assert pick(xs[n - 1]) == Some(h);
    }
  }

  /** An element `pick` accepts is collected, unless the cap is reached:
      whatever the filter accepts is kept, in document order. */
  lemma {:induction false} CollectComplete<T>(xs: seq<T>, pick: T -> Option<Hit>, i: int)
    requires 0 <= i < |xs| && pick(xs[i]).Some?
    ensures pick(xs[i]).value in Collect(xs, pick)
  {
    assert xs == xs[..i] + [xs[i]] + xs[i + 1..];
    CollectAppend(xs[..i] + [xs[i]], xs[i + 1..], pick);
    CollectAppend(xs[..i], [xs[i]], pick);
    assert [xs[i]][..0] == [];
  }

  /** No engine returns more than `count` results, and none for
      `count <= 0`; a failed fetch is an error for either engine. */
  lemma DiscoverCapped(engine: string, count: int, reply: Http.Reply<Markup>, param: QueryParam)
    ensures Discover(engine, count, reply, param).Success? ==>
              |Discover(engine, count, reply, param).value| <= if count <= 0 then 0 else count
    ensures Discover(engine, count, reply, param).Failure? <==>
              !(reply.Response? && reply.status == Http.StatusOK && reply.body.Success?)
  {
  }

  /** A page with none of the selected elements gives no result and no error. */
  lemma EmptyPage(engine: string, count: int, param: QueryParam)
    ensures Discover(engine, count, Http.Response(Http.StatusOK, Success(Document([], [], []))), param) == Success([])
  {
  }

  /** The fallback filter is consulted only when the primary one finds nothing. */
  lemma FallbackOnlyWhenPrimaryEmpty(doc: Document, count: int, param: QueryParam)
    ensures Take(Collect(doc.blocks, PrimaryPick), count) != [] ==>
              GoogleHits(doc, count, param) == Take(Collect(doc.blocks, PrimaryPick), count)
    ensures Take(Collect(doc.blocks, PrimaryPick), count) == [] ==>
              GoogleHits(doc, count, param) == Take(Collect(doc.anchors, FallbackPicker(param)), count)
  {
  }

  /** What the primary filter keeps: a non-empty link that is not
      site-relative and not on google.com. */
  lemma PrimaryHitsSound(doc: Document, count: int, h: Hit)
    requires h in Take(Collect(doc.blocks, PrimaryPick), count)
    ensures h.url != "" && !HasPrefix(h.url, "/") && !Contains(h.url, "google.com")
    ensures exists i :: 0 <= i < |doc.blocks| && doc.blocks[i].href == Some(h.url)
  {
    CollectSound(doc.blocks, PrimaryPick, h);
  }

  /** What the fallback filter keeps: an absolute http(s) link off google.com
      and youtube.com, with a non-empty title of at most 200 bytes. */
  lemma FallbackHitsSound(doc: Document, count: int, param: QueryParam, h: Hit)
    requires h in Take(Collect(doc.anchors, FallbackPicker(param)), count)
    ensures HasPrefix(h.url, "http") && !Contains(h.url, "google.com") && !Contains(h.url, "youtube.com")
    ensures h.title != "" && Utf8Len(h.title) <= 200
  {
    CollectSound(doc.anchors, FallbackPicker(param), h);
    var i :| 0 <= i < |doc.anchors| && FallbackPicker(param)(doc.anchors[i]) == Some(h);
    assert FallbackPick(param, doc.anchors[i]) == Some(h);
  }

  /** What the DuckDuckGo filter keeps: a non-empty link, which is the
      anchor's own `href` or the `uddg` parameter of a redirect. */
  lemma DuckHitsSound(doc: Document, count: int, param: QueryParam, h: Hit)
    requires h in DuckHits(doc, count, param)
    ensures h.url != ""
    ensures exists i :: 0 <= i < |doc.resultLinks| && doc.resultLinks[i].href.Some? &&
              (h.url == doc.resultLinks[i].href.value || Some(h.url) == param(doc.resultLinks[i].href.value, "uddg"))
  {
    CollectSound(doc.resultLinks, DuckPicker(param), h);
    var i :| 0 <= i < |doc.resultLinks| && DuckPicker(param)(doc.resultLinks[i]) == Some(h);
    DuckPickSound(param, doc.resultLinks[i], h);
  }

  lemma DuckPickSound(param: QueryParam, a: Anchor, h: Hit)
    requires DuckPick(param, a) == Some(h)
    ensures h.url != "" && a.href.Some?
    ensures h.url == a.href.value || Some(h.url) == param(a.href.value, "uddg")
  {
  }

  /** The engine name is compared case-insensitively: "duckduckgo" and "ddg"
      in any case select DuckDuckGo, and every other name Google. */
  lemma EngineSelection()
    ensures UsesDuckDuckGo("duckduckgo") && UsesDuckDuckGo("DuckDuckGo") && UsesDuckDuckGo("ddg") && UsesDuckDuckGo("DDG")
    ensures !UsesDuckDuckGo("google") && !UsesDuckDuckGo("") && !UsesDuckDuckGo("bing")
  {
  }

  lemma EngineNameCaseInsensitive(engine: string)
    ensures UsesDuckDuckGo(ToLower(engine)) == UsesDuckDuckGo(engine)
  {
    ToLowerIdempotent(engine);
  }
}
