/** internal/scraper: fetch every URL once and keep each page's readable
    text, one result slot per URL. The network and go-readability are the
    `Network` parameter: the reply each URL's request gets. */
module Scraper {

  import opened Wrappers
  import Http

  /** What go-readability made of a 200 response body: the article's text
      content, or the reason it could not parse the page. */
  type Extraction = Result<string, string>

  /** The reply the request for each URL gets (request build error, transport
      error or timeout, or a response and its extracted text). */
  type Network = string -> Http.Reply<Extraction>

  /** The four ways `scrapeSingle` fails. */
  datatype ScrapeError =
    | CreateRequest(reason: string)
    | HttpGet(url: string, reason: string)
    | UnexpectedStatus(status: int, url: string)
    | ReadabilityParse(url: string, reason: string)

  /** `ScrapedPage`: the URL, its text, and the error if scraping failed. */
  datatype ScrapedPage = ScrapedPage(url: string, content: string, err: Option<ScrapeError>)

  /** `scrapeSingle`: text only for a 200 response whose extraction worked;
      every other reply is an error. */
  function ScrapeSingle(url: string, reply: Http.Reply<Extraction>): (r: Result<string, ScrapeError>)
    ensures r.Success? <==> reply.Response? && reply.status == Http.StatusOK && reply.body.Success?
    ensures r.Success? ==> r.value == reply.body.value
  {
    match reply
    case RequestError(reason) => Failure(CreateRequest(reason))
    case TransportError(reason) => Failure(HttpGet(url, reason))
    case Response(status, body) =>
      if status != Http.StatusOK then Failure(UnexpectedStatus(status, url))
      else match body
        case Failure(reason) => Failure(ReadabilityParse(url, reason))
        case Success(text) => Success(text)
  }

  /** The slot `Scrape` writes for one URL: Go's `(content, err)` pair, with
      content `""` whenever there is an error. */
  function PageOf(url: string, reply: Http.Reply<Extraction>): (p: ScrapedPage)
    ensures p.url == url
    ensures p.err.None? <==> reply.Response? && reply.status == Http.StatusOK && reply.body.Success?
    ensures p.err.Some? ==> p.content == ""
    ensures p.err.None? ==> p.content == reply.body.value
  {
    match ScrapeSingle(url, reply)
    case Success(text) => ScrapedPage(url, text, None)
    case Failure(e) => ScrapedPage(url, "", Some(e))
  }

  /** The results of scraping `urls`: slot `i` is the page of `urls[i]`. */
  function Scraped(urls: seq<string>, net: Network): (pages: seq<ScrapedPage>)
    ensures |pages| == |urls|
  {
    seq(|urls|, i requires 0 <= i < |urls| => PageOf(urls[i], net(urls[i])))
  }

  /** An order in which the `n` goroutines can finish: every slot index
      exactly once. */
  ghost predicate IsCompletionOrder(order: seq<nat>, n: nat) {
    && |order| == n
    && (forall j :: 0 <= j < n ==> order[j] < n)
    && (forall j, j' :: 0 <= j < j' < n ==> order[j] != order[j'])
    && (forall k :: 0 <= k < n ==> k in order)
  }

  /** The goroutines finishing in the order they were started. */
  function InOrder(n: nat): (order: seq<nat>)
    ensures IsCompletionOrder(order, n)
  {
    var order := seq(n, i requires 0 <= i < n => i);
    assert forall k :: 0 <= k < n ==> order[k] == k;
    assert forall k :: 0 <= k < n ==> k in order by {
      forall k | 0 <= k < n ensures k in order {
        assert order[k] == k;
      }
    }
    order
  }

  /** `Scrape`: one goroutine per URL writes `results[idx]` for its own
      index; the goroutines finish in the order `completion` and `Scrape`
      returns after all of them. Whatever that order, the result is the same:
      one page per URL, at the URL's index. `writes` counts the writes to
      each slot. */
  method Scrape(urls: seq<string>, net: Network, completion: seq<nat>)
    returns (pages: seq<ScrapedPage>, ghost writes: seq<nat>)
    requires IsCompletionOrder(completion, |urls|)
    ensures pages == Scraped(urls, net)
    ensures |pages| == |urls| && forall i :: 0 <= i < |urls| ==> pages[i].url == urls[i]
    ensures |writes| == |urls| && forall i :: 0 <= i < |urls| ==> writes[i] == 1
  {
    var n := |urls|;
    var results := new ScrapedPage[n];
    writes := seq(n, _ => 0);
    var j := 0;
    while j < n
      invariant 0 <= j <= n
      invariant |writes| == n
      invariant forall k :: 0 <= k < n ==> writes[k] == if k in completion[..j] then 1 else 0
      invariant forall k :: 0 <= k < n && k in completion[..j] ==> results[k] == PageOf(urls[k], net(urls[k]))
    {
      var idx := completion[j];
      assert idx !in completion[..j];
      results[idx] := PageOf(urls[idx], net(urls[idx]));
      writes := writes[idx := writes[idx] + 1];
      assert completion[..j + 1] == completion[..j] + [idx];
      j := j + 1;
    }
    assert completion[..n] == completion;
    pages := results[..];
  }

  // ----- properties -----

  /** Slot `i` depends on nothing but the reply to `urls[i]`: another URL's
      failure (any change of the network elsewhere) leaves it unchanged. */
  lemma SlotIndependence(urls: seq<string>, net: Network, net': Network, i: int)
    requires 0 <= i < |urls|
    requires net(urls[i]) == net'(urls[i])
    ensures Scraped(urls, net)[i] == Scraped(urls, net')[i]
  {
  }

  /** Scraping no URL gives no page. */
  lemma ScrapeEmpty(net: Network)
    ensures Scraped([], net) == []
  {
  }

  /** Every failure of `scrapeSingle` comes back with empty text. */
  lemma FailureHasNoText(url: string, reply: Http.Reply<Extraction>)
    ensures ScrapeSingle(url, reply).Failure? ==> PageOf(url, reply).content == ""
    ensures reply.Response? && reply.status != Http.StatusOK ==>
              ScrapeSingle(url, reply) == Failure(UnexpectedStatus(reply.status, url))
  {
  }
}
