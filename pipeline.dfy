/** The page loop of the script (film_scraper.py:35-91): fetch each page of the feed,
    extract every film card of a loaded page, gate each record on its title, and
    reduce the collected list to distinct records at the end.

    The HTML parser is a parameter, `parse(html)`, giving the film cards of a page in
    document order; the network is the `server` of the Fetcher module. */
module Pipeline {
  import opened Wrappers
  import opened Strings
  import opened Fetcher
  import opened Extractor
  import opened Dedup

  /** The feed the script scrapes. */
  const BaseUrl: string := "https://rutube.ru/feeds/top/"
  /** How many pages it requests. */
  const NumPages: int := 3

  /** Gives the film-card nodes of a page's HTML, in page order. */
  type Parser = string -> seq<ItemNode>

  /** The URL of page `page`: the base URL, then `?page=`, then the page number in decimal. */
  function PageUrl(base: string, page: nat): (url: string)
    ensures |base| <= |url| && url[..|base|] == base
  {
    base + "?page=" + DecimalString(page)
  }

  /** Different pages have different URLs. */
  lemma PageUrlInjective(base: string, a: nat, b: nat)
    requires PageUrl(base, a) == PageUrl(base, b)
    ensures a == b
  {
    var prefix := base + "?page=";
    assert PageUrl(base, a)[|prefix|..] == DecimalString(a);
    assert PageUrl(base, b)[|prefix|..] == DecimalString(b);
    DecimalInjective(a, b);
  }

  /** The truth test on the fetch result: `None` and the empty page both count as not loaded. */
  predicate Loaded(html: Option<string>) {
    html.Some? && html.value != ""
  }

  /** The records extracted from page `page`: none unless the page loaded. */
  function PageRecords(server: Server, parse: Parser, base: string, page: nat): seq<Record> {
    var html := Fetch(server, PageUrl(base, page), Retries).html;
    if Loaded(html) then ExtractAll(parse(html.value)) else []
  }

  /** Every record extracted from pages 1..n, page after page, before any dedup. */
  function Collected(server: Server, parse: Parser, base: string, n: int): seq<Record>
    decreases n
  {
    if n <= 0 then [] else Collected(server, parse, base, n - 1) + PageRecords(server, parse, base, n)
  }

  /** `url` requested `k` times in a row. */
  function Repeat(url: string, k: nat): (log: seq<string>)
    ensures |log| == k && forall i :: 0 <= i < k ==> log[i] == url
  {
    seq(k, _ => url)
  }

  /** Every GET issued for pages 1..n, in the order issued. */
  function RequestLog(server: Server, base: string, n: int): seq<string>
    decreases n
  {
    if n <= 0 then []
    else
      var url := PageUrl(base, n);
      RequestLog(server, base, n - 1) + Repeat(url, Fetch(server, url, Retries).requests)
  }

  /** The pauses of page `page`: those of its fetch, and one more when it loaded. */
  function PagePauses(server: Server, base: string, page: nat): nat {
    var r := Fetch(server, PageUrl(base, page), Retries);
    Pauses(r) + if Loaded(r.html) then 1 else 0
  }

  /** Every pause taken for pages 1..n. */
  function PauseCount(server: Server, base: string, n: int): nat
    decreases n
  {
    if n <= 0 then 0 else PauseCount(server, base, n - 1) + PagePauses(server, base, n)
  }

  /** A run over no pages collects, requests and pauses nothing. */
  lemma NoPages(server: Server, parse: Parser, base: string, n: int)
    requires n <= 0
    ensures Collected(server, parse, base, n) == []
    ensures RequestLog(server, base, n) == []
    ensures PauseCount(server, base, n) == 0
  {
  }

  /** A page whose fetch gave `None` or an empty body adds no record, leaves the
      collected list as it was and adds no title. */
  lemma UnloadedPageAddsNothing(server: Server, parse: Parser, base: string, page: nat)
    requires 1 <= page && !Loaded(Fetch(server, PageUrl(base, page), Retries).html)
    ensures Collected(server, parse, base, page) == Collected(server, parse, base, page - 1)
    ensures KeepFirstByTitle(Collected(server, parse, base, page))
         == KeepFirstByTitle(Collected(server, parse, base, page - 1))
  {
  }

  /** A run of `k` requests for `url` holds `url` `k` times and nothing else. */
  lemma {:induction false} RepeatCount(url: string, k: nat, u: string)
    ensures multiset(Repeat(url, k))[u] == if u == url then k else 0
  {
    if k > 0 {
      assert Repeat(url, k) == Repeat(url, k - 1) + [url];
      RepeatCount(url, k - 1, u);
    }
  }

  /** The GETs of a run over pages 1..n: page URLs only, in ascending page order,
      between n and `Retries * n` of them. */
  lemma {:induction false} RequestLogShape(server: Server, base: string, n: int)
    ensures var log := RequestLog(server, base, n);
      && (n >= 0 ==> n <= |log| <= Retries * n)
      && (forall i, j :: 0 <= i <= j < |log| ==>
            exists p: nat, q: nat :: 1 <= p <= q <= n && log[i] == PageUrl(base, p) && log[j] == PageUrl(base, q))
    decreases n
  {
    if n > 0 {
      var prev := RequestLog(server, base, n - 1);
      var url := PageUrl(base, n);
      var k := Fetch(server, url, Retries).requests;
      var log := RequestLog(server, base, n);
      assert log == prev + Repeat(url, k);
      RequestLogShape(server, base, n - 1);
      FetchSpec(server, url, Retries);
      forall i, j | 0 <= i <= j < |log|
        ensures exists p: nat, q: nat :: 1 <= p <= q <= n && log[i] == PageUrl(base, p) && log[j] == PageUrl(base, q)
      {
        if j < |prev| {
          assert log[i] == prev[i] && log[j] == prev[j];
        } else if i < |prev| {
          // The shape of `prev` for the pair (i, i) gives the page of request i.
          var p: nat, p': nat :| 1 <= p <= p' <= n - 1 && prev[i] == PageUrl(base, p) && prev[i] == PageUrl(base, p');
          assert log[i] == PageUrl(base, p) && log[j] == PageUrl(base, n);
        } else {
          assert log[i] == PageUrl(base, n) && log[j] == PageUrl(base, n);
        }
      }
    }
  }

  /** Every page 1..n is requested exactly as often as its fetch asked for it, which is
      between one and `Retries` times, and no page after n is requested. */
  lemma {:induction false} RequestsPerPage(server: Server, base: string, n: int)
    ensures forall p: nat :: 1 <= p <= n ==>
      multiset(RequestLog(server, base, n))[PageUrl(base, p)] == Fetch(server, PageUrl(base, p), Retries).requests
    ensures forall p: nat :: 1 <= p <= n ==> 1 <= multiset(RequestLog(server, base, n))[PageUrl(base, p)] <= Retries
    ensures forall p: nat :: n < p ==> PageUrl(base, p) !in RequestLog(server, base, n)
    decreases n
  {
    if n > 0 {
      var prev := RequestLog(server, base, n - 1);
      var url := PageUrl(base, n);
      var k := Fetch(server, url, Retries).requests;
      var log := RequestLog(server, base, n);
      assert log == prev + Repeat(url, k);
      RequestsPerPage(server, base, n - 1);
      RequestsStep(base, prev, k, n, p => Fetch(server, PageUrl(base, p), Retries).requests);
    }
    forall p: nat | 1 <= p <= n ensures 1 <= Fetch(server, PageUrl(base, p), Retries).requests <= Retries {
      FetchRequestsBound(server, PageUrl(base, p));
    }
  }

  /** A fetch issues between one and `Retries` GETs. */
  lemma FetchRequestsBound(server: Server, url: string)
    ensures 1 <= Fetch(server, url, Retries).requests <= Retries
  {
    FetchSpec(server, url, Retries);
  }

  /** A fetch whose every attempt fails issues `Retries` GETs and returns nothing. */
  lemma FetchAllFail(server: Server, url: string)
    requires forall k: nat :: k < Retries ==> server(url, k).status != 200
    ensures Fetch(server, url, Retries) == FetchResult(None, Retries)
    ensures Pauses(Fetch(server, url, Retries)) == Retries
  {
    FetchSpec(server, url, Retries);
  }

  /** One step of `RequestsPerPage`: appending the `count(n)` GETs of page n to a log
      holding `count(p)` GETs of each earlier page p and none of later pages. */
  lemma RequestsStep(base: string, prev: seq<string>, k: nat, n: nat, count: nat -> nat)
    requires 1 <= n && k == count(n)
    requires forall p: nat :: 1 <= p < n ==> multiset(prev)[PageUrl(base, p)] == count(p)
    requires forall p: nat :: n - 1 < p ==> PageUrl(base, p) !in prev
    ensures forall p: nat :: 1 <= p <= n ==> multiset(prev + Repeat(PageUrl(base, n), k))[PageUrl(base, p)] == count(p)
    ensures forall p: nat :: n < p ==> PageUrl(base, p) !in prev + Repeat(PageUrl(base, n), k)
  {
    var log := prev + Repeat(PageUrl(base, n), k);
    forall p: nat | 1 <= p <= n ensures multiset(log)[PageUrl(base, p)] == count(p) {
      PageCount(base, prev, k, n, p);
    }
    forall p: nat | n < p ensures PageUrl(base, p) !in log {
      PageCount(base, prev, k, n, p);
    }
  }

  /** Appending the GETs of page n changes only the count of page n's URL. */
  lemma PageCount(base: string, prev: seq<string>, k: nat, n: nat, p: nat)
    requires 1 <= p && PageUrl(base, n) !in prev
    ensures multiset(prev + Repeat(PageUrl(base, n), k))[PageUrl(base, p)]
         == multiset(prev)[PageUrl(base, p)] + if p == n then k else 0
  {
    RepeatCount(PageUrl(base, n), k, PageUrl(base, p));
    if PageUrl(base, p) == PageUrl(base, n) {
      PageUrlInjective(base, p, n);
    }
  }

  /** When every request for every page fails, nothing is collected, every page is
      tried `Retries` times and every attempt is followed by a pause. */
  lemma AllPagesFail(server: Server, parse: Parser, base: string, n: int)
    requires forall p: nat, k: nat :: 1 <= p <= n && k < Retries ==> server(PageUrl(base, p), k).status != 200
    ensures Collected(server, parse, base, n) == []
    ensures n >= 0 ==> |RequestLog(server, base, n)| == PauseCount(server, base, n) == Retries * n
    ensures forall p: nat :: 1 <= p <= n ==> multiset(RequestLog(server, base, n))[PageUrl(base, p)] == Retries
  {
    AllPagesFailTotals(server, parse, base, n);
    RequestsPerPage(server, base, n);
    forall p: nat | 1 <= p <= n
      ensures Fetch(server, PageUrl(base, p), Retries).requests == Retries
    {
      FetchAllFail(server, PageUrl(base, p));
    }
  }

  /** The totals of `AllPagesFail`, by induction on the pages. */
  lemma {:induction false} AllPagesFailTotals(server: Server, parse: Parser, base: string, n: int)
    requires forall p: nat, k: nat :: 1 <= p <= n && k < Retries ==> server(PageUrl(base, p), k).status != 200
    ensures Collected(server, parse, base, n) == []
    ensures n >= 0 ==> |RequestLog(server, base, n)| == PauseCount(server, base, n) == Retries * n
    decreases n
  {
    if n > 0 {
      AllPagesFailTotals(server, parse, base, n - 1);
      FetchAllFail(server, PageUrl(base, n));
    }
  }

  /** The script's own page URLs (film_scraper.py:30, 36): the top feed with
      `?page=1` to `?page=3`. */
  lemma ScriptUrls()
    ensures PageUrl(BaseUrl, 1) == "https://rutube.ru/feeds/top/?page=1"
    ensures PageUrl(BaseUrl, 2) == "https://rutube.ru/feeds/top/?page=2"
    ensures PageUrl(BaseUrl, 3) == "https://rutube.ru/feeds/top/?page=3"
  {
    assert DecimalString(1) == "1" && DecimalString(2) == "2" && DecimalString(3) == "3";
  }

  /** The script's own run (film_scraper.py:30-38): each of pages 1 to 3 is requested
      between one and three times, so between three and nine GETs in all. */
  lemma ScriptRequests(server: Server)
    ensures 3 <= |RequestLog(server, BaseUrl, NumPages)| <= 9
    ensures forall p: nat :: 1 <= p <= 3 ==> 1 <= multiset(RequestLog(server, BaseUrl, NumPages))[PageUrl(BaseUrl, p)] <= 3
  {
    RequestLogShape(server, BaseUrl, NumPages);
    RequestsPerPage(server, BaseUrl, NumPages);
  }

  /** The script requests nothing but the URLs of pages 1 to 3. */
  lemma ScriptRequestsOnlyPages(server: Server)
    ensures forall u :: u in RequestLog(server, BaseUrl, NumPages) ==> exists p: nat :: 1 <= p <= 3 && u == PageUrl(BaseUrl, p)
  {
    var n := NumPages;
    RequestLogShape(server, BaseUrl, n);
    var log := RequestLog(server, BaseUrl, n);
    forall u | u in log ensures exists p: nat :: 1 <= p <= 3 && u == PageUrl(BaseUrl, p) {
      var i :| 0 <= i < |log| && log[i] == u;
      var p: nat, q: nat :| 1 <= p <= q <= n && log[i] == PageUrl(BaseUrl, p) && log[i] == PageUrl(BaseUrl, q);
    }
  }

  /** A server whose first answer to any URL is an error and whose second is a page. */
  const FlakyServer: Server := (url, k) => if k == 0 then Response(503, "") else Response(200, "<html>")

  /** Two film cards, the second without an author node. */
  const TwoCards: seq<ItemNode> := [
    ItemNode(Some("A"), Some("1:00"), Some("X"), Some("today"), Some("5")),
    ItemNode(Some("B"), Some("2:00"), None, Some("today"), Some("7"))]

  lemma FlakyFetch(url: string)
    ensures Fetch(FlakyServer, url, Retries) == FetchResult(Some("<html>"), 2)
  {
  }

  lemma TwoCardsExtracted()
    ensures ExtractAll(TwoCards) == [
      Record("A", "X", "today", "5", "1:00"),
      Record("B", NotSpecified, "today", "7", "2:00")]
  {
    var rs := ExtractAll(TwoCards);
    assert rs[0] == Record("A", "X", "today", "5", "1:00");
    assert rs[1] == Record("B", NotSpecified, "today", "7", "2:00");
  }

  /** A one-page run whose first attempt fails and second succeeds, on a page of two
      cards, the second without an author node: two GETs, two pauses (one after the
      failed attempt, one after the page), and both records kept, the second with the
      author placeholder. */
  lemma TwoCardScenario(base: string)
    ensures |RequestLog(FlakyServer, base, 1)| == 2
    ensures PauseCount(FlakyServer, base, 1) == 2
    ensures KeepFirstByTitle(Collected(FlakyServer, _ => TwoCards, base, 1)) == [
      Record("A", "X", "today", "5", "1:00"),
      Record("B", NotSpecified, "today", "7", "2:00")]
  {
    FlakyFetch(PageUrl(base, 1));
    TwoCardsExtracted();
    var a, b := Record("A", "X", "today", "5", "1:00"), Record("B", NotSpecified, "today", "7", "2:00");
    assert Collected(FlakyServer, _ => TwoCards, base, 1) == [a] + [b];
    assert [a][..0] == [];
    NewTitleAppended([], a);
    NewTitleAppended([a], b);
  }

  /** The inner loop over the film cards of one loaded page (film_scraper.py:47-83):
      extract each card and append its record unless its title is already known. */
  method CollectPage(data: seq<Record>, uniqueTitles: set<string>, items: seq<ItemNode>,
                     ghost before: seq<Record>)
    returns (data': seq<Record>, uniqueTitles': set<string>)
    requires data == KeepFirstByTitle(before) && uniqueTitles == Titles(data)
    ensures data' == KeepFirstByTitle(before + ExtractAll(items))
    ensures uniqueTitles' == Titles(data') == Titles(before + ExtractAll(items))
  {
    data', uniqueTitles' := data, uniqueTitles;
    ghost var records := ExtractAll(items);
    assert before + records[..0] == before;
    for i := 0 to |items|
      invariant data' == KeepFirstByTitle(before + records[..i])
      invariant uniqueTitles' == Titles(data')
    {
      var record := ExtractItem(items[i]);
      ghost var seen := before + records[..i];
      assert records[..i + 1] == records[..i] + [record];
      assert before + records[..i + 1] == seen + [record];
      KeepFirstInvariant(seen);
      if record.title in uniqueTitles' {
        SeenTitleSkipped(seen, record);
      } else {
        NewTitleAppended(seen, record);
        TitlesSnoc(data', record);
        data' := data' + [record];
        uniqueTitles' := uniqueTitles' + {record.title};
      }
    }
    assert records[..|items|] == records;
    KeepFirstInvariant(before + records);
  }

  /** One turn of the page loop (film_scraper.py:36-88): fetch page `page`; when it
      loaded, run the inner loop over its film cards and pause. Returns the new `data`
      and unique titles, the GETs issued and the pauses taken. */
  method ScrapePage(server: Server, parse: Parser, base: string, page: nat,
                    data: seq<Record>, uniqueTitles: set<string>, ghost before: seq<Record>)
    returns (data': seq<Record>, uniqueTitles': set<string>, requested: seq<string>, pauses: nat)
    requires data == KeepFirstByTitle(before) && uniqueTitles == Titles(data)
    ensures data' == KeepFirstByTitle(before + PageRecords(server, parse, base, page))
    ensures uniqueTitles' == Titles(data')
    ensures requested == Repeat(PageUrl(base, page), Fetch(server, PageUrl(base, page), Retries).requests)
    ensures pauses == PagePauses(server, base, page)
  {
    var url := PageUrl(base, page);
    var html, requests, fetchPauses := FetchFilms(server, url, Retries);
    requested := Repeat(url, requests);
    pauses := fetchPauses;
    if html.Some? && html.value != "" {
      data', uniqueTitles' := CollectPage(data, uniqueTitles, parse(html.value), before);
      pauses := pauses + 1;
    } else {
      data', uniqueTitles' := data, uniqueTitles;
      assert before + [] == before;
    }
  }

  /** The page loop (film_scraper.py:35-88) over pages 1..numPages of `base`: returns
      `data` and `unique_titles` as they stand after the last page, every GET issued,
      in order, and the number of pauses taken. */
  method CollectPages(server: Server, parse: Parser, base: string, numPages: int)
    returns (data: seq<Record>, uniqueTitles: set<string>, requested: seq<string>, pauses: nat)
    ensures data == KeepFirstByTitle(Collected(server, parse, base, numPages))
    ensures uniqueTitles == Titles(data)
    ensures requested == RequestLog(server, base, numPages)
    ensures pauses == PauseCount(server, base, numPages)
  {
    data, uniqueTitles, requested, pauses := [], {}, [], 0;
    var page := 1;
    while page <= numPages
      invariant 1 <= page <= if numPages < 1 then 1 else numPages + 1
      invariant data == KeepFirstByTitle(Collected(server, parse, base, page - 1))
      invariant uniqueTitles == Titles(data)
      invariant requested == RequestLog(server, base, page - 1)
      invariant pauses == PauseCount(server, base, page - 1)
      decreases numPages - page
    {
      var pageRequests, pagePauses;
      data, uniqueTitles, pageRequests, pagePauses :=
        ScrapePage(server, parse, base, page, data, uniqueTitles, Collected(server, parse, base, page - 1));
      requested := requested + pageRequests;
      pauses := pauses + pagePauses;
      page := page + 1;
    }
    if numPages < 1 {
      NoPages(server, parse, base, numPages);
      NoPages(server, parse, base, page - 1);
    } else {
      assert page - 1 == numPages;
    }
  }

  /** The whole script: the page loop, then stage 2 (film_scraper.py:91). The final
      list holds exactly the first record of each title, once each, so its length is
      the unique-title count reported at the end (film_scraper.py:115). */
  method Run(server: Server, parse: Parser, base: string, numPages: int)
    returns (data: seq<Record>, uniqueTitles: set<string>, requested: seq<string>, pauses: nat)
    ensures requested == RequestLog(server, base, numPages)
    ensures pauses == PauseCount(server, base, numPages)
    ensures uniqueTitles == Titles(Collected(server, parse, base, numPages))
    ensures data == DistinctRecords(KeepFirstByTitle(Collected(server, parse, base, numPages)))
    ensures multiset(data) == multiset(KeepFirstByTitle(Collected(server, parse, base, numPages)))
    ensures NoDuplicates(data) && |data| == |uniqueTitles|
  {
    data, uniqueTitles, requested, pauses := CollectPages(server, parse, base, numPages);
    KeepFirstCount(Collected(server, parse, base, numPages));
    Stage2RemovesNothing(data);
    data := DistinctRecords(data);
  }
}
