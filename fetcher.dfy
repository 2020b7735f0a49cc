/** The retry-governed page download (`fetch_films`, film_scraper.py:18-26).

    The network is a parameter: `server(url, k)` is the response to the k-th
    (0-based) GET of `url`. A request that raises instead of answering is not
    modelled; nor is the length of a pause. */
module Fetcher {
  import opened Wrappers

  datatype Response = Response(status: int, body: string)

  type Server = (string, nat) -> Response

  /** The default `retries` of `fetch_films`, the value the page loop uses. */
  const Retries: int := 3

  /** The outcome of one call: the page text (if any) and how many GETs were issued. */
  datatype FetchResult = FetchResult(html: Option<string>, requests: nat)

  /** The loop from attempt `k` on: answer with the first status-200 body, or give up
      after attempt `retries - 1`. */
  function FetchFrom(server: Server, url: string, retries: int, k: nat): (r: FetchResult)
    decreases retries - k
  {
    if retries <= k then FetchResult(None, k)
    else if server(url, k).status == 200 then FetchResult(Some(server(url, k).body), k + 1)
    else FetchFrom(server, url, retries, k + 1)
  }

  /** `fetch_films(url, retries)` as a value. */
  function Fetch(server: Server, url: string, retries: int): FetchResult {
    FetchFrom(server, url, retries, 0)
  }

  /** Number of `time.sleep(1)` pauses: one after each failed attempt, the last one included. */
  function Pauses(r: FetchResult): nat {
    if r.html.Some? && r.requests > 0 then r.requests - 1 else r.requests
  }

  /** The attempts before `k` all failed. */
  ghost predicate FailedBefore(server: Server, url: string, k: nat) {
    forall j: nat :: j < k ==> server(url, j).status != 200
  }

  /** `FetchFrom` started after `k` failed attempts: it returns the body of the first
      status-200 response among attempts k..retries-1, issuing no request after it;
      otherwise it returns nothing after `max(retries, k)` requests. */
  lemma {:induction false} FetchFromSpec(server: Server, url: string, retries: int, k: nat)
    requires FailedBefore(server, url, k)
    ensures var r := FetchFrom(server, url, retries, k);
      && k <= r.requests
      && (r.html.Some? <==> exists j: nat :: k <= j < retries && server(url, j).status == 200)
      && (r.html.Some? ==>
            && k < r.requests <= retries
            && FailedBefore(server, url, r.requests - 1)
            && server(url, r.requests - 1).status == 200
            && r.html.value == server(url, r.requests - 1).body)
      && (r.html.None? ==> r.requests == if retries < k then k else retries)
      && (r.html.None? ==> FailedBefore(server, url, r.requests))
    decreases retries - k
  {
    if retries <= k {
    } else if server(url, k).status == 200 {
    } else {
      FetchFromSpec(server, url, retries, k + 1);
    }
  }

  /** First-success short-circuit and retry bound: `fetch_films` returns the body of
      the first status-200 response among the first `retries` responses, after exactly
      as many requests as it took to see it; if there is none it returns `None` after
      exactly `retries` requests (none when `retries` is not positive) and as many pauses. */
  lemma FetchSpec(server: Server, url: string, retries: int)
    ensures var r := Fetch(server, url, retries);
      && (r.html.Some? <==> exists j: nat :: j < retries && server(url, j).status == 200)
      && (r.html.Some? ==>
            && 1 <= r.requests <= retries
            && FailedBefore(server, url, r.requests - 1)
            && server(url, r.requests - 1).status == 200
            && r.html == Some(server(url, r.requests - 1).body)
            && Pauses(r) == r.requests - 1)
      && (r.html.None? ==> r.requests == Pauses(r) == if retries < 0 then 0 else retries)
      && (r.html.None? ==> FailedBefore(server, url, r.requests))
  {
    FetchFromSpec(server, url, retries, 0);
  }

  /** `fetch_films`: the counted loop with its early return. Returns the page text,
      the number of GETs issued and the number of pauses taken. */
  method FetchFilms(server: Server, url: string, retries: int)
    returns (html: Option<string>, requests: nat, pauses: nat)
    ensures FetchResult(html, requests) == Fetch(server, url, retries)
    ensures pauses == Pauses(Fetch(server, url, retries))
  {
    requests, pauses := 0, 0;
    var attempt := 0;
    while attempt < retries
      invariant 0 <= attempt && requests == attempt && pauses == attempt
      invariant Fetch(server, url, retries) == FetchFrom(server, url, retries, attempt)
      decreases retries - attempt
    {
      var response := server(url, attempt);
      requests := requests + 1;
      if response.status == 200 {
        return Some(response.body), requests, pauses;
      }
      pauses := pauses + 1;
      attempt := attempt + 1;
    }
    html := None;
  }
}
