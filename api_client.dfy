/** The paginated client of the hosting API (`_pages`) and the hand-written
    commit loop of `fetch_commits_per_day`. The network is an oracle: an
    endpoint is the response it gives to the request for each page number. */
module ApiClient {
  import opened Wrappers

  /** Items asked for per page (the `per_page` parameter). */
  const PageSize: nat := 100

  /** The page cap `_pages` uses when its caller gives none. */
  const DefaultMaxPages: int := 10

  /** The page cap written into the commit loop. */
  const CommitMaxPages: nat := 10

  /** One GET as the pipeline sees it: status 204, a failure status that
      raise_for_status turns into an exception, or a decoded JSON body. */
  datatype Response<B> = NoContent | Failure(status: int) | Json(body: B)

  /** A list endpoint: the response to the request for page `p`. */
  type Endpoint<T> = nat -> Response<seq<T>>

  /** `_get`: a failure status raises; a 204 has an empty body, which
      `r.json()` cannot decode. */
  function Get<B>(resp: Response<B>): (r: Result<B, Error>)
    ensures r.Ok? <==> resp.Json?
    ensures resp.Json? ==> r.value == resp.body
  {
    match resp
    case NoContent => Err(BodyNotJson)
    case Failure(s) => Err(HttpStatus(s))
    case Json(b) => Ok(b)
  }

  /** All items of a list of pages, in page order. */
  function Flatten<T>(pages: seq<seq<T>>): seq<T> {
    if pages == [] then [] else pages[0] + Flatten(pages[1..])
  }

  lemma {:induction false} FlattenConcat<T>(pages: seq<seq<T>>, more: seq<seq<T>>)
    ensures Flatten(pages + more) == Flatten(pages) + Flatten(more)
  {
    if pages == [] {
      assert [] + more == more;
    } else {
      assert (pages + more)[1..] == pages[1..] + more;
      FlattenConcat(pages[1..], more);
    }
  }

  /** Flattening one more page appends its items. */
  lemma FlattenSnoc<T>(pages: seq<seq<T>>, p: nat)
    requires p < |pages|
    ensures Flatten(pages[..p + 1]) == Flatten(pages[..p]) + pages[p]
  {
    assert pages[..p + 1] == pages[..p] + [pages[p]];
    FlattenConcat(pages[..p], [pages[p]]);
    assert Flatten([pages[p]]) == pages[p] + Flatten([]);
  }

  /** The items of all pages, cut after item `j` of page `p`. */
  lemma FlattenSplit<T>(pages: seq<seq<T>>, p: nat, j: nat)
    requires p < |pages| && j <= |pages[p]|
    ensures Flatten(pages) == (Flatten(pages[..p]) + pages[p][..j]) + (pages[p][j..] + Flatten(pages[p + 1..]))
  {
    var page := pages[p];
    assert pages == pages[..p] + ([page] + pages[p + 1..]);
    FlattenConcat(pages[..p], [page] + pages[p + 1..]);
    FlattenConcat([page], pages[p + 1..]);
    assert Flatten([page]) == page + Flatten([]);
    assert page == page[..j] + page[j..];
  }

  // ---------------------------------------------------------------------
  // _pages

  /** What a run of `_pages` amounts to: the pages it yields (or the error
      that aborts the run) and how many requests it issued. */
  datatype Fetched<T> = Fetched(outcome: Result<seq<seq<T>>, Error>, requests: nat)

  /** True when `_pages`, having received `resp` for `page`, asks for the
      next page: the page is a full one and the cap is not reached. */
  predicate MoreAfter<T>(resp: Response<seq<T>>, page: int, maxPages: int) {
    resp.Json? && |resp.body| >= PageSize && page < maxPages
  }

  /** `_pages` from page number `page` on. */
  function PagesFrom<T>(fetch: Endpoint<T>, maxPages: int, page: nat): (f: Fetched<T>)
    ensures f.requests >= 1
    decreases if page < maxPages then maxPages - page else 0
  {
    match fetch(page)
    case NoContent => Fetched(Ok([]), 1)
    case Failure(s) => Fetched(Err(HttpStatus(s)), 1)
    case Json(data) =>
      if |data| == 0 then Fetched(Ok([]), 1)
      else if |data| < PageSize || page >= maxPages then Fetched(Ok([data]), 1)
      else Prepend([data], 1, PagesFrom(fetch, maxPages, page + 1))
  }

  /** The run `rest` preceded by `pages` already yielded over `requests` requests. */
  function Prepend<T>(pages: seq<seq<T>>, requests: nat, rest: Fetched<T>): Fetched<T> {
    Fetched(if rest.outcome.Ok? then Ok(pages + rest.outcome.value) else rest.outcome,
            requests + rest.requests)
  }

  lemma PrependNothing<T>(rest: Fetched<T>)
    ensures Prepend([], 0, rest) == rest
  {
    if rest.outcome.Ok? {
      assert [] + rest.outcome.value == rest.outcome.value;
    }
  }

  lemma PrependTwice<T>(pages: seq<seq<T>>, n: nat, more: seq<seq<T>>, m: nat, rest: Fetched<T>)
    ensures Prepend(pages, n, Prepend(more, m, rest)) == Prepend(pages + more, n + m, rest)
  {
    if rest.outcome.Ok? {
      assert pages + (more + rest.outcome.value) == (pages + more) + rest.outcome.value;
    }
  }

  /** `_pages(url, headers, max_pages=maxPages)`, with the generator's pages
      collected in the order it yields them. */
  method FetchPages<T>(fetch: Endpoint<T>, maxPages: int) returns (outcome: Result<seq<seq<T>>, Error>, requests: nat)
    ensures Fetched(outcome, requests) == PagesFrom(fetch, maxPages, 1)
  {
    var pages: seq<seq<T>> := [];
    var page: nat := 1;
    PrependNothing(PagesFrom(fetch, maxPages, 1));
    while true
      invariant page >= 1
      invariant PagesFrom(fetch, maxPages, 1) == Prepend(pages, page - 1, PagesFrom(fetch, maxPages, page))
      decreases if page < maxPages then maxPages - page else 0
    {
      var resp := fetch(page);
      if resp.NoContent? {
        assert pages + [] == pages;
        return Ok(pages), page;
      }
      if resp.Failure? {
        return Err(HttpStatus(resp.status)), page;
      }
      var data := resp.body;
      if |data| == 0 {
        assert pages + [] == pages;
        return Ok(pages), page;
      }
      if |data| < PageSize || page >= maxPages {
        return Ok(pages + [data]), page;
      }
      PrependTwice(pages, page - 1, [data], 1, PagesFrom(fetch, maxPages, page + 1));
      pages := pages + [data];
      page := page + 1;
    }
  }

  /** `_pages` asks for pages `page`, `page + 1`, ... in order, goes on past
      a page exactly when that page is full and below the cap, and stops
      at the first page that is not. */
  lemma {:induction false} PagesStopAtFirst<T>(fetch: Endpoint<T>, maxPages: int, page: nat)
    ensures forall p :: page <= p < page + PagesFrom(fetch, maxPages, page).requests - 1 ==>
              MoreAfter(fetch(p), p, maxPages)
    ensures !MoreAfter(fetch(page + PagesFrom(fetch, maxPages, page).requests - 1),
                       page + PagesFrom(fetch, maxPages, page).requests - 1, maxPages)
    decreases if page < maxPages then maxPages - page else 0
  {
    if MoreAfter(fetch(page), page, maxPages) {
      PagesStopAtFirst(fetch, maxPages, page + 1);
    }
  }

  /** The response to the last request of a run of `_pages` from `page`. */
  function LastResponse<T>(fetch: Endpoint<T>, page: nat, f: Fetched<T>): Response<seq<T>>
    requires f.requests >= 1
  {
    fetch(page + f.requests - 1)
  }

  /** `pages` are the bodies of the responses to `page`, `page + 1`, ..., each non-empty. */
  ghost predicate BodiesFrom<T>(fetch: Endpoint<T>, page: nat, pages: seq<seq<T>>)
    decreases |pages|
  {
    pages == [] ||
    (fetch(page).Json? && pages[0] == fetch(page).body && pages[0] != [] && BodiesFrom(fetch, page + 1, pages[1..]))
  }

  /** Read page by page: the `i`-th of the pages is the non-empty body of page `page + i`. */
  lemma {:induction false} BodiesFromAt<T>(fetch: Endpoint<T>, page: nat, pages: seq<seq<T>>, i: nat)
    requires BodiesFrom(fetch, page, pages)
    requires i < |pages|
    ensures fetch(page + i).Json? && pages[i] == fetch(page + i).body && pages[i] != []
    decreases i
  {
    if i > 0 {
      BodiesFromAt(fetch, page + 1, pages[1..], i - 1);
    }
  }

  /** A non-empty body of page `page` followed by bodies from `page + 1`. */
  lemma BodiesFromCons<T>(fetch: Endpoint<T>, page: nat, rest: seq<seq<T>>)
    requires fetch(page).Json? && fetch(page).body != []
    requires BodiesFrom(fetch, page + 1, rest)
    ensures BodiesFrom(fetch, page, [fetch(page).body] + rest)
  {
  }

  /** The pages yielded are the non-empty bodies of the pages requested, in
      order; all but the last are full; the run fails exactly when the last
      request got a failure status; a final 204 or empty page yields nothing. */
  lemma {:induction false} PagesYielded<T>(fetch: Endpoint<T>, maxPages: int, page: nat)
    ensures PagesFrom(fetch, maxPages, page).outcome.Err? <==>
            LastResponse(fetch, page, PagesFrom(fetch, maxPages, page)).Failure?
    ensures PagesFrom(fetch, maxPages, page).outcome.Err? ==>
            PagesFrom(fetch, maxPages, page).outcome.error ==
            HttpStatus(LastResponse(fetch, page, PagesFrom(fetch, maxPages, page)).status)
    ensures var f := PagesFrom(fetch, maxPages, page);
            var last := LastResponse(fetch, page, f);
            f.outcome.Ok? ==>
              |f.outcome.value| == (if last.NoContent? || last.body == [] then f.requests - 1 else f.requests)
    ensures var f := PagesFrom(fetch, maxPages, page);
            f.outcome.Ok? ==> BodiesFrom(fetch, page, f.outcome.value)
    ensures var f := PagesFrom(fetch, maxPages, page);
            f.outcome.Ok? ==> forall i :: 0 <= i < |f.outcome.value| - 1 ==> |f.outcome.value[i]| >= PageSize
    decreases if page < maxPages then maxPages - page else 0
  {
    var f := PagesFrom(fetch, maxPages, page);
    if MoreAfter(fetch(page), page, maxPages) {
      PagesYielded(fetch, maxPages, page + 1);
      var rest := PagesFrom(fetch, maxPages, page + 1);
      assert f == Prepend([fetch(page).body], 1, rest);
      assert LastResponse(fetch, page, f) == LastResponse(fetch, page + 1, rest);
      if f.outcome.Ok? {
        assert f.outcome.value == [fetch(page).body] + rest.outcome.value;
        BodiesFromCons(fetch, page, rest.outcome.value);
      }
    } else {
      assert LastResponse(fetch, page, f) == fetch(page);
    }
  }

  /** `_pages` issues at most `maxPages` requests (one when the cap is below 1). */
  lemma PagesBounded<T>(fetch: Endpoint<T>, maxPages: int)
    ensures 1 <= PagesFrom(fetch, maxPages, 1).requests <= (if maxPages >= 1 then maxPages else 1)
  {
    var n := PagesFrom(fetch, maxPages, 1).requests;
    PagesStopAtFirst(fetch, maxPages, 1);
    if n >= 2 {
      assert MoreAfter(fetch(n - 1), n - 1, maxPages);
    }
  }

  /** When every page up to the cap is full, `_pages` asks for exactly
      `maxPages` pages, yields all of them, and never asks for page
      `maxPages + 1`. */
  lemma CapReached<T>(fetch: Endpoint<T>, maxPages: nat)
    requires maxPages >= 1
    requires forall p :: 1 <= p <= maxPages ==> fetch(p).Json? && |fetch(p).body| == PageSize
    ensures PagesFrom(fetch, maxPages, 1).requests == maxPages
    ensures PagesFrom(fetch, maxPages, 1).outcome.Ok?
    ensures |PagesFrom(fetch, maxPages, 1).outcome.value| == maxPages
  {
    var n := PagesFrom(fetch, maxPages, 1).requests;
    PagesStopAtFirst(fetch, maxPages, 1);
    PagesBounded(fetch, maxPages);
    PagesYielded(fetch, maxPages, 1);
  }

  // ---------------------------------------------------------------------
  // The commit loop of fetch_commits_per_day

  /** What a run of the commit loop amounts to: the commits gathered (or the
      error that aborts the run) and how many requests it issued. */
  datatype Collected<T> = Collected(outcome: Result<seq<T>, Error>, requests: nat)

  /** The commit loop from page number `page` on. Each page is read with
      `_get`, so a 204 aborts the run where `_pages` would stop quietly. */
  function CommitPagesFrom<T>(fetch: Endpoint<T>, page: nat): (c: Collected<T>)
    ensures c.requests >= 1
    ensures c.outcome.Err? ==> c.outcome.error.HttpStatus? || c.outcome.error == BodyNotJson
    decreases if page < CommitMaxPages then CommitMaxPages - page else 0
  {
    match Get(fetch(page))
    case Err(e) => Collected(Err(e), 1)
    case Ok(payload) =>
      if |payload| == 0 then Collected(Ok([]), 1)
      else if |payload| < PageSize || page >= CommitMaxPages then Collected(Ok(payload), 1)
      else Extend(payload, 1, CommitPagesFrom(fetch, page + 1))
  }

  /** The run `rest` preceded by `items` already gathered over `requests` requests. */
  function Extend<T>(items: seq<T>, requests: nat, rest: Collected<T>): Collected<T> {
    Collected(if rest.outcome.Ok? then Ok(items + rest.outcome.value) else rest.outcome,
              requests + rest.requests)
  }

  lemma ExtendNothing<T>(rest: Collected<T>)
    ensures Extend([], 0, rest) == rest
  {
    if rest.outcome.Ok? {
      assert [] + rest.outcome.value == rest.outcome.value;
    }
  }

  lemma ExtendTwice<T>(items: seq<T>, n: nat, more: seq<T>, m: nat, rest: Collected<T>)
    ensures Extend(items, n, Extend(more, m, rest)) == Extend(items + more, n + m, rest)
  {
    if rest.outcome.Ok? {
      assert items + (more + rest.outcome.value) == (items + more) + rest.outcome.value;
    }
  }

  /** The commit loop: request pages 1, 2, ... and extend the commit list
      with each payload until a payload is empty or short or page 10 is read. */
  method FetchCommits<T>(fetch: Endpoint<T>) returns (outcome: Result<seq<T>, Error>, requests: nat)
    ensures Collected(outcome, requests) == CommitPagesFrom(fetch, 1)
  {
    var commits: seq<T> := [];
    var page: nat := 1;
    ExtendNothing(CommitPagesFrom(fetch, 1));
    while true
      invariant page >= 1
      invariant CommitPagesFrom(fetch, 1) == Extend(commits, page - 1, CommitPagesFrom(fetch, page))
      decreases if page < CommitMaxPages then CommitMaxPages - page else 0
    {
      var got := Get(fetch(page));
      if got.Err? {
        return Err(got.error), page;
      }
      var payload := got.value;
      if |payload| == 0 {
        assert commits + [] == commits;
        return Ok(commits), page;
      }
      if |payload| < PageSize || page >= CommitMaxPages {
        return Ok(commits + payload), page;
      }
      ExtendTwice(commits, page - 1, payload, 1, CommitPagesFrom(fetch, page + 1));
      commits := commits + payload;
      page := page + 1;
    }
  }

  /** The commit loop requests exactly the pages `_pages` with a cap of 10
      would, and gathers the items of the pages `_pages` yields; the two
      differ only when the last response is a 204, which aborts the
      commit loop. */
  lemma {:induction false} CommitLoopIsPages<T>(fetch: Endpoint<T>, page: nat)
    ensures var c := CommitPagesFrom(fetch, page);
            var f := PagesFrom(fetch, CommitMaxPages, page);
            && c.requests == f.requests
            && (fetch(page + f.requests - 1).NoContent? ==> c.outcome == Err(BodyNotJson))
            && (!fetch(page + f.requests - 1).NoContent? ==>
                  c.outcome == if f.outcome.Ok? then Ok(Flatten(f.outcome.value)) else Err(f.outcome.error))
    decreases if page < CommitMaxPages then CommitMaxPages - page else 0
  {
    var resp := fetch(page);
    if MoreAfter(resp, page, CommitMaxPages) {
      CommitLoopIsPages(fetch, page + 1);
      var rest := PagesFrom(fetch, CommitMaxPages, page + 1);
      if rest.outcome.Ok? {
        calc {
          Flatten([resp.body] + rest.outcome.value);
          { assert ([resp.body] + rest.outcome.value)[1..] == rest.outcome.value; }
          resp.body + Flatten(rest.outcome.value);
        }
      }
    } else if resp.Json? && |resp.body| > 0 {
      assert PagesFrom(fetch, CommitMaxPages, page) == Fetched(Ok([resp.body]), 1);
      assert CommitPagesFrom(fetch, page) == Collected(Ok(resp.body), 1);
      assert resp.body + [] == resp.body;
      calc {
        Flatten([resp.body]);
        { assert [resp.body][1..] == []; }
        resp.body + [];
      }
    }
  }

  /** The commit loop makes at most 10 requests, and every page it goes past
      was a full page of at least 100 commits. */
  lemma CommitLoopBounded<T>(fetch: Endpoint<T>)
    ensures 1 <= CommitPagesFrom(fetch, 1).requests <= CommitMaxPages
    ensures forall p :: 1 <= p < CommitPagesFrom(fetch, 1).requests ==>
              fetch(p).Json? && |fetch(p).body| >= PageSize
  {
  }
}
