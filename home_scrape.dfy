/** homeScrape.ts: the periodic crawl of the newest home.dk listings. Each call fetches
    one page, stores it, and calls itself for the next page after five seconds while the
    page held more than eight new listings, the page number is at most five and the
    source reports a next page. The script starts with `getListings(1)`, so `pageSize`
    is undefined and left out of the query. */
module HomeScrape {
  import opened Wrappers
  import opened Staging
  import opened Database
  import opened CrawlLog

  /** The query parameters a call varies (`loadPrevious` and `sortBy` are constant). */
  datatype Request = Request(page: int, pageSize: Field<int>)

  /** The part of the search response the script reads. */
  datatype Response = Response(results: seq<Candidate>, hasNextPage: bool)

  /** More new listings than this on a page make the crawl continue. */
  const NewThreshold := 8
  /** The last page number that may still be followed by another. */
  const LastContinuingPage := 5
  const PauseMs := 5000

  /** One call of `getListings(page, count)` and the calls it makes, each page written
      through `store`; `responses[k..]` answer the requests still to come, forward only. */
  function Crawl(store: Store, rows: seq<ScrapedRow>, page: int, count: Field<int>,
                 responses: seq<Response>, k: nat, clock: nat -> Time): (r: Run<Request>)
    ensures r.next >= k
    decreases if page <= LastContinuingPage then LastContinuingPage + 1 - page else 0
  {
    if k >= |responses| then Run(rows, [Fetch(Request(page, count))], FetchFailed, k)
    else
      var p := store(rows, responses[k].results, clock(k));
      if |p.news| > NewThreshold && page <= LastContinuingPage && responses[k].hasNextPage then
        var rest := Crawl(store, p.rows, page + 1, count, responses, k + 1, clock);
        Run(rest.rows, [Fetch(Request(page, count)), Pause(PauseMs)] + rest.log, rest.outcome, rest.next)
      else
        Run(p.rows, [Fetch(Request(page, count))], Done, k + 1)
  }

  /** `n` requests for consecutive pages from `page` on, all with page size `count`, with
      a five-second pause between each two. */
  function Pages(page: int, n: nat, count: Field<int>): (log: seq<Effect<Request>>)
    ensures Fetches(log) == n
    decreases n
  {
    if n <= 1 then (if n == 0 then [] else [Fetch(Request(page, count))])
    else
      FetchesOfStep(Request(page, count), PauseMs, Pages(page + 1, n - 1, count));
      [Fetch(Request(page, count)), Pause(PauseMs)] + Pages(page + 1, n - 1, count)
  }

  /** The crawl requests the pages `page`, `page + 1`, … in turn, always with the same
      page size, pausing five seconds between requests. */
  lemma {:induction false} CrawlLogShape(store: Store, rows: seq<ScrapedRow>, page: int, count: Field<int>,
                                         responses: seq<Response>, k: nat, clock: nat -> Time)
    ensures var log := Crawl(store, rows, page, count, responses, k, clock).log;
      Fetches(log) >= 1 && log == Pages(page, Fetches(log), count)
    decreases |responses| - k
  {
    OnePage(page, count);
    if k < |responses| {
      var p := store(rows, responses[k].results, clock(k));
      if |p.news| > NewThreshold && page <= LastContinuingPage && responses[k].hasNextPage {
        var rest := Crawl(store, p.rows, page + 1, count, responses, k + 1, clock).log;
        assert Crawl(store, rows, page, count, responses, k, clock).log == [Fetch(Request(page, count)), Pause(PauseMs)] + rest;
        CrawlLogShape(store, p.rows, page + 1, count, responses, k + 1, clock);
        FetchesOfStep(Request(page, count), PauseMs, rest);
        PagesStep(page, Fetches(rest), count);
      }
    }
  }

  /** `n + 1` pages from `page` on are page `page`, a pause, and `n` pages from `page + 1`. */
  lemma PagesStep(page: int, n: nat, count: Field<int>)
    requires n >= 1
    ensures Pages(page, n + 1, count) == [Fetch(Request(page, count)), Pause(PauseMs)] + Pages(page + 1, n, count)
  {
  }

  /** A log of one request. */
  lemma OnePage(page: int, count: Field<int>)
    ensures Pages(page, Fetches([Fetch(Request(page, count))]), count) == [Fetch(Request(page, count))]
  {
    assert [Fetch(Request(page, count))][1..] == [];
  }

  /** At least one request, and none for a page after page six. */
  lemma {:induction false} CrawlFetchBound(store: Store, rows: seq<ScrapedRow>, page: int, count: Field<int>,
                                           responses: seq<Response>, k: nat, clock: nat -> Time)
    ensures 1 <= Fetches(Crawl(store, rows, page, count, responses, k, clock).log)
              <= (if page <= LastContinuingPage then LastContinuingPage + 1 - page else 0) + 1
    decreases if page <= LastContinuingPage then LastContinuingPage + 1 - page else 0
  {
    if k < |responses| {
      var p := store(rows, responses[k].results, clock(k));
      if |p.news| > NewThreshold && page <= LastContinuingPage && responses[k].hasNextPage {
        CrawlFetchBound(store, p.rows, page + 1, count, responses, k + 1, clock);
        FetchesOfStep(Request(page, count), PauseMs, Crawl(store, p.rows, page + 1, count, responses, k + 1, clock).log);
      }
    }
  }

  /** The crawl requests a second page exactly when the first request succeeded, its page
      held more than eight new listings, the page number was at most five and the source
      reported a next page. */
  lemma ContinuesIff(store: Store, rows: seq<ScrapedRow>, page: int, count: Field<int>,
                     responses: seq<Response>, k: nat, clock: nat -> Time)
    ensures (Fetches(Crawl(store, rows, page, count, responses, k, clock).log) > 1) <==>
      (k < |responses| && |store(rows, responses[k].results, clock(k)).news| > NewThreshold
       && page <= LastContinuingPage && responses[k].hasNextPage)
  {
    if k < |responses| {
      var p := store(rows, responses[k].results, clock(k));
      if |p.news| > NewThreshold && page <= LastContinuingPage && responses[k].hasNextPage {
        CrawlFetchBound(store, p.rows, page + 1, count, responses, k + 1, clock);
        FetchesOfStep(Request(page, count), PauseMs, Crawl(store, p.rows, page + 1, count, responses, k + 1, clock).log);
      }
    }
  }

  /** A crawl through a store that only rewrites and appends keeps every existing row's
      key, creation time and promotion bookkeeping. */
  lemma {:induction false} CrawlKeepsBookkeeping(store: Store, rows: seq<ScrapedRow>, page: int, count: Field<int>,
                                                 responses: seq<Response>, k: nat, clock: nat -> Time)
    requires KeepsRows(store)
    ensures var r := Crawl(store, rows, page, count, responses, k, clock).rows;
      |r| >= |rows| && forall i :: 0 <= i < |rows| ==> SameBookkeeping(rows[i], r[i])
    decreases if page <= LastContinuingPage then LastContinuingPage + 1 - page else 0
  {
    if k < |responses| {
      var p := store(rows, responses[k].results, clock(k));
      if |p.news| > NewThreshold && page <= LastContinuingPage && responses[k].hasNextPage {
        CrawlKeepsBookkeeping(store, p.rows, page + 1, count, responses, k + 1, clock);
      }
    }
  }

  /** One level of the recursion, for a page whose store result is `p`. */
  lemma CrawlStep(store: Store, rows: seq<ScrapedRow>, page: int, count: Field<int>,
                  responses: seq<Response>, k: nat, clock: nat -> Time, p: PageResult)
    requires k < |responses| && p == store(rows, responses[k].results, clock(k))
    ensures Crawl(store, rows, page, count, responses, k, clock) ==
      if |p.news| > NewThreshold && page <= LastContinuingPage && responses[k].hasNextPage then
        var rest := Crawl(store, p.rows, page + 1, count, responses, k + 1, clock);
        Run(rest.rows, [Fetch(Request(page, count)), Pause(PauseMs)] + rest.log, rest.outcome, rest.next)
      else Run(p.rows, [Fetch(Request(page, count))], Done, k + 1)
  {
  }

  /** `getListings(page, count)`, answered from `responses[k..]`, each page stored through
      the database. */
  method GetListings(db: Db, page: int, count: Field<int>, responses: seq<Response>, k: nat,
                     hash: Payload -> Hash, clock: nat -> Time)
    returns (log: seq<Effect<Request>>, outcome: Outcome)
    modifies db`scraped
    ensures var r := Crawl(Upsert(Home, hash), old(db.scraped), page, count, responses, k, clock);
      db.scraped == r.rows && log == r.log && outcome == r.outcome
    decreases if page <= LastContinuingPage then LastContinuingPage + 1 - page else 0
  {
    if k >= |responses| {
      log, outcome := [Fetch(Request(page, count))], FetchFailed;
      return;
    }
    var response := responses[k];
    ghost var before := db.scraped;
    var newCount := db.StorePage(Home, response.results, hash, clock(k));
    CrawlStep(Upsert(Home, hash), before, page, count, responses, k, clock,
              PageResult(db.scraped, UpsertPage(before, Home, response.results, hash, clock(k)).news));
    if newCount > NewThreshold && page <= LastContinuingPage && response.hasNextPage {
      var rest;
      rest, outcome := GetListings(db, page + 1, count, responses, k + 1, hash, clock);
      log := [Fetch(Request(page, count)), Pause(PauseMs)] + rest;
    } else {
      log, outcome := [Fetch(Request(page, count))], Done;
    }
  }

  /** The script: `getListings(1)`, which requests pages 1 to at most 6, without a page
      size. */
  method ScrapeNewest(db: Db, responses: seq<Response>, hash: Payload -> Hash, clock: nat -> Time)
    returns (log: seq<Effect<Request>>, outcome: Outcome)
    modifies db`scraped
    ensures var r := Crawl(Upsert(Home, hash), old(db.scraped), 1, Undefined, responses, 0, clock);
      db.scraped == r.rows && log == r.log && outcome == r.outcome
    ensures 1 <= Fetches(log) <= 6 && log == Pages(1, Fetches(log), Undefined)
  {
    log, outcome := GetListings(db, 1, Undefined, responses, 0, hash, clock);
    CrawlFetchBound(Upsert(Home, hash), old(db.scraped), 1, Undefined, responses, 0, clock);
    CrawlLogShape(Upsert(Home, hash), old(db.scraped), 1, Undefined, responses, 0, clock);
  }
}
