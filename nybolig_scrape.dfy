/** nyboligScrape.ts: the periodic crawl of the newest nybolig.dk listings. Each call
    fetches one page, stores it, and calls itself again after five seconds while the page
    held more than eight new listings and the recursion budget `maxRec` is positive. The
    script starts with `getListings(10, 5)`.

    As written, every request sends `scrollToken: ''` and `top: 10`, whatever count and
    token the call received: each continuation asks for the first page again. */
module NyboligScrape {
  import opened Wrappers
  import opened Staging
  import opened Database
  import opened CrawlLog

  /** The properties of the search body a call could vary; the other properties are
      constant filters. */
  datatype Request = Request(scrollToken: string, top: int)

  /** The part of the search response the script reads. */
  datatype Response = Response(cases: seq<Candidate>, scrollToken: Field<string>)

  /** The request body every call sends. */
  const SentRequest := Request("", 10)
  /** More new listings than this on a page make the crawl continue. */
  const NewThreshold := 8
  const PauseMs := 5000

  /** One call of `getListings(count, maxRec, scrollToken)` and the calls it makes.
      `responses[k..]` are the answers the source gives to the fetches still to come (none
      left: the fetch fails); `clock(j)` is the time the writes of page `j` happen at. The
      crawl consumes the answers forward only. */
  function Crawl(store: Store, rows: seq<ScrapedRow>, count: int, maxRec: int, scrollToken: Field<string>,
                 responses: seq<Response>, k: nat, clock: nat -> Time): (r: Run<Request>)
    ensures r.next >= k
    decreases if maxRec > 0 then maxRec else 0
  {
    if k >= |responses| then Run(rows, [Fetch(SentRequest)], FetchFailed, k)
    else
      var p := store(rows, responses[k].cases, clock(k));
      if |p.news| > NewThreshold && maxRec > 0 then
        var rest := Crawl(store, p.rows, count, maxRec - 1, responses[k].scrollToken, responses, k + 1, clock);
        Run(rest.rows, [Fetch(SentRequest), Pause(PauseMs)] + rest.log, rest.outcome, rest.next)
      else
        Run(p.rows, [Fetch(SentRequest)], Done, k + 1)
  }

  /** `n` requests for `req`, with a pause between each two. */
  function Cadence(n: nat, req: Request): (log: seq<Effect<Request>>)
    ensures Fetches(log) == n
    ensures n > 0 ==> log[0] == Fetch(req) && |log| == 2 * n - 1
  {
    if n <= 1 then (if n == 0 then [] else [Fetch(req)])
    else
      FetchesOfStep(req, PauseMs, Cadence(n - 1, req));
      [Fetch(req), Pause(PauseMs)] + Cadence(n - 1, req)
  }

  /** The crawl fetches, and if it goes on pauses five seconds and repeats: every
      request is the same one. */
  lemma {:induction false} CrawlLogShape(store: Store, rows: seq<ScrapedRow>, count: int, maxRec: int, scrollToken: Field<string>,
                                         responses: seq<Response>, k: nat, clock: nat -> Time)
    ensures var log := Crawl(store, rows, count, maxRec, scrollToken, responses, k, clock).log;
      log == Cadence(Fetches(log), SentRequest)
    decreases if maxRec > 0 then maxRec else 0
  {
    if k < |responses| {
      var p := store(rows, responses[k].cases, clock(k));
      if |p.news| > NewThreshold && maxRec > 0 {
        CrawlLogShape(store, p.rows, count, maxRec - 1, responses[k].scrollToken, responses, k + 1, clock);
        FetchesOfStep(SentRequest, PauseMs, Crawl(store, p.rows, count, maxRec - 1, responses[k].scrollToken, responses, k + 1, clock).log);
      }
    }
  }

  /** At least one and at most `maxRec + 1` requests. */
  lemma {:induction false} CrawlFetchBound(store: Store, rows: seq<ScrapedRow>, count: int, maxRec: int, scrollToken: Field<string>,
                                           responses: seq<Response>, k: nat, clock: nat -> Time)
    ensures 1 <= Fetches(Crawl(store, rows, count, maxRec, scrollToken, responses, k, clock).log) <= (if maxRec > 0 then maxRec else 0) + 1
    decreases if maxRec > 0 then maxRec else 0
  {
    if k < |responses| {
      var p := store(rows, responses[k].cases, clock(k));
      if |p.news| > NewThreshold && maxRec > 0 {
        CrawlFetchBound(store, p.rows, count, maxRec - 1, responses[k].scrollToken, responses, k + 1, clock);
        FetchesOfStep(SentRequest, PauseMs, Crawl(store, p.rows, count, maxRec - 1, responses[k].scrollToken, responses, k + 1, clock).log);
      }
    }
  }

  /** The crawl goes on to a second request exactly when the first one succeeded, its
      page held more than eight new listings and the budget was positive. */
  lemma ContinuesIff(store: Store, rows: seq<ScrapedRow>, count: int, maxRec: int, scrollToken: Field<string>,
                     responses: seq<Response>, k: nat, clock: nat -> Time)
    ensures (Fetches(Crawl(store, rows, count, maxRec, scrollToken, responses, k, clock).log) > 1) <==>
      (k < |responses| && |store(rows, responses[k].cases, clock(k)).news| > NewThreshold && maxRec > 0)
  {
    if k < |responses| {
      var p := store(rows, responses[k].cases, clock(k));
      if |p.news| > NewThreshold && maxRec > 0 {
        CrawlFetchBound(store, p.rows, count, maxRec - 1, responses[k].scrollToken, responses, k + 1, clock);
        FetchesOfStep(SentRequest, PauseMs, Crawl(store, p.rows, count, maxRec - 1, responses[k].scrollToken, responses, k + 1, clock).log);
      }
    }
  }

  /** Count and token never reach the request: the crawl is the same whatever they are. */
  lemma {:induction false} CrawlIgnoresCountAndToken(store: Store, rows: seq<ScrapedRow>, count: int, count': int, maxRec: int,
                                                     token: Field<string>, token': Field<string>,
                                                     responses: seq<Response>, k: nat, clock: nat -> Time)
    ensures Crawl(store, rows, count, maxRec, token, responses, k, clock) == Crawl(store, rows, count', maxRec, token', responses, k, clock)
    decreases if maxRec > 0 then maxRec else 0
  {
    if k < |responses| {
      var p := store(rows, responses[k].cases, clock(k));
      if |p.news| > NewThreshold && maxRec > 0 {
        CrawlIgnoresCountAndToken(store, p.rows, count, count', maxRec - 1, responses[k].scrollToken, responses[k].scrollToken, responses, k + 1, clock);
      }
    }
  }

  /** A crawl through a store that only rewrites and appends keeps every existing row's
      key, creation time and promotion bookkeeping. */
  lemma {:induction false} CrawlKeepsBookkeeping(store: Store, rows: seq<ScrapedRow>, count: int, maxRec: int, scrollToken: Field<string>,
                                                 responses: seq<Response>, k: nat, clock: nat -> Time)
    requires KeepsRows(store)
    ensures var r := Crawl(store, rows, count, maxRec, scrollToken, responses, k, clock).rows;
      |r| >= |rows| && forall i :: 0 <= i < |rows| ==> SameBookkeeping(rows[i], r[i])
    decreases if maxRec > 0 then maxRec else 0
  {
    if k < |responses| {
      var p := store(rows, responses[k].cases, clock(k));
      if |p.news| > NewThreshold && maxRec > 0 {
        CrawlKeepsBookkeeping(store, p.rows, count, maxRec - 1, responses[k].scrollToken, responses, k + 1, clock);
      }
    }
  }

  /** When the source answers the repeated request with the same (consistent) page, the
      second page upsert finds nothing new, so the crawl makes at most two requests. */
  lemma StableSourceStopsAfterTwo(rows: seq<ScrapedRow>, count: int, maxRec: int, scrollToken: Field<string>,
                                  responses: seq<Response>, k: nat, hash: Payload -> Hash, clock: nat -> Time)
    requires k < |responses|
    requires ConsistentPage(responses[k].cases, hash)
    requires forall j :: k < j < |responses| ==> responses[j].cases == responses[k].cases
    ensures Fetches(Crawl(Upsert(Nybolig, hash), rows, count, maxRec, scrollToken, responses, k, clock).log) <= 2
  {
    var store := Upsert(Nybolig, hash);
    var p := store(rows, responses[k].cases, clock(k));
    if k + 1 < |responses| {
      UpsertPageIdempotent(rows, Nybolig, responses[k].cases, hash, clock(k), clock(k + 1));
    }
    StopsWhenNothingNew(store, rows, count, maxRec, scrollToken, responses, k, clock);
  }

  /** The same for any store whose second page finds nothing new. */
  lemma StopsWhenNothingNew(store: Store, rows: seq<ScrapedRow>, count: int, maxRec: int, scrollToken: Field<string>,
                            responses: seq<Response>, k: nat, clock: nat -> Time)
    requires k < |responses|
    requires k + 1 < |responses| ==>
      store(store(rows, responses[k].cases, clock(k)).rows, responses[k + 1].cases, clock(k + 1)).news == []
    ensures Fetches(Crawl(store, rows, count, maxRec, scrollToken, responses, k, clock).log) <= 2
  {
    var p := store(rows, responses[k].cases, clock(k));
    if |p.news| > NewThreshold && maxRec > 0 {
      ContinuesIff(store, p.rows, count, maxRec - 1, responses[k].scrollToken, responses, k + 1, clock);
      CrawlFetchBound(store, p.rows, count, maxRec - 1, responses[k].scrollToken, responses, k + 1, clock);
      FetchesOfStep(SentRequest, PauseMs, Crawl(store, p.rows, count, maxRec - 1, responses[k].scrollToken, responses, k + 1, clock).log);
    }
  }

  /** One level of the recursion, for a page whose store result is `p`. */
  lemma CrawlStep(store: Store, rows: seq<ScrapedRow>, count: int, maxRec: int, scrollToken: Field<string>,
                  responses: seq<Response>, k: nat, clock: nat -> Time, p: PageResult)
    requires k < |responses| && p == store(rows, responses[k].cases, clock(k))
    ensures Crawl(store, rows, count, maxRec, scrollToken, responses, k, clock) ==
      if |p.news| > NewThreshold && maxRec > 0 then
        var rest := Crawl(store, p.rows, count, maxRec - 1, responses[k].scrollToken, responses, k + 1, clock);
        Run(rest.rows, [Fetch(SentRequest), Pause(PauseMs)] + rest.log, rest.outcome, rest.next)
      else Run(p.rows, [Fetch(SentRequest)], Done, k + 1)
  {
  }

  /** `getListings(count, maxRec, scrollToken)`, answered from `responses[k..]`, each page
      stored through the database. */
  method GetListings(db: Db, count: int, maxRec: int, scrollToken: Field<string>,
                     responses: seq<Response>, k: nat, hash: Payload -> Hash, clock: nat -> Time)
    returns (log: seq<Effect<Request>>, outcome: Outcome)
    modifies db`scraped
    ensures var r := Crawl(Upsert(Nybolig, hash), old(db.scraped), count, maxRec, scrollToken, responses, k, clock);
      db.scraped == r.rows && log == r.log && outcome == r.outcome
    decreases if maxRec > 0 then maxRec else 0
  {
    if k >= |responses| {
      log, outcome := [Fetch(SentRequest)], FetchFailed;
      return;
    }
    var response := responses[k];
    ghost var before := db.scraped;
    var newCount := db.StorePage(Nybolig, response.cases, hash, clock(k));
    CrawlStep(Upsert(Nybolig, hash), before, count, maxRec, scrollToken, responses, k, clock,
              PageResult(db.scraped, UpsertPage(before, Nybolig, response.cases, hash, clock(k)).news));
    if newCount > NewThreshold && maxRec > 0 {
      var rest;
      rest, outcome := GetListings(db, count, maxRec - 1, response.scrollToken, responses, k + 1, hash, clock);
      log := [Fetch(SentRequest), Pause(PauseMs)] + rest;
    } else {
      log, outcome := [Fetch(SentRequest)], Done;
    }
  }

  /** The script: `getListings(10, 5)`, which makes at most six requests. */
  method ScrapeNewest(db: Db, responses: seq<Response>, hash: Payload -> Hash, clock: nat -> Time)
    returns (log: seq<Effect<Request>>, outcome: Outcome)
    modifies db`scraped
    ensures var r := Crawl(Upsert(Nybolig, hash), old(db.scraped), 10, 5, Undefined, responses, 0, clock);
      db.scraped == r.rows && log == r.log && outcome == r.outcome
    ensures Fetches(log) <= 6
  {
    log, outcome := GetListings(db, 10, 5, Undefined, responses, 0, hash, clock);
    CrawlFetchBound(Upsert(Nybolig, hash), old(db.scraped), 10, 5, Undefined, responses, 0, clock);
  }
}
