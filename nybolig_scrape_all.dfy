/** nyboligScrapeAll.ts: the full crawl of nybolig.dk. Each call requests `count` cases
    after the scroll token it received, stores the page, pauses five seconds, and calls
    itself with the response's scroll token as long as that token is truthy. There is no
    recursion budget: only the source ending the scroll ends the crawl. The script starts
    with `getListings(100)`, so the first request carries no scroll token. */
module NyboligScrapeAll {
  import opened Wrappers
  import opened Text
  import opened Staging
  import opened Database
  import opened CrawlLog

  /** The properties of the search body a call varies; `scrollToken` is left out of the
      body when undefined. */
  datatype Request = Request(scrollToken: Field<string>, top: int)

  /** The part of the search response the script reads. */
  datatype Response = Response(cases: seq<Candidate>, scrollToken: Field<string>)

  const PauseMs := 5000
  const FirstCount := 100

  /** One call of `getListings(count, scrollToken)` and the calls it makes, answered from
      `responses[k..]` (none left: the fetch fails). */
  function Crawl(store: Store, rows: seq<ScrapedRow>, count: int, token: Field<string>,
                 responses: seq<Response>, k: nat, clock: nat -> Time): (r: Run<Request>)
    ensures r.next >= k
    decreases |responses| - k
  {
    if k >= |responses| then Run(rows, [Fetch(Request(token, count))], FetchFailed, k)
    else
      var p := store(rows, responses[k].cases, clock(k));
      if Truthy(responses[k].scrollToken) then
        var rest := Crawl(store, p.rows, count, responses[k].scrollToken, responses, k + 1, clock);
        Run(rest.rows, [Fetch(Request(token, count)), Pause(PauseMs)] + rest.log, rest.outcome, rest.next)
      else
        Run(p.rows, [Fetch(Request(token, count)), Pause(PauseMs)], Done, k + 1)
  }

  /** `n` rounds of a request and a five-second pause, the first with `token`, each later
      one with the scroll token of the answer to the one before: the reference for what
      the crawl sends, which does not involve the database. */
  function Follow(token: Field<string>, count: int, responses: seq<Response>, k: nat, n: nat): (log: seq<Effect<Request>>)
    ensures n > 0 && k < |responses| ==> |log| >= 2 && log[0] == Fetch(Request(token, count))
    decreases n
  {
    if n == 0 || k >= |responses| then []
    else [Fetch(Request(token, count)), Pause(PauseMs)] + Follow(responses[k].scrollToken, count, responses, k + 1, n - 1)
  }

  /** The token the request after `n` rounds from answer `k` on carries. */
  function LastToken(token: Field<string>, responses: seq<Response>, k: nat, n: nat): Field<string>
  {
    if n == 0 || k + n - 1 >= |responses| then token else responses[k + n - 1].scrollToken
  }

  /** The requests of a crawl are `Follow(token, …)`, one round per answer used; a crawl
      that ended normally ends with a pause, and one whose request failed ends with that
      request, carrying the last token received. */
  lemma {:induction false} CrawlFollowsTokens(store: Store, rows: seq<ScrapedRow>, count: int, token: Field<string>,
                                              responses: seq<Response>, k: nat, clock: nat -> Time)
    ensures var r := Crawl(store, rows, count, token, responses, k, clock);
      && (r.outcome == Done ==> k < r.next <= |responses| && r.log == Follow(token, count, responses, k, r.next - k))
      && (r.outcome == FetchFailed ==>
            r.next == (if k >= |responses| then k else |responses|)
            && r.log == Follow(token, count, responses, k, r.next - k)
                        + [Fetch(Request(LastToken(token, responses, k, r.next - k), count))])
    decreases |responses| - k
  {
    if k < |responses| {
      var p := store(rows, responses[k].cases, clock(k));
      var t := responses[k].scrollToken;
      CrawlStep(store, rows, count, token, responses, k, clock, p);
      if Truthy(t) {
        var rest := Crawl(store, p.rows, count, t, responses, k + 1, clock);
        CrawlFollowsTokens(store, p.rows, count, t, responses, k + 1, clock);
        var n := rest.next - (k + 1);
        assert LastToken(token, responses, k, n + 1) == LastToken(t, responses, k + 1, n);
        if rest.outcome == FetchFailed {
          assert [Fetch(Request(token, count)), Pause(PauseMs)] + (Follow(t, count, responses, k + 1, n) + [Fetch(Request(LastToken(t, responses, k + 1, n), count))])
              == Follow(token, count, responses, k, n + 1) + [Fetch(Request(LastToken(token, responses, k, n + 1), count))];
        }
      } else {
        assert Follow(t, count, responses, k + 1, 0) == [];
      }
    }
  }

  /** The crawl ends normally exactly at the first answer whose scroll token is falsy, and
      fails only after every remaining answer carried a truthy one. */
  lemma {:induction false} CrawlStopsAtFalsyToken(store: Store, rows: seq<ScrapedRow>, count: int, token: Field<string>,
                                                  responses: seq<Response>, k: nat, clock: nat -> Time)
    ensures var r := Crawl(store, rows, count, token, responses, k, clock);
      && (r.outcome == Done ==>
            k < r.next <= |responses| && !Truthy(responses[r.next - 1].scrollToken)
            && forall j :: k <= j < r.next - 1 ==> Truthy(responses[j].scrollToken))
      && (r.outcome == FetchFailed ==> forall j :: k <= j < |responses| ==> Truthy(responses[j].scrollToken))
    decreases |responses| - k
  {
    if k < |responses| {
      var p := store(rows, responses[k].cases, clock(k));
      if Truthy(responses[k].scrollToken) {
        CrawlStopsAtFalsyToken(store, p.rows, count, responses[k].scrollToken, responses, k + 1, clock);
      }
    }
  }

  /** The crawl goes on to a second request exactly when the first one succeeded and its
      answer carried a truthy scroll token. */
  lemma ContinuesIff(store: Store, rows: seq<ScrapedRow>, count: int, token: Field<string>,
                     responses: seq<Response>, k: nat, clock: nat -> Time)
    ensures Fetches(Crawl(store, rows, count, token, responses, k, clock).log) > 1 <==>
            (k < |responses| && Truthy(responses[k].scrollToken))
  {
    var single := [Fetch(Request(token, count))];
    assert single[1..] == [];
    if k < |responses| {
      var p := store(rows, responses[k].cases, clock(k));
      var t := responses[k].scrollToken;
      if Truthy(t) {
        var rest := Crawl(store, p.rows, count, t, responses, k + 1, clock);
        FetchesOfStep(Request(token, count), PauseMs, rest.log);
        if k + 1 < |responses| {
          var p' := store(p.rows, responses[k + 1].cases, clock(k + 1));
          var t' := responses[k + 1].scrollToken;
          if Truthy(t') {
            FetchesOfStep(Request(t, count), PauseMs, Crawl(store, p'.rows, count, t', responses, k + 2, clock).log);
          } else {
            FetchesOfStep(Request(t, count), PauseMs, []);
          }
        } else {
          assert [Fetch(Request(t, count))][1..] == [];
        }
      } else {
        FetchesOfStep(Request(token, count), PauseMs, []);
      }
    }
  }

  /** Which requests the crawl sends, how it ends and how many answers it uses do not
      depend on the database: only on the answers' scroll tokens. */
  lemma {:induction false} CrawlIgnoresStore(store: Store, store': Store, rows: seq<ScrapedRow>, rows': seq<ScrapedRow>,
                                             count: int, token: Field<string>,
                                             responses: seq<Response>, k: nat, clock: nat -> Time)
    ensures var r, r' := Crawl(store, rows, count, token, responses, k, clock), Crawl(store', rows', count, token, responses, k, clock);
      r.log == r'.log && r.outcome == r'.outcome && r.next == r'.next
    decreases |responses| - k
  {
    if k < |responses| && Truthy(responses[k].scrollToken) {
      CrawlIgnoresStore(store, store', store(rows, responses[k].cases, clock(k)).rows,
                        store'(rows', responses[k].cases, clock(k)).rows, count, responses[k].scrollToken, responses, k + 1, clock);
    }
  }

  /** Every request of a crawl asks for `count` cases. */
  lemma {:induction false} CrawlKeepsCount(store: Store, rows: seq<ScrapedRow>, count: int, token: Field<string>,
                                           responses: seq<Response>, k: nat, clock: nat -> Time)
    ensures var log := Crawl(store, rows, count, token, responses, k, clock).log;
      forall i :: 0 <= i < |log| && log[i].Fetch? ==> log[i].req.top == count
    decreases |responses| - k
  {
    if k < |responses| {
      var p := store(rows, responses[k].cases, clock(k));
      if Truthy(responses[k].scrollToken) {
        var rest := Crawl(store, p.rows, count, responses[k].scrollToken, responses, k + 1, clock).log;
        CrawlKeepsCount(store, p.rows, count, responses[k].scrollToken, responses, k + 1, clock);
        CrawlStep(store, rows, count, token, responses, k, clock, p);
        var log := [Fetch(Request(token, count)), Pause(PauseMs)] + rest;
        assert forall i :: 2 <= i < |log| ==> log[i] == rest[i - 2];
      }
    }
  }

  /** A crawl through a store that only rewrites and appends keeps every existing row's
      key, creation time and promotion bookkeeping. */
  lemma {:induction false} CrawlKeepsBookkeeping(store: Store, rows: seq<ScrapedRow>, count: int, token: Field<string>,
                                                 responses: seq<Response>, k: nat, clock: nat -> Time)
    requires KeepsRows(store)
    ensures var r := Crawl(store, rows, count, token, responses, k, clock).rows;
      |r| >= |rows| && forall i :: 0 <= i < |rows| ==> SameBookkeeping(rows[i], r[i])
    decreases |responses| - k
  {
    if k < |responses| {
      var p := store(rows, responses[k].cases, clock(k));
      if Truthy(responses[k].scrollToken) {
        CrawlKeepsBookkeeping(store, p.rows, count, responses[k].scrollToken, responses, k + 1, clock);
      }
    }
  }

  /** One level of the recursion, for a page whose store result is `p`. */
  lemma CrawlStep(store: Store, rows: seq<ScrapedRow>, count: int, token: Field<string>,
                  responses: seq<Response>, k: nat, clock: nat -> Time, p: PageResult)
    requires k < |responses| && p == store(rows, responses[k].cases, clock(k))
    ensures Crawl(store, rows, count, token, responses, k, clock) ==
      if Truthy(responses[k].scrollToken) then
        var rest := Crawl(store, p.rows, count, responses[k].scrollToken, responses, k + 1, clock);
        Run(rest.rows, [Fetch(Request(token, count)), Pause(PauseMs)] + rest.log, rest.outcome, rest.next)
      else Run(p.rows, [Fetch(Request(token, count)), Pause(PauseMs)], Done, k + 1)
  {
  }

  /** `getListings(count, scrollToken)`, answered from `responses[k..]`, each page stored
      through the database. */
  method GetListings(db: Db, count: int, token: Field<string>, responses: seq<Response>, k: nat,
                     hash: Payload -> Hash, clock: nat -> Time)
    returns (log: seq<Effect<Request>>, outcome: Outcome, next: nat)
    modifies db`scraped
    ensures var r := Crawl(Upsert(Nybolig, hash), old(db.scraped), count, token, responses, k, clock);
      db.scraped == r.rows && log == r.log && outcome == r.outcome && next == r.next
    decreases |responses| - k
  {
    if k >= |responses| {
      log, outcome, next := [Fetch(Request(token, count))], FetchFailed, k;
      return;
    }
    var response := responses[k];
    ghost var before := db.scraped;
    var _ := db.StorePage(Nybolig, response.cases, hash, clock(k));
    CrawlStep(Upsert(Nybolig, hash), before, count, token, responses, k, clock,
              PageResult(db.scraped, UpsertPage(before, Nybolig, response.cases, hash, clock(k)).news));
    if Truthy(response.scrollToken) {
      var rest;
      rest, outcome, next := GetListings(db, count, response.scrollToken, responses, k + 1, hash, clock);
      log := [Fetch(Request(token, count)), Pause(PauseMs)] + rest;
    } else {
      log, outcome, next := [Fetch(Request(token, count)), Pause(PauseMs)], Done, k + 1;
    }
  }

  /** The script: `getListings(100)`. Its first request has no scroll token and every
      request asks for 100 cases. */
  method ScrapeAll(db: Db, responses: seq<Response>, hash: Payload -> Hash, clock: nat -> Time)
    returns (log: seq<Effect<Request>>, outcome: Outcome)
    modifies db`scraped
    ensures var r := Crawl(Upsert(Nybolig, hash), old(db.scraped), FirstCount, Undefined, responses, 0, clock);
      db.scraped == r.rows && log == r.log && outcome == r.outcome
    ensures |log| > 0 && log[0] == Fetch(Request(Undefined, FirstCount))
    ensures forall i :: 0 <= i < |log| && log[i].Fetch? ==> log[i].req.top == FirstCount
  {
    var next;
    log, outcome, next := GetListings(db, FirstCount, Undefined, responses, 0, hash, clock);
    CrawlFollowsTokens(Upsert(Nybolig, hash), old(db.scraped), FirstCount, Undefined, responses, 0, clock);
    CrawlKeepsCount(Upsert(Nybolig, hash), old(db.scraped), FirstCount, Undefined, responses, 0, clock);
  }
}
