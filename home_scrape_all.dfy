/** homeScrapeAll.ts: the full crawl of home.dk. It fetches the list of Danish postal
    areas, labels each `nr + ' ' + navn`, and for each label in list order crawls the
    search pages 1, 2, … with page size 999 and that postal-code filter, following
    `hasNextPage` with a five-second pause, then pauses half a second before the next
    label. A failed request ends the script. */
module HomeScrapeAll {
  import opened Wrappers
  import opened Staging
  import opened Database
  import opened CrawlLog

  /** The postal-area list request, or a search request with its varying parts. */
  datatype Request = PostalAreas | Search(page: int, postalCode: string, pageSize: Field<int>)

  /** The part of a search response the script reads. */
  datatype Response = Response(results: seq<Candidate>, hasNextPage: bool)

  /** One entry of the postal-area list. */
  datatype PostalArea = PostalArea(nr: string, navn: string)

  const PageSize := 999
  const PagePauseMs := 5000
  const AreaPauseMs := 500

  /** The postal-code filter value of an area. */
  function Label(a: PostalArea): string
  {
    a.nr + " " + a.navn
  }

  /** `getPostalCodes()`: the labels of the areas, in list order. */
  function Labels(areas: seq<PostalArea>): (r: seq<string>)
    ensures |r| == |areas|
    ensures forall i :: 0 <= i < |areas| ==> r[i] == areas[i].nr + " " + areas[i].navn
  {
    seq(|areas|, i requires 0 <= i < |areas| => Label(areas[i]))
  }

  /** One call of `getListings(page, postalCode, count)` and the calls it makes. It goes on
      as long as the source reports a next page, so only the finite supply of answers
      `responses[k..]` bounds it. */
  function Crawl(store: Store, rows: seq<ScrapedRow>, page: int, postalCode: string, count: Field<int>,
                 responses: seq<Response>, k: nat, clock: nat -> Time): (r: Run<Request>)
    ensures r.next >= k
    decreases |responses| - k
  {
    if k >= |responses| then Run(rows, [Fetch(Search(page, postalCode, count))], FetchFailed, k)
    else
      var p := store(rows, responses[k].results, clock(k));
      if responses[k].hasNextPage then
        var rest := Crawl(store, p.rows, page + 1, postalCode, count, responses, k + 1, clock);
        Run(rest.rows, [Fetch(Search(page, postalCode, count)), Pause(PagePauseMs)] + rest.log, rest.outcome, rest.next)
      else
        Run(p.rows, [Fetch(Search(page, postalCode, count))], Done, k + 1)
  }

  /** The loop over the labels: crawl each from page 1 with page size 999, pause, go on
      with the next; stop at the first failed request. */
  function CrawlAll(store: Store, rows: seq<ScrapedRow>, codes: seq<string>,
                    responses: seq<Response>, k: nat, clock: nat -> Time): Run<Request>
    decreases |codes|
  {
    if codes == [] then Run(rows, [], Done, k)
    else
      var r := Crawl(store, rows, 1, codes[0], Val(PageSize), responses, k, clock);
      if r.outcome == FetchFailed then r
      else
        var rest := CrawlAll(store, r.rows, codes[1..], responses, r.next, clock);
        Run(rest.rows, r.log + [Pause(AreaPauseMs)] + rest.log, rest.outcome, rest.next)
  }

  /** The whole script, given the answer to the postal-area request (`None`: it failed). */
  function ScrapeAllRun(store: Store, rows: seq<ScrapedRow>, areas: Option<seq<PostalArea>>,
                        responses: seq<Response>, clock: nat -> Time): Run<Request>
  {
    match areas
    case None => Run(rows, [Fetch(PostalAreas)], FetchFailed, 0)
    case Some(list) =>
      var r := CrawlAll(store, rows, Labels(list), responses, 0, clock);
      Run(r.rows, [Fetch(PostalAreas)] + r.log, r.outcome, r.next)
  }

  /** `n` search requests for consecutive pages from `page` on, same postal code and page
      size, with a five-second pause between each two. */
  function Pages(page: int, postalCode: string, count: Field<int>, n: nat): (log: seq<Effect<Request>>)
    ensures Fetches(log) == n
    decreases n
  {
    if n <= 1 then (if n == 0 then [] else [Fetch(Search(page, postalCode, count))])
    else
      FetchesOfStep(Search(page, postalCode, count), PagePauseMs, Pages(page + 1, postalCode, count, n - 1));
      [Fetch(Search(page, postalCode, count)), Pause(PagePauseMs)] + Pages(page + 1, postalCode, count, n - 1)
  }

  /** A one-request log. */
  lemma OnePage(page: int, postalCode: string, count: Field<int>)
    ensures Pages(page, postalCode, count, Fetches([Fetch(Search(page, postalCode, count))])) == [Fetch(Search(page, postalCode, count))]
  {
    assert [Fetch(Search(page, postalCode, count))][1..] == [];
  }

  /** `n + 1` pages are the first page, a pause, and `n` pages from the next one on. */
  lemma PagesStep(page: int, postalCode: string, count: Field<int>, n: nat)
    requires n >= 1
    ensures Pages(page, postalCode, count, n + 1) ==
      [Fetch(Search(page, postalCode, count)), Pause(PagePauseMs)] + Pages(page + 1, postalCode, count, n)
  {
  }

  /** A postal code's crawl requests pages `page`, `page + 1`, … of that postal code with
      the same page size, and makes at least one request. */
  lemma {:induction false} CrawlLogShape(store: Store, rows: seq<ScrapedRow>, page: int, postalCode: string, count: Field<int>,
                                         responses: seq<Response>, k: nat, clock: nat -> Time)
    ensures var log := Crawl(store, rows, page, postalCode, count, responses, k, clock).log;
      Fetches(log) >= 1 && log == Pages(page, postalCode, count, Fetches(log))
    decreases |responses| - k
  {
    OnePage(page, postalCode, count);
    if k < |responses| {
      var p := store(rows, responses[k].results, clock(k));
      if responses[k].hasNextPage {
        var rest := Crawl(store, p.rows, page + 1, postalCode, count, responses, k + 1, clock).log;
        CrawlLogShape(store, p.rows, page + 1, postalCode, count, responses, k + 1, clock);
        FetchesOfStep(Search(page, postalCode, count), PagePauseMs, rest);
        PagesStep(page, postalCode, count, Fetches(rest));
      }
    }
  }

  /** A postal code's crawl goes on to the next page exactly when the request succeeded
      and the source reported a next page; it ends normally exactly on a page without
      one, having used one answer per request. */
  lemma {:induction false} CrawlFollowsNextPage(store: Store, rows: seq<ScrapedRow>, page: int, postalCode: string, count: Field<int>,
                                                responses: seq<Response>, k: nat, clock: nat -> Time)
    ensures var r := Crawl(store, rows, page, postalCode, count, responses, k, clock);
      && (Fetches(r.log) > 1 <==> k < |responses| && responses[k].hasNextPage)
      && (r.outcome == Done ==>
            (r.next == k + Fetches(r.log) && r.next <= |responses|
             && !responses[r.next - 1].hasNextPage
             && forall j :: k <= j < r.next - 1 ==> responses[j].hasNextPage))
    decreases |responses| - k
  {
    var log := [Fetch(Search(page, postalCode, count))];
    assert log[1..] == [];
    if k < |responses| {
      var p := store(rows, responses[k].results, clock(k));
      if responses[k].hasNextPage {
        CrawlFollowsNextPage(store, p.rows, page + 1, postalCode, count, responses, k + 1, clock);
        CrawlLogShape(store, p.rows, page + 1, postalCode, count, responses, k + 1, clock);
        FetchesOfStep(Search(page, postalCode, count), PagePauseMs, Crawl(store, p.rows, page + 1, postalCode, count, responses, k + 1, clock).log);
      }
    }
  }

  /** The postal codes of the first-page requests of a log, in order. */
  function Started(log: seq<Effect<Request>>): seq<string>
  {
    if log == [] then []
    else (if log[0].Fetch? && log[0].req.Search? && log[0].req.page == 1 then [log[0].req.postalCode] else [])
         + Started(log[1..])
  }

  lemma {:induction false} StartedAppend(a: seq<Effect<Request>>, b: seq<Effect<Request>>)
    ensures Started(a + b) == Started(a) + Started(b)
    decreases |a|
  {
    if a == [] {
      assert a + b == b;
    } else {
      assert (a + b)[1..] == a[1..] + b;
      StartedAppend(a[1..], b);
    }
  }

  /** The pages of one postal code crawled from page `page >= 1` start that postal code
      at most once: exactly once when `page` is 1. */
  lemma {:induction false} StartedPages(page: int, postalCode: string, count: Field<int>, n: nat)
    requires page >= 1 && n >= 1
    ensures Started(Pages(page, postalCode, count, n)) == if page == 1 then [postalCode] else []
    decreases n
  {
    if n == 1 {
      var log := [Fetch(Search(page, postalCode, count))];
      assert log[1..] == [];
    } else {
      StartedPages(page + 1, postalCode, count, n - 1);
      var head: seq<Effect<Request>> := [Fetch(Search(page, postalCode, count)), Pause(PagePauseMs)];
      StartedAppend(head, Pages(page + 1, postalCode, count, n - 1));
      assert head[1..][1..] == [];
    }
  }

  /** The loop visits the postal codes in list order, each exactly once: the first-page
      requests name a prefix of the labels, all of them when the run ends normally. */
  lemma {:induction false} CrawlAllVisitsInOrder(store: Store, rows: seq<ScrapedRow>, codes: seq<string>,
                                                 responses: seq<Response>, k: nat, clock: nat -> Time)
    ensures var r := CrawlAll(store, rows, codes, responses, k, clock);
      && var s := Started(r.log);
      && |s| <= |codes| && s == codes[..|s|]
      && (r.outcome == Done ==> s == codes)
    decreases |codes|
  {
    if codes == [] {
      assert Started([]) == [];
    } else {
      var r := Crawl(store, rows, 1, codes[0], Val(PageSize), responses, k, clock);
      CrawlLogShape(store, rows, 1, codes[0], Val(PageSize), responses, k, clock);
      StartedPages(1, codes[0], Val(PageSize), Fetches(r.log));
      if r.outcome != FetchFailed {
        CrawlAllVisitsInOrder(store, r.rows, codes[1..], responses, r.next, clock);
        var rest := CrawlAll(store, r.rows, codes[1..], responses, r.next, clock);
        VisitStep(codes, r.log, rest.log, rest.outcome == Done);
      }
    }
  }

  /** The inductive step of CrawlAllVisitsInOrder: one postal code's pages, the pause,
      then the rest of the loop. */
  lemma VisitStep(codes: seq<string>, first: seq<Effect<Request>>, rest: seq<Effect<Request>>, restDone: bool)
    requires codes != []
    requires Started(first) == [codes[0]]
    requires |Started(rest)| <= |codes[1..]| && Started(rest) == codes[1..][..|Started(rest)|]
    requires restDone ==> Started(rest) == codes[1..]
    ensures var s := Started(first + [Pause(AreaPauseMs)] + rest);
      |s| <= |codes| && s == codes[..|s|] && (restDone ==> s == codes)
  {
    StartedAppend(first + [Pause(AreaPauseMs)], rest);
    StartedAppend(first, [Pause(AreaPauseMs)]);
    var pause: seq<Effect<Request>> := [Pause(AreaPauseMs)];
    assert pause[1..] == [];
    var s := Started(rest);
    assert codes[1..][..|s|] == codes[1..|s| + 1];
    assert [codes[0]] + s == codes[..|s| + 1];
  }

  /** A loop through a store that only rewrites and appends keeps every existing row's
      key, creation time and promotion bookkeeping. */
  lemma {:induction false} CrawlKeepsBookkeeping(store: Store, rows: seq<ScrapedRow>, page: int, postalCode: string, count: Field<int>,
                                                 responses: seq<Response>, k: nat, clock: nat -> Time)
    requires KeepsRows(store)
    ensures var r := Crawl(store, rows, page, postalCode, count, responses, k, clock).rows;
      |r| >= |rows| && forall i :: 0 <= i < |rows| ==> SameBookkeeping(rows[i], r[i])
    decreases |responses| - k
  {
    if k < |responses| {
      var p := store(rows, responses[k].results, clock(k));
      if responses[k].hasNextPage {
        CrawlKeepsBookkeeping(store, p.rows, page + 1, postalCode, count, responses, k + 1, clock);
      }
    }
  }

  lemma {:induction false} CrawlAllKeepsBookkeeping(store: Store, rows: seq<ScrapedRow>, codes: seq<string>,
                                                    responses: seq<Response>, k: nat, clock: nat -> Time)
    requires KeepsRows(store)
    ensures var r := CrawlAll(store, rows, codes, responses, k, clock).rows;
      |r| >= |rows| && forall i :: 0 <= i < |rows| ==> SameBookkeeping(rows[i], r[i])
    decreases |codes|
  {
    if codes != [] {
      var r := Crawl(store, rows, 1, codes[0], Val(PageSize), responses, k, clock);
      CrawlKeepsBookkeeping(store, rows, 1, codes[0], Val(PageSize), responses, k, clock);
      if r.outcome != FetchFailed {
        CrawlAllKeepsBookkeeping(store, r.rows, codes[1..], responses, r.next, clock);
      }
    }
  }

  /** One level of a postal code's recursion, for a page whose store result is `p`. */
  lemma CrawlStep(store: Store, rows: seq<ScrapedRow>, page: int, postalCode: string, count: Field<int>,
                  responses: seq<Response>, k: nat, clock: nat -> Time, p: PageResult)
    requires k < |responses| && p == store(rows, responses[k].results, clock(k))
    ensures Crawl(store, rows, page, postalCode, count, responses, k, clock) ==
      if responses[k].hasNextPage then
        var rest := Crawl(store, p.rows, page + 1, postalCode, count, responses, k + 1, clock);
        Run(rest.rows, [Fetch(Search(page, postalCode, count)), Pause(PagePauseMs)] + rest.log, rest.outcome, rest.next)
      else Run(p.rows, [Fetch(Search(page, postalCode, count))], Done, k + 1)
  {
  }

  /** `getListings(page, postalCode, count)`, answered from `responses[k..]`. */
  method GetListings(db: Db, page: int, postalCode: string, count: Field<int>, responses: seq<Response>, k: nat,
                     hash: Payload -> Hash, clock: nat -> Time)
    returns (log: seq<Effect<Request>>, outcome: Outcome, next: nat)
    modifies db`scraped
    ensures var r := Crawl(Upsert(Home, hash), old(db.scraped), page, postalCode, count, responses, k, clock);
      db.scraped == r.rows && log == r.log && outcome == r.outcome && next == r.next
    decreases |responses| - k
  {
    if k >= |responses| {
      log, outcome, next := [Fetch(Search(page, postalCode, count))], FetchFailed, k;
      return;
    }
    var response := responses[k];
    ghost var before := db.scraped;
    var _ := db.StorePage(Home, response.results, hash, clock(k));
    CrawlStep(Upsert(Home, hash), before, page, postalCode, count, responses, k, clock,
              PageResult(db.scraped, UpsertPage(before, Home, response.results, hash, clock(k)).news));
    if response.hasNextPage {
      var rest;
      rest, outcome, next := GetListings(db, page + 1, postalCode, count, responses, k + 1, hash, clock);
      log := [Fetch(Search(page, postalCode, count)), Pause(PagePauseMs)] + rest;
    } else {
      log, outcome, next := [Fetch(Search(page, postalCode, count))], Done, k + 1;
    }
  }

  /** One round of the loop over the labels, for a first label whose crawl is `r`. */
  lemma CrawlAllStep(store: Store, rows: seq<ScrapedRow>, codes: seq<string>,
                     responses: seq<Response>, k: nat, clock: nat -> Time, r: Run<Request>)
    requires codes != [] && r == Crawl(store, rows, 1, codes[0], Val(PageSize), responses, k, clock)
    ensures CrawlAll(store, rows, codes, responses, k, clock) ==
      if r.outcome == FetchFailed then r
      else
        var rest := CrawlAll(store, r.rows, codes[1..], responses, r.next, clock);
        Run(rest.rows, r.log + [Pause(AreaPauseMs)] + rest.log, rest.outcome, rest.next)
  {
  }

  /** The loop invariant: the requests made so far, followed by the crawl of the labels
      from `i` on, make up the whole run `goal`. */
  ghost predicate LoopState(store: Store, goal: Run<Request>, rows: seq<ScrapedRow>, codes: seq<string>, i: nat,
                            responses: seq<Response>, next: nat, clock: nat -> Time, log: seq<Effect<Request>>)
    requires i <= |codes|
  {
    var rest := CrawlAll(store, rows, codes[i..], responses, next, clock);
    goal == Run(rest.rows, log + rest.log, rest.outcome, rest.next)
  }

  /** One round of the loop keeps the invariant, or, after a failed request, completes
      the run. */
  lemma LoopStep(store: Store, goal: Run<Request>, rows: seq<ScrapedRow>, codes: seq<string>, i: nat,
                 responses: seq<Response>, next: nat, clock: nat -> Time, log: seq<Effect<Request>>, r: Run<Request>)
    requires i < |codes| && LoopState(store, goal, rows, codes, i, responses, next, clock, log)
    requires r == Crawl(store, rows, 1, codes[i], Val(PageSize), responses, next, clock)
    ensures r.outcome == FetchFailed ==> goal == Run(r.rows, log + r.log, r.outcome, r.next)
    ensures r.outcome != FetchFailed ==> LoopState(store, goal, r.rows, codes, i + 1, responses, r.next, clock, log + r.log + [Pause(AreaPauseMs)])
  {
    CrawlAllStep(store, rows, codes[i..], responses, next, clock, r);
    assert codes[i..][1..] == codes[i + 1..];
  }

  /** The loop over the labels, `for (const postalCode of postalCodes)`, from label `i`
      on, answered from `responses[k..]`. */
  method CrawlLabels(db: Db, codes: seq<string>, responses: seq<Response>, k: nat,
                     hash: Payload -> Hash, clock: nat -> Time)
    returns (log: seq<Effect<Request>>, outcome: Outcome)
    modifies db`scraped
    ensures var r := CrawlAll(Upsert(Home, hash), old(db.scraped), codes, responses, k, clock);
      db.scraped == r.rows && log == r.log && outcome == r.outcome
  {
    ghost var store := Upsert(Home, hash);
    ghost var goal := CrawlAll(store, db.scraped, codes, responses, k, clock);
    var next := k;
    log := [];
    for i := 0 to |codes|
      invariant LoopState(store, goal, db.scraped, codes, i, responses, next, clock, log)
    {
      ghost var before := db.scraped;
      var partLog, partOutcome, partNext := GetListings(db, 1, codes[i], Val(PageSize), responses, next, hash, clock);
      LoopStep(store, goal, before, codes, i, responses, next, clock, log, Run(db.scraped, partLog, partOutcome, partNext));
      if partOutcome == FetchFailed {
        log := log + partLog;
        outcome := FetchFailed;
        return;
      }
      log := log + partLog + [Pause(AreaPauseMs)];
      next := partNext;
    }
    outcome := Done;
  }

  /** The script: fetch the postal areas, then crawl every label in order. */
  method ScrapeAll(db: Db, areas: Option<seq<PostalArea>>, responses: seq<Response>,
                   hash: Payload -> Hash, clock: nat -> Time)
    returns (log: seq<Effect<Request>>, outcome: Outcome)
    modifies db`scraped
    ensures var r := ScrapeAllRun(Upsert(Home, hash), old(db.scraped), areas, responses, clock);
      db.scraped == r.rows && log == r.log && outcome == r.outcome
  {
    if areas.None? {
      log, outcome := [Fetch(PostalAreas)], FetchFailed;
      return;
    }
    var rest;
    rest, outcome := CrawlLabels(db, Labels(areas.value), responses, 0, hash, clock);
    log := [Fetch(PostalAreas)] + rest;
  }
}
