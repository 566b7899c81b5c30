/** What the four crawl scripts do besides writing the staging table: the requests they
    send and the pauses between them, in order, and how a run ends. */
module CrawlLog {
  import opened Staging

  /** A request with body or query `req`, or a `setTimeout` pause of `ms` milliseconds. */
  datatype Effect<R> = Fetch(req: R) | Pause(ms: nat)

  /** `Done`: the script's recursion came to an end; `FetchFailed`: a request failed and
      the rejected promise ended the script. */
  datatype Outcome = Done | FetchFailed

  /** The staging table after a run, what the run did in order, how it ended, and how many
      of the source's answers it consumed. */
  datatype Run<R> = Run(rows: seq<ScrapedRow>, log: seq<Effect<R>>, outcome: Outcome, next: nat)

  /** The number of requests in a log. */
  function Fetches<R>(log: seq<Effect<R>>): (n: nat)
    ensures n <= |log|
  {
    if log == [] then 0 else (if log[0].Fetch? then 1 else 0) + Fetches(log[1..])
  }

  /** Requests of concatenated logs add up. */
  lemma {:induction false} FetchesAppend<R>(a: seq<Effect<R>>, b: seq<Effect<R>>)
    ensures Fetches(a + b) == Fetches(a) + Fetches(b)
    decreases |a|
  {
    if a == [] {
      assert a + b == b;
    } else {
      assert (a + b)[1..] == a[1..] + b;
      FetchesAppend(a[1..], b);
    }
  }

  /** A request followed by a pause, then the rest. */
  lemma FetchesOfStep<R>(req: R, ms: nat, rest: seq<Effect<R>>)
    ensures Fetches([Fetch(req), Pause(ms)] + rest) == Fetches(rest) + 1
  {
    var log := [Fetch(req), Pause(ms)] + rest;
    assert log[1..][1..] == rest;
  }
}
