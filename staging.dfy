/** The raw staging table `scraped_listings` and the classification every crawl script
    applies to one fetched page of candidate records: a candidate whose
    (externalId, externalSource) is absent is inserted with its hash, one whose stored
    hash is equal is skipped, and one whose stored hash differs has json, hash and
    updatedAt replaced in place. */
module Staging {
  import opened Wrappers

  type Time = nat
  /** Row identities; a row's id is its position in its table. */
  type Id = nat
  /** The digest `ohash.hash` returns. */
  type Hash = string

  /** The sites records come from, stored as `externalSource` ('nybolig' / 'home'). */
  datatype Source = Nybolig | Home

  /** One image entry of a home.dk search result (`presentationMedia[k]`). */
  datatype HomeMedia = HomeMedia(url: Field<string>, altText: Field<string>)

  /** The properties of a nybolig.dk search result that the processor reads. */
  datatype NyboligCase = NyboligCase(
    siteName: Field<string>,
    url: Field<string>,
    addressDisplayName: Field<string>,
    kind: Field<string>,
    propertySize: Field<int>,
    livingSpace: Field<int>,
    basementSize: Field<int>,
    cashPrice: Field<int>,
    energyClassification: Field<string>,
    totalNumberOfRooms: Field<int>,
    imageUrl: Field<string>,
    imageAlt: Field<string>)

  /** `address` of a home.dk search result. */
  datatype HomeAddress = HomeAddress(full: Field<string>)

  /** `stats` of a home.dk search result. */
  datatype HomeStats = HomeStats(plotArea: Field<int>, floorArea: Field<int>)

  /** `offer.price` of a home.dk search result. */
  datatype HomePrice = HomePrice(amount: Field<int>)

  /** `offer` of a home.dk search result. */
  datatype HomeOffer = HomeOffer(price: Field<HomePrice>)

  /** The properties of a home.dk search result that the processor reads. The nested
      objects are kept nested: reading a property of one that is null or undefined
      throws. */
  datatype HomeCase = HomeCase(
    isExternal: Field<bool>,
    isRentalCase: Field<bool>,
    url: Field<string>,
    kind: Field<string>,
    address: Field<HomeAddress>,
    stats: Field<HomeStats>,
    offer: Field<HomeOffer>,
    presentationMedia: Field<seq<HomeMedia>>)

  /** A search result as stored in the `json` column: the properties the processor
      reads, plus every other property of the record kept as opaque text. */
  datatype Payload =
    | NyboligPayload(nybolig: NyboligCase, rest: string)
    | HomePayload(home: HomeCase, rest: string)

  /** One record of a fetched page, with the id the source gives it. */
  datatype Candidate = Candidate(id: string, json: Payload)

  /** A row of `scraped_listings`. `listingId` and `processedAt` are the promotion
      bookkeeping: both NULL means not processed yet. */
  datatype ScrapedRow = ScrapedRow(
    externalSource: Source,
    externalId: string,
    json: Payload,
    hash: Hash,
    createdAt: Time,
    updatedAt: Time,
    listingId: Option<Id>,
    processedAt: Option<Time>)

  /** The lookup condition `externalId = id AND externalSource = src`. */
  predicate Keyed(r: ScrapedRow, src: Source, id: string)
  {
    r.externalSource == src && r.externalId == id
  }

  /** The row the lookup returns (`existingListing[0]`). The select has no `orderBy`,
      so with several rows of one key the database may return any of them; the model
      takes the first one in id order. */
  function FirstMatch(rows: seq<ScrapedRow>, src: Source, id: string): (r: Option<Id>)
    ensures r.Some? ==> (r.value < |rows| && Keyed(rows[r.value], src, id)
                         && forall j :: 0 <= j < r.value ==> !Keyed(rows[j], src, id))
    ensures r.None? <==> forall j :: 0 <= j < |rows| ==> !Keyed(rows[j], src, id)
    decreases |rows|
  {
    if rows == [] then None
    else if Keyed(rows[0], src, id) then Some(0)
    else match FirstMatch(rows[1..], src, id)
      case None => None
      case Some(i) => Some(i + 1)
  }

  /** Two tables that agree on every row's key. */
  predicate SameKeys(a: seq<ScrapedRow>, b: seq<ScrapedRow>)
  {
    |a| == |b| &&
    forall i :: 0 <= i < |a| ==> a[i].externalSource == b[i].externalSource && a[i].externalId == b[i].externalId
  }

  /** The lookup depends on the keys only. */
  lemma {:induction false} FirstMatchSameKeys(a: seq<ScrapedRow>, b: seq<ScrapedRow>, src: Source, id: string)
    requires SameKeys(a, b)
    ensures FirstMatch(a, src, id) == FirstMatch(b, src, id)
    decreases |a|
  {
    if a != [] {
      assert SameKeys(a[1..], b[1..]) by {
        forall i | 0 <= i < |a[1..]|
          ensures a[1..][i].externalSource == b[1..][i].externalSource && a[1..][i].externalId == b[1..][i].externalId
        {
          assert a[1..][i] == a[i + 1] && b[1..][i] == b[i + 1];
        }
      }
      FirstMatchSameKeys(a[1..], b[1..], src, id);
    }
  }

  /** A lookup over a table with rows appended finds an old row first, if any. */
  lemma {:induction false} FirstMatchAppend(a: seq<ScrapedRow>, b: seq<ScrapedRow>, src: Source, id: string)
    ensures FirstMatch(a + b, src, id) ==
      match FirstMatch(a, src, id)
      case Some(i) => Some(i)
      case None => match FirstMatch(b, src, id) case None => None case Some(j) => Some(|a| + j)
    decreases |a|
  {
    if a == [] {
      assert a + b == b;
    } else {
      assert (a + b)[0] == a[0];
      assert (a + b)[1..] == a[1..] + b;
      FirstMatchAppend(a[1..], b, src, id);
    }
  }

  /** What the lookup decides about a candidate. */
  datatype Verdict = New | Unchanged | Changed

  /** Absent: new; the first matching row's hash equal to the candidate's: unchanged;
      otherwise changed. Only the first row is compared when several match. */
  function Classify(rows: seq<ScrapedRow>, src: Source, c: Candidate, hash: Payload -> Hash): (v: Verdict)
    ensures v == New <==> FirstMatch(rows, src, c.id).None?
    ensures v == Unchanged <==> FirstMatch(rows, src, c.id).Some? && rows[FirstMatch(rows, src, c.id).value].hash == hash(c.json)
  {
    match FirstMatch(rows, src, c.id)
    case None => New
    case Some(i) => if rows[i].hash == hash(c.json) then Unchanged else Changed
  }

  /** The UPDATE of a changed candidate: every row with the candidate's key gets the new
      json, hash and updatedAt; every other column and every other row is kept. */
  function UpdateKeyed(rows: seq<ScrapedRow>, src: Source, c: Candidate, hash: Payload -> Hash, now: Time): (r: seq<ScrapedRow>)
    ensures |r| == |rows|
    ensures forall i :: 0 <= i < |rows| && Keyed(rows[i], src, c.id) ==>
      r[i] == rows[i].(json := c.json, hash := hash(c.json), updatedAt := now)
    ensures forall i :: 0 <= i < |rows| && !Keyed(rows[i], src, c.id) ==> r[i] == rows[i]
  {
    seq(|rows|, i requires 0 <= i < |rows| =>
      if Keyed(rows[i], src, c.id) then rows[i].(json := c.json, hash := hash(c.json), updatedAt := now)
      else rows[i])
  }

  /** The row the INSERT of a new candidate creates (createdAt and updatedAt default to
      the current time, the bookkeeping columns to NULL). */
  function NewRow(src: Source, c: Candidate, hash: Payload -> Hash, now: Time): ScrapedRow
  {
    ScrapedRow(src, c.id, c.json, hash(c.json), now, now, None, None)
  }

  /** The state of a page's classification: the table as updates leave it, and the
      candidates found to be new, in page order. */
  datatype PageResult = PageResult(rows: seq<ScrapedRow>, news: seq<Candidate>)

  /** Classification of one more candidate against the table as it stands. */
  function ClassifyStep(acc: PageResult, src: Source, c: Candidate, hash: Payload -> Hash, now: Time): PageResult
  {
    match Classify(acc.rows, src, c, hash)
    case New => PageResult(acc.rows, acc.news + [c])
    case Unchanged => acc
    case Changed => PageResult(UpdateKeyed(acc.rows, src, c, hash, now), acc.news)
  }

  /** The classification pass over a page (the `Promise.all` map and its `filter`),
      taken one candidate after the other, inserting nothing yet. */
  function ClassifyPage(rows: seq<ScrapedRow>, src: Source, page: seq<Candidate>, hash: Payload -> Hash, now: Time): (r: PageResult)
    ensures |r.rows| == |rows| && |r.news| <= |page|
    decreases |page|
  {
    if page == [] then PageResult(rows, [])
    else ClassifyStep(ClassifyPage(rows, src, page[..|page| - 1], hash, now), src, page[|page| - 1], hash, now)
  }

  /** The rows the insertion loop appends for the new candidates. */
  function InsertRows(src: Source, news: seq<Candidate>, hash: Payload -> Hash, now: Time): (r: seq<ScrapedRow>)
    ensures |r| == |news|
    ensures forall k :: 0 <= k < |news| ==> r[k] == NewRow(src, news[k], hash, now)
  {
    seq(|news|, k requires 0 <= k < |news| => NewRow(src, news[k], hash, now))
  }

  /** A whole page: classify, then insert the new candidates in order. `news` is what
      the continuation rules count. */
  function UpsertPage(rows: seq<ScrapedRow>, src: Source, page: seq<Candidate>, hash: Payload -> Hash, now: Time): (r: PageResult)
    ensures |r.rows| == |rows| + |r.news| && |r.news| <= |page|
  {
    var p := ClassifyPage(rows, src, page, hash, now);
    PageResult(p.rows + InsertRows(src, p.news, hash, now), p.news)
  }

  /** The candidates of a page whose key is absent from the table, in page order. */
  function AbsentOnes(rows: seq<ScrapedRow>, src: Source, page: seq<Candidate>): (r: seq<Candidate>)
    ensures |r| <= |page|
    decreases |page|
  {
    if page == [] then []
    else AbsentOnes(rows, src, page[..|page| - 1])
         + (if FirstMatch(rows, src, page[|page| - 1].id).None? then [page[|page| - 1]] else [])
  }

  /** The row of `b` keeps the key and the promotion bookkeeping of the row of `a`. */
  predicate SameBookkeeping(a: ScrapedRow, b: ScrapedRow)
  {
    a.externalSource == b.externalSource && a.externalId == b.externalId
    && a.createdAt == b.createdAt && a.listingId == b.listingId && a.processedAt == b.processedAt
  }

  /** The classification pass writes existing rows only: it keeps every row's key,
      createdAt, listingId and processedAt, and leaves rows of keys that are not on the
      page exactly as they were; the new candidates are exactly the page's candidates
      that were absent at the start of the page, in page order, so updated and skipped
      records never count as new. */
  lemma {:induction false} ClassifyPageSpec(rows: seq<ScrapedRow>, src: Source, page: seq<Candidate>, hash: Payload -> Hash, now: Time)
    ensures var r := ClassifyPage(rows, src, page, hash, now).rows;
      && SameKeys(r, rows)
      && (forall i :: 0 <= i < |rows| ==> SameBookkeeping(rows[i], r[i]))
      && (forall i :: 0 <= i < |rows| && (forall k :: 0 <= k < |page| ==> !Keyed(rows[i], src, page[k].id)) ==> r[i] == rows[i])
    ensures ClassifyPage(rows, src, page, hash, now).news == AbsentOnes(rows, src, page)
    decreases |page|
  {
    if page != [] {
      var init := page[..|page| - 1];
      var c := page[|page| - 1];
      ClassifyPageSpec(rows, src, init, hash, now);
      var acc := ClassifyPage(rows, src, init, hash, now);
      FirstMatchSameKeys(acc.rows, rows, src, c.id);
      ClassifyStepSpec(acc, src, c, hash, now);
      var r := ClassifyPage(rows, src, page, hash, now);
      assert r == ClassifyStep(acc, src, c, hash, now);
      forall i | 0 <= i < |rows| && (forall k :: 0 <= k < |page| ==> !Keyed(rows[i], src, page[k].id))
        ensures r.rows[i] == rows[i]
      {
        forall k | 0 <= k < |init| ensures !Keyed(rows[i], src, init[k].id) {
          assert init[k] == page[k];
        }
        assert !Keyed(rows[i], src, page[|page| - 1].id);
      }
    }
  }

  /** One classification step keeps keys and bookkeeping, touches only rows of the
      candidate's key, and adds the candidate to `news` exactly when it is absent. */
  lemma ClassifyStepSpec(acc: PageResult, src: Source, c: Candidate, hash: Payload -> Hash, now: Time)
    ensures var r := ClassifyStep(acc, src, c, hash, now);
      && SameKeys(r.rows, acc.rows)
      && (forall i :: 0 <= i < |acc.rows| ==> SameBookkeeping(acc.rows[i], r.rows[i]))
      && (forall i :: 0 <= i < |acc.rows| && !Keyed(acc.rows[i], src, c.id) ==> r.rows[i] == acc.rows[i])
      && r.news == acc.news + (if FirstMatch(acc.rows, src, c.id).None? then [c] else [])
  {
  }

  /** The whole page keeps every existing row's key and bookkeeping, appends exactly one
      row per absent candidate, with that candidate's id, json and hash and both
      timestamps set to the page's time, and reports those candidates as new. */
  lemma UpsertPageSpec(rows: seq<ScrapedRow>, src: Source, page: seq<Candidate>, hash: Payload -> Hash, now: Time)
    ensures var r := UpsertPage(rows, src, page, hash, now);
      && r.news == AbsentOnes(rows, src, page)
      && |r.rows| == |rows| + |r.news|
      && (forall i :: 0 <= i < |rows| ==> SameBookkeeping(rows[i], r.rows[i]))
      && (forall k :: 0 <= k < |r.news| ==> r.rows[|rows| + k] == NewRow(src, r.news[k], hash, now))
  {
    ClassifyPageSpec(rows, src, page, hash, now);
  }

  /** A candidate absent from the table is classified new and inserted with its hash. */
  lemma AbsentIsInserted(rows: seq<ScrapedRow>, src: Source, c: Candidate, hash: Payload -> Hash, now: Time)
    requires FirstMatch(rows, src, c.id).None?
    ensures UpsertPage(rows, src, [c], hash, now) == PageResult(rows + [NewRow(src, c, hash, now)], [c])
  {
    OnePage(rows, src, c, hash, now);
  }

  /** A candidate whose first matching row has an equal hash causes no write. */
  lemma EqualHashIsSkipped(rows: seq<ScrapedRow>, src: Source, c: Candidate, hash: Payload -> Hash, now: Time)
    requires FirstMatch(rows, src, c.id).Some?
    requires rows[FirstMatch(rows, src, c.id).value].hash == hash(c.json)
    ensures UpsertPage(rows, src, [c], hash, now) == PageResult(rows, [])
  {
    OnePage(rows, src, c, hash, now);
  }

  /** A candidate whose first matching row's hash differs replaces json, hash and
      updatedAt of its rows, leaves the promotion bookkeeping alone, inserts nothing and
      is not counted as new. */
  lemma ChangedHashIsUpdated(rows: seq<ScrapedRow>, src: Source, c: Candidate, hash: Payload -> Hash, now: Time)
    requires FirstMatch(rows, src, c.id).Some?
    requires rows[FirstMatch(rows, src, c.id).value].hash != hash(c.json)
    ensures var r := UpsertPage(rows, src, [c], hash, now);
      && r.news == []
      && |r.rows| == |rows|
      && (forall i :: 0 <= i < |rows| && Keyed(rows[i], src, c.id) ==>
            r.rows[i].json == c.json && r.rows[i].hash == hash(c.json) && r.rows[i].updatedAt == now
            && SameBookkeeping(rows[i], r.rows[i]))
      && (forall i :: 0 <= i < |rows| && !Keyed(rows[i], src, c.id) ==> r.rows[i] == rows[i])
  {
    OnePage(rows, src, c, hash, now);
  }

  /** A page of one candidate is one classification step. */
  lemma OnePage(rows: seq<ScrapedRow>, src: Source, c: Candidate, hash: Payload -> Hash, now: Time)
    ensures ClassifyPage(rows, src, [c], hash, now) == ClassifyStep(PageResult(rows, []), src, c, hash, now)
  {
    assert [c][..0] == [];
    assert ClassifyPage(rows, src, [], hash, now) == PageResult(rows, []);
  }

  /** Candidates of one page with the same id have the same hash (true of every page
      whose ids are distinct). */
  predicate ConsistentPage(page: seq<Candidate>, hash: Payload -> Hash)
  {
    forall i, j :: 0 <= i < |page| && 0 <= j < |page| && page[i].id == page[j].id ==>
      hash(page[i].json) == hash(page[j].json)
  }

  /** The stored hash that the lookup of `c` compares against equals the hash of `c`. */
  predicate Settled(rows: seq<ScrapedRow>, src: Source, c: Candidate, hash: Payload -> Hash)
  {
    FirstMatch(rows, src, c.id).Some? && rows[FirstMatch(rows, src, c.id).value].hash == hash(c.json)
  }

  /** A candidate is settled in the table, or absent from it and waiting in `news`. */
  predicate SettledOrWaiting(acc: PageResult, src: Source, c: Candidate, hash: Payload -> Hash)
  {
    Settled(acc.rows, src, c, hash) || (FirstMatch(acc.rows, src, c.id).None? && c in acc.news)
  }

  /** Classifying `d` settles `d` itself. */
  lemma StepSettles(acc: PageResult, src: Source, d: Candidate, hash: Payload -> Hash, now: Time)
    ensures SettledOrWaiting(ClassifyStep(acc, src, d, hash, now), src, d, hash)
  {
    var r := ClassifyStep(acc, src, d, hash, now);
    ClassifyStepSpec(acc, src, d, hash, now);
    FirstMatchSameKeys(r.rows, acc.rows, src, d.id);
  }

  /** Classifying `d` keeps an earlier candidate `c` settled or waiting, provided the two
      have the same hash when they have the same id. */
  lemma StepKeepsSettled(acc: PageResult, src: Source, d: Candidate, c: Candidate, hash: Payload -> Hash, now: Time)
    requires c.id == d.id ==> hash(c.json) == hash(d.json)
    requires SettledOrWaiting(acc, src, c, hash)
    ensures SettledOrWaiting(ClassifyStep(acc, src, d, hash, now), src, c, hash)
  {
    var r := ClassifyStep(acc, src, d, hash, now);
    ClassifyStepSpec(acc, src, d, hash, now);
    FirstMatchSameKeys(r.rows, acc.rows, src, c.id);
    if FirstMatch(acc.rows, src, c.id).Some? {
      var i := FirstMatch(acc.rows, src, c.id).value;
      if c.id != d.id {
        assert !Keyed(acc.rows[i], src, d.id);
      }
    }
  }

  /** What holds of a prefix of a consistent page once it is classified: every candidate
      so far is settled in the table or waiting in `news`, and every waiting candidate
      comes from the page. */
  lemma {:induction false} ClassifyPrefixSettles(rows: seq<ScrapedRow>, src: Source, page: seq<Candidate>, m: nat, hash: Payload -> Hash, now: Time)
    requires ConsistentPage(page, hash)
    requires m <= |page|
    ensures var acc := ClassifyPage(rows, src, page[..m], hash, now);
      && (forall k :: 0 <= k < m ==> SettledOrWaiting(acc, src, page[k], hash))
      && (forall x :: x in acc.news ==> x in page)
    decreases m
  {
    if m == 0 {
      assert page[..0] == [];
    } else {
      ClassifyPrefixSettles(rows, src, page, m - 1, hash, now);
      assert page[..m][..m - 1] == page[..m - 1];
      var prev := ClassifyPage(rows, src, page[..m - 1], hash, now);
      assert ClassifyPage(rows, src, page[..m], hash, now) == ClassifyStep(prev, src, page[m - 1], hash, now);
      PrefixStepSettles(prev, src, page, m, hash, now);
    }
  }

  /** The inductive step of ClassifyPrefixSettles. */
  lemma PrefixStepSettles(prev: PageResult, src: Source, page: seq<Candidate>, m: nat, hash: Payload -> Hash, now: Time)
    requires ConsistentPage(page, hash)
    requires 0 < m <= |page|
    requires forall k :: 0 <= k < m - 1 ==> SettledOrWaiting(prev, src, page[k], hash)
    requires forall x :: x in prev.news ==> x in page
    ensures var acc := ClassifyStep(prev, src, page[m - 1], hash, now);
      && (forall k :: 0 <= k < m ==> SettledOrWaiting(acc, src, page[k], hash))
      && (forall x :: x in acc.news ==> x in page)
  {
    var d := page[m - 1];
    var acc := ClassifyStep(prev, src, d, hash, now);
    ClassifyStepSpec(prev, src, d, hash, now);
    forall k | 0 <= k < m ensures SettledOrWaiting(acc, src, page[k], hash) {
      if k == m - 1 {
        StepSettles(prev, src, d, hash, now);
      } else {
        if page[k].id == d.id {
          assert hash(page[k].json) == hash(page[m - 1].json);
        }
        StepKeepsSettled(prev, src, d, page[k], hash, now);
      }
    }
  }

  /** Settled candidates classify as unchanged, so a page of them is a no-op. */
  lemma {:induction false} SettledPageIsNoOp(rows: seq<ScrapedRow>, src: Source, page: seq<Candidate>, hash: Payload -> Hash, now: Time)
    requires forall k :: 0 <= k < |page| ==> Settled(rows, src, page[k], hash)
    ensures ClassifyPage(rows, src, page, hash, now) == PageResult(rows, [])
    decreases |page|
  {
    if page != [] {
      SettledPageIsNoOp(rows, src, page[..|page| - 1], hash, now);
    }
  }

  /** Idempotent re-crawl: feeding the same (consistent) page a second time, at any
      later time, writes nothing and finds nothing new. */
  lemma UpsertPageIdempotent(rows: seq<ScrapedRow>, src: Source, page: seq<Candidate>, hash: Payload -> Hash, now: Time, later: Time)
    requires ConsistentPage(page, hash)
    ensures var once := UpsertPage(rows, src, page, hash, now).rows;
      UpsertPage(once, src, page, hash, later) == PageResult(once, [])
  {
    var p := ClassifyPage(rows, src, page, hash, now);
    var once := p.rows + InsertRows(src, p.news, hash, now);
    ClassifyPrefixSettles(rows, src, page, |page|, hash, now);
    assert page[..|page|] == page;
    forall k | 0 <= k < |page| ensures Settled(once, src, page[k], hash) {
      InsertSettles(p, src, page, page[k], hash, now);
    }
    SettledPageIsNoOp(once, src, page, hash, later);
  }

  /** After the insertion loop, a candidate that was settled or waiting is settled. */
  lemma InsertSettles(p: PageResult, src: Source, page: seq<Candidate>, c: Candidate, hash: Payload -> Hash, now: Time)
    requires ConsistentPage(page, hash)
    requires c in page
    requires SettledOrWaiting(p, src, c, hash)
    requires forall x :: x in p.news ==> x in page
    ensures Settled(p.rows + InsertRows(src, p.news, hash, now), src, c, hash)
  {
    var ins := InsertRows(src, p.news, hash, now);
    FirstMatchAppend(p.rows, ins, src, c.id);
    if !Settled(p.rows, src, c, hash) {
      var n :| 0 <= n < |p.news| && p.news[n] == c;
      assert Keyed(ins[n], src, c.id);
      var j := FirstMatch(ins, src, c.id).value;
      assert p.news[j] in page;
      var a :| 0 <= a < |page| && page[a] == p.news[j];
      var b :| 0 <= b < |page| && page[b] == c;
      assert hash(page[a].json) == hash(page[b].json);
    }
  }

  /** The writes a crawl script makes for one fetched page, as its recursion sees them:
      the table before, the page, the time; the table after and the new candidates. */
  type Store = (seq<ScrapedRow>, seq<Candidate>, Time) -> PageResult

  /** The page upsert of source `src`, as a `Store`. */
  function Upsert(src: Source, hash: Payload -> Hash): Store
  {
    (rows: seq<ScrapedRow>, page: seq<Candidate>, now: Time) => UpsertPage(rows, src, page, hash, now)
  }

  /** A store that only rewrites and appends: every existing row keeps its key, creation
      time and promotion bookkeeping. */
  ghost predicate KeepsRows(store: Store)
  {
    forall rows, page, now ::
      |store(rows, page, now).rows| >= |rows| &&
      forall i :: 0 <= i < |rows| ==> SameBookkeeping(rows[i], store(rows, page, now).rows[i])
  }

  /** The page upsert is such a store. */
  lemma UpsertKeepsRows(src: Source, hash: Payload -> Hash)
    ensures KeepsRows(Upsert(src, hash))
  {
    forall rows, page, now
      ensures |Upsert(src, hash)(rows, page, now).rows| >= |rows|
      ensures forall i :: 0 <= i < |rows| ==> SameBookkeeping(rows[i], Upsert(src, hash)(rows, page, now).rows[i])
    {
      UpsertPageSpec(rows, src, page, hash, now);
    }
  }
}
