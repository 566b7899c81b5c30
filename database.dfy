/** The PostgreSQL database the scripts and the API write through Drizzle, as an object
    whose tables are fields. Each method is one SQL statement (or, for `StorePage`, the
    statements a crawl script issues for one fetched page), and says how it changes the
    tables in terms of the functions of `Staging` and `Catalog`. */
module Database {
  import opened Wrappers
  import opened Staging
  import opened Catalog

  /** The first listing type with the given name (`where name = ?`, `[0]`). */
  function TypeNamed(types: seq<ListingType>, name: string): (r: Option<Id>)
    ensures r.Some? ==> r.value < |types| && types[r.value].name == name
                        && forall j :: 0 <= j < r.value ==> types[j].name != name
    ensures r.None? <==> forall j :: 0 <= j < |types| ==> types[j].name != name
    decreases |types|
  {
    if types == [] then None
    else if types[0].name == name then Some(0)
    else match TypeNamed(types[1..], name)
      case None => None
      case Some(i) => Some(i + 1)
  }

  class Db {
    var scraped: seq<ScrapedRow>
    var addresses: seq<Address>
    var types: seq<ListingType>
    var listings: seq<Listing>
    var images: seq<ListingImage>

    /** The contents of every table. */
    function State(): State
      reads this
    {
      Catalog.State(scraped, addresses, types, listings, images)
    }

    constructor (s: State)
      ensures State() == s
    {
      scraped := s.scraped;
      addresses := s.addresses;
      types := s.types;
      listings := s.listings;
      images := s.images;
    }

    /** A transaction's rollback: every table returns to the contents it had at BEGIN. */
    method Rollback(saved: State)
      modifies this
      ensures State() == saved
    {
      scraped := saved.scraped;
      addresses := saved.addresses;
      types := saved.types;
      listings := saved.listings;
      images := saved.images;
    }

    /** `select … from scraped_listings where externalId = id and externalSource = src`,
        keeping the first row. */
    method LookupStaged(src: Source, id: string) returns (r: Option<Id>)
      ensures r == FirstMatch(scraped, src, id)
    {
      r := FirstMatch(scraped, src, id);
    }

    /** `update scraped_listings set json, hash, updatedAt where externalId = c.id and
        externalSource = src`. */
    method RewriteStaged(src: Source, c: Candidate, hash: Payload -> Hash, now: Time)
      modifies this`scraped
      ensures scraped == UpdateKeyed(old(scraped), src, c, hash, now)
    {
      scraped := UpdateKeyed(scraped, src, c, hash, now);
    }

    /** `insert into scraped_listings (externalSource, externalId, json, hash)`. */
    method InsertStaged(src: Source, c: Candidate, hash: Payload -> Hash, now: Time)
      modifies this`scraped
      ensures scraped == old(scraped) + [NewRow(src, c, hash, now)]
    {
      scraped := scraped + [NewRow(src, c, hash, now)];
    }

    /** The lookup pass of a page: every candidate is looked up; an existing one is
        skipped or rewritten, an absent one collected, in page order. */
    method ClassifyCandidates(src: Source, page: seq<Candidate>, hash: Payload -> Hash, now: Time) returns (news: seq<Candidate>)
      modifies this`scraped
      ensures ClassifyPage(old(scraped), src, page, hash, now) == PageResult(scraped, news)
    {
      news := [];
      for i := 0 to |page|
        invariant ClassifyPage(old(scraped), src, page[..i], hash, now) == PageResult(scraped, news)
      {
        assert page[..i + 1][..i] == page[..i];
        var c := page[i];
        var found := LookupStaged(src, c.id);
        if found.None? {
          news := news + [c];
        } else if scraped[found.value].hash == hash(c.json) {
        } else {
          RewriteStaged(src, c, hash, now);
        }
      }
      assert page[..|page|] == page;
    }

    /** The insertion loop of a page: one INSERT per new candidate, in order. */
    method InsertCandidates(src: Source, news: seq<Candidate>, hash: Payload -> Hash, now: Time)
      modifies this`scraped
      ensures scraped == old(scraped) + InsertRows(src, news, hash, now)
    {
      for k := 0 to |news|
        invariant scraped == old(scraped) + InsertRows(src, news[..k], hash, now)
      {
        InsertStaged(src, news[k], hash, now);
        assert InsertRows(src, news[..k + 1], hash, now) == InsertRows(src, news[..k], hash, now) + [NewRow(src, news[k], hash, now)];
      }
      assert news[..|news|] == news;
    }

    /** What every crawl script does with one fetched page: the lookup pass, then the
        insertion loop. Returns the number of new candidates, which is what the scripts'
        continuation rules test. */
    method StorePage(src: Source, page: seq<Candidate>, hash: Payload -> Hash, now: Time) returns (newCount: nat)
      modifies this`scraped
      ensures scraped == Staging.UpsertPage(old(scraped), src, page, hash, now).rows
      ensures newCount == |Staging.UpsertPage(old(scraped), src, page, hash, now).news|
    {
      var news := ClassifyCandidates(src, page, hash, now);
      InsertCandidates(src, news, hash, now);
      newCount := |news|;
    }

    /** `update scraped_listings set listingId, processedAt where id = row`; no row has
        an id outside the table, so then nothing changes. */
    method SetBookkeeping(row: Id, listingId: Option<Id>, processedAt: Option<Time>)
      modifies this`scraped
      ensures row < |old(scraped)| ==> scraped == old(scraped)[row := old(scraped)[row].(listingId := listingId, processedAt := processedAt)]
      ensures row >= |old(scraped)| ==> scraped == old(scraped)
    {
      if row < |scraped| {
        scraped := scraped[row := scraped[row].(listingId := listingId, processedAt := processedAt)];
      }
    }

    /** `insert into addresses … returning`. */
    method InsertAddress(a: Address) returns (id: Id)
      modifies this`addresses
      ensures addresses == old(addresses) + [a] && id == |old(addresses)|
    {
      id := |addresses|;
      addresses := addresses + [a];
    }

    /** `select from listing_types where name = ?`. */
    method LookupType(name: string) returns (r: Option<Id>)
      ensures r == TypeNamed(types, name)
    {
      r := TypeNamed(types, name);
    }

    /** `insert into listing_types (name) … returning`. */
    method InsertType(name: string) returns (id: Id)
      modifies this`types
      ensures types == old(types) + [ListingType(name)] && id == |old(types)|
    {
      id := |types|;
      types := types + [ListingType(name)];
    }

    /** `insert into listings … returning`. */
    method InsertListing(l: Listing) returns (id: Id)
      modifies this`listings
      ensures listings == old(listings) + [l] && id == |old(listings)|
    {
      id := |listings|;
      listings := listings + [l];
    }

    /** `update listings set … where id = ?`; no row has an id outside the table. */
    method RewriteListing(id: Id, l: Listing)
      modifies this`listings
      ensures id < |old(listings)| ==> listings == old(listings)[id := l]
      ensures id >= |old(listings)| ==> listings == old(listings)
    {
      if id < |listings| {
        listings := listings[id := l];
      }
    }

    /** `insert into listing_images values (…rows)`. */
    method InsertImages(rows: seq<ListingImage>)
      modifies this`images
      ensures images == old(images) + rows
    {
      images := images + rows;
    }
  }
}
