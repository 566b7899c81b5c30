/** The process-listing handlers as statements against the database: the selection
    query, the detail-page, washing and address requests (answered by the parameters
    `scrape`, `wash` and `lookup`), the rejection write and the promotion transaction. */
module ProcessListing {
  import opened Wrappers
  import opened Staging
  import opened Catalog
  import opened Database
  import opened Promotion

  /** How the promotion transaction ended, as the handler sees it. */
  datatype TxEnd = Committed(listingId: Id) | Guarded | Failed

  /** `db.transaction(async (tx) => …)` of a promotion: the re-check of the staged row,
      then the address, type, listing and image inserts and the bookkeeping update; a
      throw rolls every table back. */
  method PromoteTx(db: Db, row: Id, p: Plan, now: Time) returns (r: TxEnd)
    modifies db
    ensures var c := Promote(old(db.State()), row, p, now);
      && (c.Promoted? ==> r == Committed(c.listingId) && db.State() == c.state)
      && (c.AlreadyProcessed? ==> r == Guarded && db.State() == old(db.State()))
      && (c.RolledBack? ==> r == Failed && db.State() == old(db.State()))
  {
    var saved := db.State();
    if row >= |db.scraped| || db.scraped[row].listingId.Some? {
      return Guarded;
    }
    var addressId := db.InsertAddress(p.address);
    if !p.typeName.Val? {
      db.Rollback(saved);
      return Failed;
    }
    var found := db.LookupType(p.typeName.v);
    var typeId;
    if found.Some? {
      typeId := found.value;
    } else {
      typeId := db.InsertType(p.typeName.v);
    }
    assert (typeId, db.types) == TypeFor(saved.types, p.typeName.v);
    if p.listing.None? {
      db.Rollback(saved);
      return Failed;
    }
    var listingId := db.InsertListing(p.listing.value.(addressId := addressId, typeId := typeId));
    var images := ImagesToInsert(p.status, p.photos, p.plans, listingId);
    if images.None? {
      db.Rollback(saved);
      return Failed;
    }
    db.InsertImages(images.value);
    db.SetBookkeeping(row, Some(listingId), Some(now));
    return Committed(listingId);
  }

  /** `POST /nybolig/process-listing` (`src == Nybolig`) and `POST /home/process-listing`
      (`src == Home`), run alone, in variant `v`. A request that fails, or a throw, ends
      the call with 500 before anything is written. */
  method ProcessListing(db: Db, src: Source, scrape: string -> Option<Detail>, wash: Field<string> -> Option<Field<WashAnswer>>,
                        lookup: string -> Option<AddressAnswer>, now: Time, v: Variant) returns (reply: Reply)
    modifies db
    ensures Handled(db.State(), reply) == Process(old(db.State()), src, scrape, wash, lookup, now, v)
  {
    var selected := SelectStaged(db.scraped, src);
    if selected.None? {
      return NoListingsFound;
    }
    var row := selected.value;
    var json := db.scraped[row].json;
    var detail := scrape(DetailUrl(json));
    if detail.None? {
      return ServerError;
    }
    var key := WashKey(json);
    if key.None? {
      return ServerError;
    }
    var answer := wash(key.value);
    if answer.None? {
      return ServerError;
    }
    var verdict := AddressVerdict(answer.value, v);
    if verdict.Throws? {
      return ServerError;
    }
    if verdict.Rejected? {
      if v == AsWritten || db.scraped[row].listingId.None? {
        db.SetBookkeeping(row, None, Some(now));
      }
      return NoValidAddress;
    }
    var address := lookup(verdict.id);
    if address.None? {
      return ServerError;
    }
    var end := PromoteTx(db, row, MakePlan(json, detail.value, address.value, now), now);
    match end
    case Committed(id) =>
      reply := Created(id, db.listings[id]);
    case Guarded =>
      reply := AlreadyProcessedElsewhere;
    case Failed =>
      reply := ServerError;
  }
}
