/** The refresh of catalog listings (`/nybolig/update-listing` and
    `/home/update-listing`): the listing of a source that was updated longest ago and is
    not unlisted is scraped again and rewritten inside a transaction that first checks
    that nobody rewrote it since it was read (optimistic concurrency on `updatedAt`). */
module Refresh {
  import opened Wrappers
  import opened Text
  import opened Staging
  import opened Catalog
  import opened Database

  /** `source = src and not (status = 'unlisted')`: SQL's three-valued logic leaves out
      a listing whose status is NULL. */
  predicate Refreshable(l: Listing, src: Source)
  {
    l.source == src && l.status.Some? && l.status.value != Unlisted
  }

  /** `findFirst … orderBy asc(updatedAt)`: a refreshable listing with the smallest
      `updatedAt`. The order leaves ties between equal timestamps to the database; the
      model takes the first such listing in id order. */
  function SelectOldest(ls: seq<Listing>, src: Source): (r: Option<Id>)
    ensures r.None? <==> forall j :: 0 <= j < |ls| ==> !Refreshable(ls[j], src)
    ensures r.Some? ==> && r.value < |ls| && Refreshable(ls[r.value], src)
                        && (forall j :: 0 <= j < |ls| && Refreshable(ls[j], src) ==> ls[r.value].updatedAt <= ls[j].updatedAt)
                        && (forall j :: 0 <= j < r.value && Refreshable(ls[j], src) ==> ls[r.value].updatedAt < ls[j].updatedAt)
    decreases |ls|
  {
    if ls == [] then None
    else
      var rest := SelectOldest(ls[1..], src);
      assert forall j :: 1 <= j < |ls| ==> ls[1..][j - 1] == ls[j];
      if Refreshable(ls[0], src) && (rest.None? || ls[0].updatedAt <= ls[rest.value + 1].updatedAt) then Some(0)
      else if rest.None? then None
      else Some(rest.value + 1)
  }

  /** The number fields the full update writes, none of them NaN. */
  predicate WritableNumbers(d: Detail, src: Source)
  {
    && Writable(d.areaLand) && Writable(d.areaFloor) && Writable(d.areaBasement) && Writable(d.price)
    && Writable(d.rooms) && Writable(d.floors) && Writable(d.yearBuilt) && Writable(d.yearRenovated)
    && (if src == Nybolig then Writable(d.bedrooms) else Writable(d.bathrooms))
  }

  /** The full update's `.set({…})`: each column the detail defines is written (null as
      NULL), each one it leaves undefined keeps its value; nybolig.dk writes the bedroom
      count, home.dk the bathroom count. */
  function Rewritten(l: Listing, d: Detail, src: Source, now: Time): (m: Listing)
    requires WritableNumbers(d, src)
    ensures m.source == l.source && m.sourceUrl == l.sourceUrl && m.addressId == l.addressId
            && m.typeId == l.typeId && m.createdAt == l.createdAt && m.updatedAt == now
    ensures d.status.Undefined? ==> m.status == l.status
    ensures d.price.Undefined? ==> m.price == l.price
  {
    l.(updatedAt := now, title := Updated(l.title, d.title), description := Updated(l.description, d.description),
       status := Updated(l.status, d.status),
       areaLand := Updated(l.areaLand, IntField(d.areaLand)), areaFloor := Updated(l.areaFloor, IntField(d.areaFloor)),
       areaBasement := Updated(l.areaBasement, IntField(d.areaBasement)), price := Updated(l.price, IntField(d.price)),
       energyClass := Updated(l.energyClass, d.energyClass), rooms := Updated(l.rooms, IntField(d.rooms)),
       bedroomCount := if src == Nybolig then Updated(l.bedroomCount, IntField(d.bedrooms)) else l.bedroomCount,
       bathroomCount := if src == Home then Updated(l.bathroomCount, IntField(d.bathrooms)) else l.bathroomCount,
       mainImgUrl := Updated(l.mainImgUrl, FirstImageUrl(d.images)), mainImgAlt := Updated(l.mainImgAlt, FirstImageAlt(d.images)),
       floors := Updated(l.floors, IntField(d.floors)), yearBuilt := Updated(l.yearBuilt, IntField(d.yearBuilt)),
       yearRenovated := Updated(l.yearRenovated, IntField(d.yearRenovated)))
  }

  /** How the refresh transaction ended. */
  datatype RefreshEnd = Refreshed(state: State) | Conflict | RefreshFailed

  /** The refresh transaction of listing `id`, read at `updatedAt == seen`, with the
      detail page `d`. */
  function RefreshCommit(s: State, id: Id, seen: Time, d: Detail, src: Source, now: Time): (c: RefreshEnd)
    ensures c.Refreshed? ==> id < |s.listings| && |c.state.listings| == |s.listings| && c.state.listings[id].updatedAt == now
    ensures c.Refreshed? ==> c.state.scraped == s.scraped && c.state.images == s.images
  {
    if id >= |s.listings| || s.listings[id].updatedAt != seen then Conflict
    else if d.status == Val(Unlisted) then
      Refreshed(s.(listings := s.listings[id := s.listings[id].(updatedAt := now, status := Some(Unlisted))]))
    else if !WritableNumbers(d, src) then RefreshFailed
    else Refreshed(s.(listings := s.listings[id := Rewritten(s.listings[id], d, src, now)]))
  }

  /** A refresh rewrites only the one listing, keeps what identifies it (source, URL,
      address, type, creation time), stamps it with `now`, and conflicts exactly when the
      listing is gone or its `updatedAt` moved since it was read. */
  lemma RefreshCommitSpec(s: State, id: Id, seen: Time, d: Detail, src: Source, now: Time)
    ensures var c := RefreshCommit(s, id, seen, d, src, now);
      && (c.Conflict? <==> id >= |s.listings| || s.listings[id].updatedAt != seen)
      && (c.RefreshFailed? ==> d.status != Val(Unlisted) && !WritableNumbers(d, src))
      && (c.Refreshed? ==>
            var t := c.state; var l := s.listings[id]; var m := t.listings[id];
            && t.scraped == s.scraped && t.addresses == s.addresses && t.types == s.types && t.images == s.images
            && |t.listings| == |s.listings|
            && (forall j :: 0 <= j < |s.listings| && j != id ==> t.listings[j] == s.listings[j])
            && m.source == l.source && m.sourceUrl == l.sourceUrl && m.addressId == l.addressId
            && m.typeId == l.typeId && m.createdAt == l.createdAt && m.updatedAt == now)
  {
  }

  /** A page that reports the listing unlisted changes its status and `updatedAt` and
      nothing else, and the listing is never selected for a refresh again. */
  lemma UnlistedIsFinal(s: State, id: Id, seen: Time, d: Detail, src: Source, now: Time)
    requires d.status == Val(Unlisted)
    ensures var c := RefreshCommit(s, id, seen, d, src, now);
      c.Refreshed? ==>
        && c.state.listings[id] == s.listings[id].(status := Some(Unlisted), updatedAt := now)
        && !Refreshable(c.state.listings[id], src)
        && SelectOldest(c.state.listings, src) != Some(id)
  {
  }

  /** Fields the page leaves undefined keep their values; a page that defines no field
      at all only moves `updatedAt`. */
  lemma EmptyPageOnlyTouches(l: Listing, src: Source, now: Time)
    ensures var e := Detail(Undefined, Undefined, Undefined, Undefined, Undefined, Undefined, Undefined, Undefined,
                            Undefined, Undefined, Undefined, Undefined, Undefined, Undefined, Undefined, Undefined, Undefined);
      WritableNumbers(e, src) && Rewritten(l, e, src, now) == l.(updatedAt := now)
  {
  }

  /** Rewriting with the same page twice is rewriting once. */
  lemma RewrittenIdempotent(l: Listing, d: Detail, src: Source, now1: Time, now2: Time)
    requires WritableNumbers(d, src)
    ensures Rewritten(Rewritten(l, d, src, now1), d, src, now2) == Rewritten(l, d, src, now2)
  {
  }

  /** The optimistic check prevents a lost update: once a refresh read at `seen` has
      committed at a different time, a second refresh that read the same version
      conflicts instead of overwriting it. */
  lemma NoLostUpdate(s: State, id: Id, seen: Time, d1: Detail, d2: Detail, src: Source, now1: Time, now2: Time)
    requires RefreshCommit(s, id, seen, d1, src, now1).Refreshed? && now1 != seen
    ensures RefreshCommit(RefreshCommit(s, id, seen, d1, src, now1).state, id, seen, d2, src, now2) == Conflict
  {
  }

  /** The handler's answer. */
  datatype Reply = NoListingsFound | AlreadyProcessedElsewhere | ServerError | Rewrote(listing: Listing)

  datatype Handled = Handled(state: State, reply: Reply)

  /** One call of the update-listing handler of `src`, run alone; `scrape` answers the
      detail-page request for a listing's `sourceUrl`, `None` when it fails, which Hono
      answers with 500 before anything is written. A call never adds or removes a row
      and never touches the staging table or the images. */
  function RefreshRun(s: State, src: Source, scrape: string -> Option<Detail>, now: Time): (h: Handled)
    ensures |h.state.listings| == |s.listings| && h.state.scraped == s.scraped && h.state.images == s.images
  {
    match SelectOldest(s.listings, src)
    case None => Handled(s, NoListingsFound)
    case Some(id) =>
      match scrape(s.listings[id].sourceUrl)
      case None => Handled(s, ServerError)
      case Some(d) =>
        match RefreshCommit(s, id, s.listings[id].updatedAt, d, src, now)
        case Refreshed(t) => Handled(t, Rewrote(t.listings[id]))
        case Conflict => Handled(s, AlreadyProcessedElsewhere)
        case RefreshFailed => Handled(s, ServerError)
  }

  /** Run alone, the handler never meets a conflict: it refreshes the oldest refreshable
      listing, or fails on a NaN or a failed request and changes nothing, or finds none. */
  lemma RefreshRunAlone(s: State, src: Source, scrape: string -> Option<Detail>, now: Time)
    ensures var h := RefreshRun(s, src, scrape, now);
      && h.reply != AlreadyProcessedElsewhere
      && (SelectOldest(s.listings, src).Some? && scrape(s.listings[SelectOldest(s.listings, src).value].sourceUrl).None? ==>
            h == Handled(s, ServerError))
      && (h.reply == NoListingsFound <==> forall j :: 0 <= j < |s.listings| ==> !Refreshable(s.listings[j], src))
      && (h.reply == NoListingsFound || h.reply == ServerError ==> h.state == s)
      && (h.reply.Rewrote? ==>
            var id := SelectOldest(s.listings, src).value;
            h.reply.listing == h.state.listings[id] && h.state.listings[id].updatedAt == now)
  {
    match SelectOldest(s.listings, src)
    case None =>
    case Some(id) =>
      match scrape(s.listings[id].sourceUrl)
      case None =>
      case Some(d) => RefreshCommitSpec(s, id, s.listings[id].updatedAt, d, src, now);
  }

  /** The transaction as statements: the re-read and the check of `updatedAt`, then one
      UPDATE of the listing. */
  method RefreshTx(db: Db, id: Id, seen: Time, d: Detail, src: Source, now: Time) returns (r: RefreshEnd)
    modifies db
    ensures var c := RefreshCommit(old(db.State()), id, seen, d, src, now);
      && (c.Refreshed? ==> r.Refreshed? && db.State() == c.state)
      && (!c.Refreshed? ==> r == c && db.State() == old(db.State()))
  {
    if id >= |db.listings| || db.listings[id].updatedAt != seen {
      return Conflict;
    }
    if d.status == Val(Unlisted) {
      db.RewriteListing(id, db.listings[id].(updatedAt := now, status := Some(Unlisted)));
    } else if !WritableNumbers(d, src) {
      return RefreshFailed;
    } else {
      db.RewriteListing(id, Rewritten(db.listings[id], d, src, now));
    }
    r := Refreshed(db.State());
  }

  /** `POST /nybolig/update-listing` and `POST /home/update-listing`, run alone. */
  method RefreshListing(db: Db, src: Source, scrape: string -> Option<Detail>, now: Time) returns (reply: Reply)
    modifies db
    ensures Handled(db.State(), reply) == RefreshRun(old(db.State()), src, scrape, now)
  {
    var selected := SelectOldest(db.listings, src);
    if selected.None? {
      return NoListingsFound;
    }
    var id := selected.value;
    var detail := scrape(db.listings[id].sourceUrl);
    if detail.None? {
      return ServerError;
    }
    var end := RefreshTx(db, id, db.listings[id].updatedAt, detail.value, src, now);
    match end
    case Refreshed(_) =>
      reply := Rewrote(db.listings[id]);
    case Conflict =>
      reply := AlreadyProcessedElsewhere;
    case RefreshFailed =>
      reply := ServerError;
  }
}
