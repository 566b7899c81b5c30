/** Concurrent handler calls as interleavings of atomic steps. A process-listing call
    reads (select, washing, detail page) and then writes once: either the promotion
    transaction or the rejection; a refresh call writes once, its transaction; a crawl
    page is one write too. Reads change nothing, so a run of several calls is a sequence
    of their writes, each taking the state the previous one left, and each call's
    arguments fixed by what it read earlier. */
module Interleaving {
  import opened Wrappers
  import opened Staging
  import opened Catalog
  import opened Promotion
  import Refresh

  /** One atomic write. */
  datatype Action =
    | PromoteWrite(row: Id, plan: Plan, now: Time)
    | RejectWrite(row: Id, now: Time)
    | RefreshWrite(id: Id, seen: Time, detail: Detail, src: Source, now: Time)
    | CrawlWrite(src: Source, page: seq<Candidate>, hash: Payload -> Hash, now: Time)

  /** The database and, for the record, the staged rows promoted so far, in order. */
  datatype World = World(db: State, promoted: seq<Id>)

  function Apply(w: World, a: Action, v: Variant): World
  {
    match a
    case PromoteWrite(row, plan, now) =>
      (match Promote(w.db, row, plan, now)
       case Promoted(t, _) => World(t, w.promoted + [row])
       case _ => w)
    case RejectWrite(row, now) =>
      w.(db := Rejection(w.db, row, now, v))
    case RefreshWrite(id, seen, d, src, now) =>
      (match Refresh.RefreshCommit(w.db, id, seen, d, src, now)
       case Refreshed(t) => w.(db := t)
       case _ => w)
    case CrawlWrite(src, page, hash, now) =>
      w.(db := w.db.(scraped := UpsertPage(w.db.scraped, src, page, hash, now).rows))
  }

  /** The world after the writes `actions`, in order. */
  function Run(w: World, actions: seq<Action>, v: Variant): World
    decreases |actions|
  {
    if actions == [] then w else Apply(Run(w, actions[..|actions| - 1], v), actions[|actions| - 1], v)
  }

  /** The invariant of the catalog: the k-th listing was created by the k-th promotion,
      and that promotion's staged row still points at it. */
  predicate Inv(w: World)
  {
    && |w.db.listings| == |w.promoted|
    && forall k :: 0 <= k < |w.promoted| ==>
         w.promoted[k] < |w.db.scraped| && w.db.scraped[w.promoted[k]].listingId == Some(k)
  }

  /** No staged row was promoted twice. */
  predicate AtMostOnce(w: World)
  {
    forall i, j :: 0 <= i < j < |w.promoted| ==> w.promoted[i] != w.promoted[j]
  }

  lemma InvAtMostOnce(w: World)
    requires Inv(w)
    ensures AtMostOnce(w)
  {
    forall i, j | 0 <= i < j < |w.promoted| ensures w.promoted[i] != w.promoted[j] {
      assert w.db.scraped[w.promoted[i]].listingId == Some(i);
      assert w.db.scraped[w.promoted[j]].listingId == Some(j);
    }
  }

  lemma PromoteKeepsInv(w: World, row: Id, plan: Plan, now: Time, v: Variant)
    requires Inv(w)
    ensures Inv(Apply(w, PromoteWrite(row, plan, now), v))
  {
    if Promote(w.db, row, plan, now).Promoted? {
      PromoteEffect(w.db, row, plan, now);
      var w' := Apply(w, PromoteWrite(row, plan, now), v);
      assert w' == World(Promote(w.db, row, plan, now).state, w.promoted + [row]);
      forall k | 0 <= k < |w.promoted| ensures w'.promoted[k] == w.promoted[k] && w.promoted[k] != row {
        assert w.db.scraped[w.promoted[k]].listingId.Some?;
      }
    }
  }

  lemma RejectKeepsInv(w: World, row: Id, now: Time)
    requires Inv(w)
    ensures Inv(Apply(w, RejectWrite(row, now), Corrected))
  {
    if row < |w.db.scraped| {
      RejectSpec(w.db, row, now);
    }
  }

  lemma RefreshKeepsInv(w: World, id: Id, seen: Time, d: Detail, src: Source, now: Time, v: Variant)
    requires Inv(w)
    ensures Inv(Apply(w, RefreshWrite(id, seen, d, src, now), v))
  {
    Refresh.RefreshCommitSpec(w.db, id, seen, d, src, now);
  }

  /** Rewriting staged rows keeps the invariant as long as their bookkeeping stays. */
  lemma SameBookkeepingKeepsInv(w: World, rows: seq<ScrapedRow>)
    requires Inv(w) && |rows| >= |w.db.scraped|
    requires forall i :: 0 <= i < |w.db.scraped| ==> SameBookkeeping(w.db.scraped[i], rows[i])
    ensures Inv(w.(db := w.db.(scraped := rows)))
  {
    forall k | 0 <= k < |w.promoted| ensures rows[w.promoted[k]].listingId == Some(k) {
      assert SameBookkeeping(w.db.scraped[w.promoted[k]], rows[w.promoted[k]]);
    }
  }

  lemma CrawlKeepsInv(w: World, src: Source, page: seq<Candidate>, hash: Payload -> Hash, now: Time, v: Variant)
    requires Inv(w)
    ensures Inv(Apply(w, CrawlWrite(src, page, hash, now), v))
  {
    var rows := UpsertPage(w.db.scraped, src, page, hash, now).rows;
    UpsertPageSpec(w.db.scraped, src, page, hash, now);
    SameBookkeepingKeepsInv(w, rows);
    assert Apply(w, CrawlWrite(src, page, hash, now), v) == w.(db := w.db.(scraped := rows));
  }

  /** At-most-once promotion: from an empty catalog, any interleaving of promotions,
      guarded rejections, refreshes and crawl pages keeps the invariant, so every listing
      comes from exactly one promotion and no staged row is promoted twice. */
  lemma {:induction false} AtMostOncePromotion(w: World, actions: seq<Action>)
    requires Inv(w)
    ensures Inv(Run(w, actions, Corrected)) && AtMostOnce(Run(w, actions, Corrected))
    decreases |actions|
  {
    if actions != [] {
      var before := Run(w, actions[..|actions| - 1], Corrected);
      AtMostOncePromotion(w, actions[..|actions| - 1]);
      match actions[|actions| - 1]
      case PromoteWrite(row, plan, now) => PromoteKeepsInv(before, row, plan, now, Corrected);
      case RejectWrite(row, now) => RejectKeepsInv(before, row, now);
      case RefreshWrite(id, seen, d, src, now) => RefreshKeepsInv(before, id, seen, d, src, now, Corrected);
      case CrawlWrite(src, page, hash, now) => CrawlKeepsInv(before, src, page, hash, now, Corrected);
    }
    InvAtMostOnce(Run(w, actions, Corrected));
  }

  /** An empty catalog satisfies the invariant. */
  lemma EmptyCatalog(scraped: seq<ScrapedRow>)
    ensures Inv(World(State(scraped, [], [], [], []), []))
  {
  }

  // ---------------------------------------------------------------- a run as written

  /** A staged nybolig.dk record that every process-listing call selects. */
  function Staged(): ScrapedRow
  {
    ScrapedRow(Nybolig, "1", NyboligPayload(NyboligCase(Val("nybolig"), Val("/bolig/1"), Val("Vej 1"), Val("Villa"),
      Undefined, Undefined, Undefined, Undefined, Undefined, Undefined, Undefined, Undefined), ""), "h", 0, 0, None, None)
  }

  /** What a call that found the address valid and the page unlisted writes. */
  function UnlistedPlan(): Plan
  {
    Plan(Address("Vej", "1", None, None, "1000", "By", None, (0.0, 0.0), "Vej 1", "vej-1"), Val("Villa"),
         Some(Listing(None, None, Nybolig, "https://nybolig.dk/bolig/1", 0, 0, Some(Unlisted), None, None, None, None,
                      None, None, None, None, None, None, None, None, None, 1, 1)),
         Val(Unlisted), Undefined, Undefined)
  }

  /** One more write. */
  lemma RunSnoc(w: World, actions: seq<Action>, a: Action, v: Variant)
    ensures Run(w, actions + [a], v) == Apply(Run(w, actions, v), a, v)
  {
    assert (actions + [a])[..|actions|] == actions;
  }

  /** Three writes in a row. */
  lemma RunThree(w: World, a1: Action, a2: Action, a3: Action, v: Variant)
    ensures Run(w, [a1, a2, a3], v) == Apply(Apply(Apply(w, a1, v), a2, v), a3, v)
  {
    RunSnoc(w, [], a1, v);
    RunSnoc(w, [a1], a2, v);
    RunSnoc(w, [a1, a2], a3, v);
    assert [] + [a1] == [a1] && [a1] + [a2] == [a1, a2] && [a1, a2] + [a3] == [a1, a2, a3];
  }

  /** A promotion of an unprocessed row with a type name, a listing and an unlisted page
      commits, adding one listing the row now points at. */
  lemma UnlistedPromotionCommits(w: World, row: Id, p: Plan, now: Time, v: Variant)
    requires row < |w.db.scraped| && w.db.scraped[row].listingId.None?
    requires p.typeName.Val? && p.listing.Some? && p.status == Val(Unlisted)
    ensures var w' := Apply(w, PromoteWrite(row, p, now), v);
      && w'.promoted == w.promoted + [row] && |w'.db.listings| == |w.db.listings| + 1
      && |w'.db.scraped| == |w.db.scraped| && w'.db.scraped[row].listingId == Some(|w.db.listings|)
  {
    PromoteEffect(w.db, row, p, now);
  }

  /** As written, promote, reject, promote on one unprocessed row commits twice: the
      blind rejection clears the link the first promotion wrote. */
  lemma BlindRejectReopens(w: World, row: Id, p: Plan, now1: Time, now2: Time, now3: Time)
    requires row < |w.db.scraped| && w.db.scraped[row].listingId.None?
    requires p.typeName.Val? && p.listing.Some? && p.status == Val(Unlisted)
    ensures var w' := Run(w, [PromoteWrite(row, p, now1), RejectWrite(row, now2), PromoteWrite(row, p, now3)], AsWritten);
      w'.promoted == w.promoted + [row, row] && |w'.db.listings| == |w.db.listings| + 2
  {
    RunThree(w, PromoteWrite(row, p, now1), RejectWrite(row, now2), PromoteWrite(row, p, now3), AsWritten);
    UnlistedPromotionCommits(w, row, p, now1, AsWritten);
    var w1 := Apply(w, PromoteWrite(row, p, now1), AsWritten);
    var w2 := Apply(w1, RejectWrite(row, now2), AsWritten);
    assert w2.promoted == w1.promoted && |w2.db.listings| == |w1.db.listings| && |w2.db.scraped| == |w1.db.scraped|;
    assert w2.db.scraped[row].listingId.None?;
    UnlistedPromotionCommits(w2, row, p, now3, AsWritten);
  }

  /** With the guarded rejection the same three writes commit once: the rejection and
      the second promotion both find the row processed and change nothing. */
  lemma GuardedRejectHolds(w: World, row: Id, p: Plan, now1: Time, now2: Time, now3: Time)
    requires row < |w.db.scraped| && w.db.scraped[row].listingId.None?
    requires p.typeName.Val? && p.listing.Some? && p.status == Val(Unlisted)
    ensures var w' := Run(w, [PromoteWrite(row, p, now1), RejectWrite(row, now2), PromoteWrite(row, p, now3)], Corrected);
      w'.promoted == w.promoted + [row] && |w'.db.listings| == |w.db.listings| + 1
  {
    RunThree(w, PromoteWrite(row, p, now1), RejectWrite(row, now2), PromoteWrite(row, p, now3), Corrected);
    UnlistedPromotionCommits(w, row, p, now1, Corrected);
    var w1 := Apply(w, PromoteWrite(row, p, now1), Corrected);
    assert Apply(w1, RejectWrite(row, now2), Corrected) == w1;
    assert Promote(w1.db, row, p, now3).AlreadyProcessed?;
  }

  /** Three calls select the same staged row while it is still unprocessed. The first
      promotes it; the second, whose washing answer was negative, rejects it; the third
      then commits. As written, the rejection cleared the first call's link, so the
      third call's guard passes and one record becomes two listings; with the guarded
      rejection the third call is turned away. */
  lemma DoublePromotionAsWritten()
    ensures SelectStaged([Staged()], Nybolig) == Some(0)
    ensures var w := World(State([Staged()], [], [], [], []), []);
      var actions := [PromoteWrite(0, UnlistedPlan(), 1), RejectWrite(0, 2), PromoteWrite(0, UnlistedPlan(), 3)];
      && Run(w, actions, AsWritten).promoted == [0, 0]
      && |Run(w, actions, AsWritten).db.listings| == 2
      && Run(w, actions, Corrected).promoted == [0]
  {
    var w := World(State([Staged()], [], [], [], []), []);
    BlindRejectReopens(w, 0, UnlistedPlan(), 1, 2, 3);
    GuardedRejectHolds(w, 0, UnlistedPlan(), 1, 2, 3);
  }
}
