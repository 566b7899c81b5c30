/** The stages end to end: what the detail-page scrapers return decides what the
    process-listing handlers store, and that decides what the update-listing handlers
    select later. */
module Pipeline {
  import opened Wrappers
  import opened Staging
  import opened Catalog
  import Promotion
  import Refresh
  import NyboligHtml
  import HomeHtml

  /** The nybolig.dk detail page yields no status, so a nybolig.dk listing is stored with
      a NULL status, and the refresh query, which keeps only listings whose status is
      known and not unlisted, never selects it. */
  lemma NyboligListingsAreNeverRefreshed(j: NyboligCase, url: string, c: NyboligHtml.Captured, now: Time, src: Source)
    ensures var l := Promotion.NyboligListing(j, url, NyboligHtml.Result(c), now);
      l.Some? ==> l.value.status.None? && !Refresh.Refreshable(l.value, src)
  {
  }

  /** A home.dk page that counts as unlisted gives a listing from the staged record's
      numbers exactly when the record's `stats` and `offer.price` objects are there to
      read them from; it is stored as unlisted and never refreshed. A listed page's
      listing, when the catalog takes it, is one the refresh of home.dk can select. */
  lemma HomeListingsAreRefreshedUntilUnlisted(j: HomeCase, url: string, c: HomeHtml.Captured,
                                              decode: (string, string) -> Option<HomeHtml.NuxtCase>, now: Time, v: Variant)
    ensures var d := HomeHtml.Result(url, c, decode, v);
      var l := Promotion.HomeListing(j, url, d, now);
      && (d.status == Val(Unlisted) ==> (l.Some? <==> j.stats.Val? && j.offer.Val? && j.offer.v.price.Val?))
      && (d.status == Val(Unlisted) && l.Some? ==> l.value.status == Some(Unlisted) && !Refresh.Refreshable(l.value, Home))
      && (d.status != Val(Unlisted) && l.Some? ==> Refresh.Refreshable(l.value, Home))
  {
    HomeHtml.ResultSpec(url, c, decode, v);
  }
}
