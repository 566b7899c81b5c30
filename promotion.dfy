/** The promotion of one staged record into the catalog (`/nybolig/process-listing` and
    `/home/process-listing`), as functions of the database state: which staged row is
    chosen, the address check, the values of the new address, type, listing and images,
    the transaction that writes them under the double-promotion guard, and the write that
    rejects a record. */
module Promotion {
  import opened Wrappers
  import opened Text
  import opened Staging
  import opened Catalog
  import opened Slugs
  import Database

  // ---------------------------------------------------------------- selection

  /** The selection condition: the source, both bookkeeping columns NULL, and the
      source's own test on the stored JSON (`json->>'siteName' = 'nybolig'`, or
      `json->>'isExternal' = 'false'` and `json->>'isRentalCase' = 'false'`). */
  predicate Eligible(r: ScrapedRow, src: Source)
  {
    && r.externalSource == src
    && r.listingId.None?
    && r.processedAt.None?
    && match src
       case Nybolig => r.json.NyboligPayload? && r.json.nybolig.siteName == Val("nybolig")
       case Home => r.json.HomePayload? && r.json.home.isExternal == Val(false) && r.json.home.isRentalCase == Val(false)
  }

  /** `select … where <eligible> limit 1`. The query has no `orderBy`, so the database
      may return any eligible row; the model takes the first one in id order. */
  function SelectStaged(rows: seq<ScrapedRow>, src: Source): (r: Option<Id>)
    ensures r.Some? ==> r.value < |rows| && Eligible(rows[r.value], src)
                        && forall j :: 0 <= j < r.value ==> !Eligible(rows[j], src)
    ensures r.None? <==> forall j :: 0 <= j < |rows| ==> !Eligible(rows[j], src)
    decreases |rows|
  {
    if rows == [] then None
    else if Eligible(rows[0], src) then Some(0)
    else match SelectStaged(rows[1..], src)
      case None => None
      case Some(i) => Some(i + 1)
  }

  // ---------------------------------------------------------------- address check

  /** An `adresse` entry of the address-washing answer. */
  datatype WashedAddress = WashedAddress(id: string, status: int, virkningslut: Field<string>)

  /** The washing answer: its `resultater` list, each entry reduced to its `adresse`. */
  datatype WashAnswer = WashAnswer(resultater: Field<seq<Field<WashedAddress>>>)

  /** What the handler makes of the washing answer: go on with the address id, reject
      the record, or throw. */
  datatype WashVerdict = Accepted(id: string) | Rejected | Throws

  /** The address test: a first result exists, its status is 1 and it has no end of
      validity (`virkningslut` is null). */
  predicate AddressValid(w: Field<WashAnswer>)
  {
    && w.Val? && w.v.resultater.Val? && |w.v.resultater.v| > 0
    && var first := w.v.resultater.v[0];
       first.Val? && first.v.status == 1 && first.v.virkningslut.Null?
  }

  /** `cleanedAddressResult?.resultater?.[0].adresse` and the test after it, as written:
      an empty `resultater` list makes `[0]` undefined and `.adresse` throw. */
  function WashAsWritten(w: Field<WashAnswer>): (v: WashVerdict)
    ensures v.Accepted? <==> AddressValid(w)
    ensures v.Accepted? ==> v.id == w.v.resultater.v[0].v.id
  {
    if !w.Val? || !w.v.resultater.Val? then Rejected
    else if w.v.resultater.v == [] then Throws
    else match w.v.resultater.v[0]
      case Val(a) => if a.status == 1 && a.virkningslut.Null? then Accepted(a.id) else Rejected
      case _ => Rejected
  }

  /** The address test with an empty result list treated as no valid address. */
  function Wash(w: Field<WashAnswer>): (v: WashVerdict)
    ensures v.Accepted? <==> AddressValid(w)
    ensures v.Accepted? ==> v.id == w.v.resultater.v[0].v.id
    ensures !v.Throws?
  {
    if AddressValid(w) then Accepted(w.v.resultater.v[0].v.id) else Rejected
  }

  /** The code as written agrees with the test except on an empty result list, where it
      throws instead of rejecting. */
  lemma WashAsWrittenThrowsOnEmpty(w: Field<WashAnswer>)
    ensures WashAsWritten(w).Throws? <==> w.Val? && w.v.resultater == Val([])
    ensures !WashAsWritten(w).Throws? ==> WashAsWritten(w) == Wash(w)
  {
  }

  /** An answer that shows the difference: a washing result with no entries. */
  lemma EmptyWashThrows()
    ensures WashAsWritten(Val(WashAnswer(Val([])))) == Throws
    ensures Wash(Val(WashAnswer(Val([])))) == Rejected
  {
  }

  /** A washing answer whose result list is empty. */
  predicate EmptyResult(w: Field<WashAnswer>)
  {
    w.Val? && w.v.resultater == Val([])
  }

  /** The address test of variant `v`. */
  function AddressVerdict(w: Field<WashAnswer>, v: Variant): (r: WashVerdict)
    ensures r.Throws? <==> v == AsWritten && EmptyResult(w)
    ensures r.Accepted? <==> AddressValid(w)
  {
    if v == AsWritten then WashAsWritten(w) else Wash(w)
  }

  // ---------------------------------------------------------------- values written

  /** The address answer (`/adresser/{id}?struktur=mini`). */
  datatype AddressAnswer = AddressAnswer(
    vejnavn: string, husnr: string, etage: Option<string>, door: Option<string>,
    postnr: string, postnrnavn: string, supplerendebynavn: Option<string>,
    x: real, y: real, betegnelse: string)

  /** The new `addresses` row. */
  function NewAddress(a: AddressAnswer): (r: Address)
    ensures r.displayName == a.betegnelse && r.slug == Slug(a.betegnelse)
  {
    Address(a.vejnavn, a.husnr, a.etage, a.door, a.postnr, a.postnrnavn, a.supplerendebynavn,
            (a.x, a.y), a.betegnelse, Slug(a.betegnelse))
  }

  /** A template literal's rendering of a value (`${x}`). */
  function JsText(f: Field<string>): string
  {
    match f
    case Val(s) => s
    case Null => "null"
    case Undefined => "undefined"
  }

  /** `HOME_TYPE_MAP`. */
  const HomeTypeMap: map<string, string> := map[
    "AllYearRoundPlot" := "Helårsgrund",
    "AllotmentHut" := "Fritidsbolig",
    "AllotmentPlot" := "Fritidsgrund",
    "Condo" := "Ejerlejlighed",
    "FormerFarm" := "Landejendom",
    "HousingCooperative" := "Andelsbolig",
    "TerracedHouse" := "Rækkehus",
    "Villa" := "Villa",
    "VillaApartment" := "Villalejlighed",
    "VacationHousing" := "Fritidsbolig",
    "VacationPlot" := "Fritidsgrund",
    "FarmHouse" := "Landejendom",
    "HobbyAgriculture" := "Landejendom"]

  /** `HOME_TYPE_MAP[key]`: undefined for a key the map lacks (a null or undefined key
      is looked up as the string "null" or "undefined", which it lacks too). */
  function HomeType(key: Field<string>): (r: Field<string>)
    ensures r.Val? <==> key.Val? && key.v in HomeTypeMap
  {
    if key.Val? && key.v in HomeTypeMap then Val(HomeTypeMap[key.v]) else Undefined
  }

  /** Several home.dk categories fall into one catalog type: holiday huts and holiday
      homes share one, as do the two kinds of holiday plot and the three farm
      categories; a category the map lacks gives no type name. */
  lemma HomeTypeSynonyms()
    ensures HomeType(Val("AllotmentHut")) == HomeType(Val("VacationHousing")) == Val("Fritidsbolig")
    ensures HomeType(Val("AllotmentPlot")) == HomeType(Val("VacationPlot")) == Val("Fritidsgrund")
    ensures HomeType(Val("FormerFarm")) == HomeType(Val("FarmHouse")) == HomeType(Val("HobbyAgriculture")) == Val("Landejendom")
    ensures HomeType(Val("Villa")) == Val("Villa") && HomeType(Val("Castle")).Undefined? && HomeType(Null).Undefined?
  {
  }

  /** `images?.[0]?.url` of the staged home.dk record. */
  function FirstMediaUrl(media: Field<seq<HomeMedia>>): Field<string>
  {
    if media.Val? && |media.v| > 0 then media.v[0].url else Undefined
  }

  /** `presentationMedia?.[0]?.altText` of the staged home.dk record. */
  function FirstMediaAlt(media: Field<seq<HomeMedia>>): Field<string>
  {
    if media.Val? && |media.v| > 0 then media.v[0].altText else Undefined
  }

  /** The `listings` row the nybolig.dk processor inserts, before the address and type
      ids are known (both 0 here): each value from the detail page unless that is null
      or undefined, then from the staged record; bedrooms, floors and years from the
      detail page only. `None`: a number is NaN, which the integer column refuses. */
  function NyboligListing(j: NyboligCase, url: string, d: Detail, now: Time): (r: Option<Listing>)
    ensures r.Some? ==> r.value.source == Nybolig && r.value.sourceUrl == url && r.value.status == Stored(d.status)
                        && r.value.createdAt == now && r.value.updatedAt == now
  {
    var areaLand := Coalesce(d.areaLand, AsNum(j.propertySize));
    var areaFloor := Coalesce(d.areaFloor, AsNum(j.livingSpace));
    var areaBasement := Coalesce(d.areaBasement, AsNum(j.basementSize));
    var price := Coalesce(d.price, AsNum(j.cashPrice));
    var rooms := Coalesce(d.rooms, AsNum(j.totalNumberOfRooms));
    if !(Writable(areaLand) && Writable(areaFloor) && Writable(areaBasement) && Writable(price) && Writable(rooms)
         && Writable(d.bedrooms) && Writable(d.floors) && Writable(d.yearBuilt) && Writable(d.yearRenovated))
    then None
    else Some(Listing(
      Stored(d.title), Stored(d.description), Nybolig, url, 0, 0, Stored(d.status),
      Stored(IntField(areaLand)), Stored(IntField(areaFloor)), Stored(IntField(areaBasement)), Stored(IntField(price)),
      Stored(Coalesce(d.energyClass, j.energyClassification)), Stored(IntField(rooms)), Stored(IntField(d.bedrooms)), None,
      Stored(Coalesce(FirstImageUrl(d.images), j.imageUrl)), Stored(Coalesce(FirstImageAlt(d.images), j.imageAlt)),
      Stored(IntField(d.floors)), Stored(IntField(d.yearBuilt)), Stored(IntField(d.yearRenovated)), now, now))
  }

  /** `listingJson.stats.plotArea`: `None` when `stats` is null or undefined, so that
      reading it throws. */
  function PlotArea(j: HomeCase): (r: Option<Field<int>>)
    ensures r.None? <==> !j.stats.Val?
  {
    if j.stats.Val? then Some(j.stats.v.plotArea) else None
  }

  /** `listingJson.stats.floorArea`, `None` when reading it throws. */
  function FloorArea(j: HomeCase): (r: Option<Field<int>>)
    ensures r.None? <==> !j.stats.Val?
  {
    if j.stats.Val? then Some(j.stats.v.floorArea) else None
  }

  /** `listingJson.offer.price.amount`, `None` when `offer` or `offer.price` is null or
      undefined and reading it throws. */
  function PriceAmount(j: HomeCase): (r: Option<Field<int>>)
    ensures r.None? <==> !j.offer.Val? || !j.offer.v.price.Val?
  {
    if j.offer.Val? && j.offer.v.price.Val? then Some(j.offer.v.price.v.amount) else None
  }

  /** `a ?? b` where reading `b` may throw (`None`): `b` is read only when `a` is null or
      undefined. */
  function CoalesceRead(a: Field<NumVal>, b: Option<Field<int>>): (r: Option<Field<NumVal>>)
    ensures r.None? <==> !a.Val? && b.None?
    ensures a.Val? ==> r == Some(a)
    ensures !a.Val? && b.Some? ==> r == Some(AsNum(b.value))
  {
    if a.Val? then Some(a) else if b.Some? then Some(AsNum(b.value)) else None
  }

  /** The `listings` row the home.dk processor inserts: areas and price fall back on the
      staged record, the basement area on 0; energy class, rooms, bathrooms, floors and
      years come from the detail page only. `None`: a number is NaN, or a fallback is
      read through a missing object of the staged record and throws. */
  function HomeListing(j: HomeCase, url: string, d: Detail, now: Time): (r: Option<Listing>)
    ensures r.Some? ==> r.value.source == Home && r.value.sourceUrl == url && r.value.status == Stored(d.status)
                        && r.value.createdAt == now && r.value.updatedAt == now
  {
    var areaLand := CoalesceRead(d.areaLand, PlotArea(j));
    var areaFloor := CoalesceRead(d.areaFloor, FloorArea(j));
    var areaBasement := Coalesce(d.areaBasement, Val(Num(0)));
    var price := CoalesceRead(d.price, PriceAmount(j));
    if areaLand.None? || areaFloor.None? || price.None? then None
    else if !(Writable(areaLand.value) && Writable(areaFloor.value) && Writable(areaBasement) && Writable(price.value)
              && Writable(d.rooms) && Writable(d.bathrooms) && Writable(d.floors) && Writable(d.yearBuilt)
              && Writable(d.yearRenovated))
    then None
    else Some(Listing(
      Stored(d.title), Stored(d.description), Home, url, 0, 0, Stored(d.status),
      Stored(IntField(areaLand.value)), Stored(IntField(areaFloor.value)), Stored(IntField(areaBasement)),
      Stored(IntField(price.value)),
      Stored(d.energyClass), Stored(IntField(d.rooms)), None, Stored(IntField(d.bathrooms)),
      Stored(Coalesce(FirstImageUrl(d.images), FirstMediaUrl(j.presentationMedia))),
      Stored(Coalesce(FirstImageAlt(d.images), FirstMediaAlt(j.presentationMedia))),
      Stored(IntField(d.floors)), Stored(IntField(d.yearBuilt)), Stored(IntField(d.yearRenovated)), now, now))
  }

  /** The column value of a coalesced number: the detail's when it has one, else the
      fallback's. */
  function Merged(f: Field<NumVal>, fallback: Option<int>): Option<int>
  {
    if f.Val? && f.v.Num? then Some(f.v.n) else fallback
  }

  /** The column value of a fallback that was read without a throw. */
  function Fallback(b: Option<Field<int>>): Option<int>
  {
    if b.Some? then Stored(b.value) else None
  }

  /** A fresh detail value wins over the staged one; the staged value is used only when
      the detail's is null or undefined; the row fails only on a NaN. */
  lemma NyboligDetailWins(j: NyboligCase, url: string, d: Detail, now: Time)
    ensures var r := NyboligListing(j, url, d, now);
      && (r.None? <==> (d.areaLand.Val? && d.areaLand.v.NaN?) || (d.areaFloor.Val? && d.areaFloor.v.NaN?)
                       || (d.areaBasement.Val? && d.areaBasement.v.NaN?) || (d.price.Val? && d.price.v.NaN?)
                       || (d.rooms.Val? && d.rooms.v.NaN?) || !Writable(d.bedrooms) || !Writable(d.floors)
                       || !Writable(d.yearBuilt) || !Writable(d.yearRenovated))
      && (r.Some? ==>
            && r.value.source == Nybolig && r.value.sourceUrl == url
            && r.value.areaLand == Merged(d.areaLand, Stored(j.propertySize))
            && r.value.areaFloor == Merged(d.areaFloor, Stored(j.livingSpace))
            && r.value.areaBasement == Merged(d.areaBasement, Stored(j.basementSize))
            && r.value.price == Merged(d.price, Stored(j.cashPrice))
            && r.value.rooms == Merged(d.rooms, Stored(j.totalNumberOfRooms))
            && r.value.energyClass == (if d.energyClass.Val? then Some(d.energyClass.v) else Stored(j.energyClassification))
            && r.value.bedroomCount == Merged(d.bedrooms, None) && r.value.bathroomCount.None?
            && r.value.status == Stored(d.status)
            && r.value.createdAt == now && r.value.updatedAt == now)
  {
  }

  /** The same for home.dk, where the basement area falls back on 0 and is never NULL,
      and where a fallback read through a missing `stats`, `offer` or `offer.price`
      object fails the row as well. */
  lemma HomeDetailWins(j: HomeCase, url: string, d: Detail, now: Time)
    ensures var r := HomeListing(j, url, d, now);
      && (r.None? <==> (d.areaLand.Val? && d.areaLand.v.NaN?) || (d.areaFloor.Val? && d.areaFloor.v.NaN?)
                       || (d.areaBasement.Val? && d.areaBasement.v.NaN?) || (d.price.Val? && d.price.v.NaN?)
                       || !Writable(d.rooms) || !Writable(d.bathrooms) || !Writable(d.floors)
                       || !Writable(d.yearBuilt) || !Writable(d.yearRenovated)
                       || (!d.areaLand.Val? && !j.stats.Val?) || (!d.areaFloor.Val? && !j.stats.Val?)
                       || (!d.price.Val? && !(j.offer.Val? && j.offer.v.price.Val?)))
      && (r.Some? ==>
            && r.value.source == Home && r.value.sourceUrl == url
            && r.value.areaLand == Merged(d.areaLand, Fallback(PlotArea(j)))
            && r.value.areaFloor == Merged(d.areaFloor, Fallback(FloorArea(j)))
            && r.value.areaBasement == Merged(d.areaBasement, Some(0)) && r.value.areaBasement.Some?
            && r.value.price == Merged(d.price, Fallback(PriceAmount(j)))
            && r.value.rooms == Merged(d.rooms, None) && r.value.bathroomCount == Merged(d.bathrooms, None)
            && r.value.bedroomCount.None?
            && r.value.status == Stored(d.status)
            && r.value.createdAt == now && r.value.updatedAt == now)
  {
  }

  /** The `listing_images` rows of a new listing: the photos, then the floor plans, each
      kind numbered from 0 in page order. */
  function ImageRows(listingId: Id, photos: seq<Media>, plans: seq<Media>): (r: seq<ListingImage>)
    ensures |r| == |photos| + |plans|
    ensures forall i :: 0 <= i < |photos| ==>
      r[i] == ListingImage(listingId, photos[i].url, i, Stored(photos[i].alt), Photo)
    ensures forall i :: 0 <= i < |plans| ==>
      r[|photos| + i] == ListingImage(listingId, plans[i].url, i, Stored(plans[i].alt), Floorplan)
  {
    seq(|photos|, i requires 0 <= i < |photos| => ListingImage(listingId, photos[i].url, i, Stored(photos[i].alt), Photo))
    + seq(|plans|, i requires 0 <= i < |plans| => ListingImage(listingId, plans[i].url, i, Stored(plans[i].alt), Floorplan))
  }

  /** The image insert: nothing for an unlisted page; otherwise both lists are read
      (`images.length`, `floorplanImages.length`, their `map`s), so a missing one throws
      (`None`), and the rows are written when either list is non-empty. */
  function ImagesToInsert(status: Field<Status>, photos: Field<seq<Media>>, plans: Field<seq<Media>>, listingId: Id): (r: Option<seq<ListingImage>>)
    ensures r.Some? && r.value != [] ==> status != Val(Unlisted)
    ensures r.Some? ==> forall k :: 0 <= k < |r.value| ==> r.value[k].listingId == listingId
  {
    if status == Val(Unlisted) then Some([])
    else if !photos.Val? then None
    else if |photos.v| > 0 then (if plans.Val? then Some(ImageRows(listingId, photos.v, plans.v)) else None)
    else if !plans.Val? then None
    else if |plans.v| > 0 then Some(ImageRows(listingId, photos.v, plans.v))
    else Some([])
  }

  /** No image rows for an unlisted page or two empty lists; otherwise the photos and the
      floor plans; the insert fails exactly when the page is not unlisted and a list is
      missing. */
  lemma ImagesToInsertSpec(status: Field<Status>, photos: Field<seq<Media>>, plans: Field<seq<Media>>, listingId: Id)
    ensures var r := ImagesToInsert(status, photos, plans, listingId);
      && (r.None? <==> status != Val(Unlisted) && !(photos.Val? && plans.Val?))
      && (status == Val(Unlisted) ==> r == Some([]))
      && (status != Val(Unlisted) && photos.Val? && plans.Val? ==> r == Some(ImageRows(listingId, photos.v, plans.v)))
  {
    if status != Val(Unlisted) && photos == Val([]) && plans == Val([]) {
      assert ImageRows(listingId, [], []) == [];
    }
  }

  // ---------------------------------------------------------------- the transaction

  /** What the promotion transaction needs, gathered before it starts. */
  datatype Plan = Plan(
    address: Address,
    typeName: Field<string>,
    listing: Option<Listing>,
    status: Field<Status>,
    photos: Field<seq<Media>>,
    plans: Field<seq<Media>>)

  /** How the transaction ended: committed with the new listing's id, returned early by
      the guard, or rolled back by an exception. */
  datatype Commit = Promoted(state: State, listingId: Id) | AlreadyProcessed | RolledBack

  /** The type row for a name: the first one with that name, or a new one. */
  function TypeFor(types: seq<ListingType>, name: string): (r: (Id, seq<ListingType>))
    ensures r.0 < |r.1| && r.1[r.0].name == name
    ensures Database.TypeNamed(types, name).Some? ==> r == (Database.TypeNamed(types, name).value, types)
    ensures Database.TypeNamed(types, name).None? ==> r == (|types|, types + [ListingType(name)])
  {
    match Database.TypeNamed(types, name)
    case Some(t) => (t, types)
    case None => (|types|, types + [ListingType(name)])
  }

  /** The transaction of a promotion of staged row `row` at time `now`. */
  function Promote(s: State, row: Id, p: Plan, now: Time): (c: Commit)
    ensures c.Promoted? <==> row < |s.scraped| && s.scraped[row].listingId.None? && p.typeName.Val? && p.listing.Some?
                             && ImagesToInsert(p.status, p.photos, p.plans, |s.listings|).Some?
    ensures c.Promoted? ==> c.listingId == |s.listings| && |c.state.listings| == |s.listings| + 1
                            && |c.state.scraped| == |s.scraped|
                            && forall i :: 0 <= i < |s.scraped| && i != row ==> c.state.scraped[i] == s.scraped[i]
  {
    if row >= |s.scraped| || s.scraped[row].listingId.Some? then AlreadyProcessed
    else if !p.typeName.Val? || p.listing.None? then RolledBack
    else
      var (typeId, types) := TypeFor(s.types, p.typeName.v);
      var listingId := |s.listings|;
      match ImagesToInsert(p.status, p.photos, p.plans, listingId)
      case None => RolledBack
      case Some(images) =>
        Promoted(State(
          s.scraped[row := s.scraped[row].(listingId := Some(listingId), processedAt := Some(now))],
          s.addresses + [p.address],
          types,
          s.listings + [p.listing.value.(addressId := |s.addresses|, typeId := typeId)],
          s.images + images), listingId)
  }

  /** The guard: the transaction returns early, writing nothing, exactly when the staged
      row is gone or already has a listing. */
  lemma PromoteGuard(s: State, row: Id, p: Plan, now: Time)
    ensures Promote(s, row, p, now).AlreadyProcessed? <==> row >= |s.scraped| || s.scraped[row].listingId.Some?
  {
  }

  /** A committed promotion adds exactly one address and one listing pointing at it and
      at the type of its name — an existing one when there is one, else one new type row —
      appends the image rows, and links the staged row to the new listing; nothing else
      changes. */
  lemma PromoteEffect(s: State, row: Id, p: Plan, now: Time)
    requires Promote(s, row, p, now).Promoted?
    ensures var c := Promote(s, row, p, now); var t := c.state;
      && row < |s.scraped| && s.scraped[row].listingId.None? && p.typeName.Val? && p.listing.Some?
      && c.listingId == |s.listings|
      && t.addresses == s.addresses + [p.address]
      && |t.listings| == |s.listings| + 1 && t.listings[..|s.listings|] == s.listings
      && t.listings[c.listingId] == p.listing.value.(addressId := |s.addresses|, typeId := t.listings[c.listingId].typeId)
      && (Database.TypeNamed(s.types, p.typeName.v).Some? ==>
            t.types == s.types && t.listings[c.listingId].typeId == Database.TypeNamed(s.types, p.typeName.v).value)
      && (Database.TypeNamed(s.types, p.typeName.v).None? ==>
            t.types == s.types + [ListingType(p.typeName.v)] && t.listings[c.listingId].typeId == |s.types|)
      && t.images == s.images + ImagesToInsert(p.status, p.photos, p.plans, c.listingId).value
      && |t.scraped| == |s.scraped|
      && t.scraped[row] == s.scraped[row].(listingId := Some(c.listingId), processedAt := Some(now))
      && forall i :: 0 <= i < |s.scraped| && i != row ==> t.scraped[i] == s.scraped[i]
  {
  }

  /** The type names of the catalog are distinct. */
  predicate UniqueTypeNames(types: seq<ListingType>)
  {
    forall i, j :: 0 <= i < j < |types| ==> types[i].name != types[j].name
  }

  /** Get-or-create never creates a second type of the same name. */
  lemma PromoteKeepsTypeNamesUnique(s: State, row: Id, p: Plan, now: Time)
    requires UniqueTypeNames(s.types)
    ensures Promote(s, row, p, now).Promoted? ==> UniqueTypeNames(Promote(s, row, p, now).state.types)
  {
  }

  // ---------------------------------------------------------------- rejection

  /** The rejection write as written: outside any transaction and without a re-check,
      `listingId := null, processedAt := now` on the selected row. */
  function RejectAsWritten(s: State, row: Id, now: Time): (t: State)
    ensures t.addresses == s.addresses && t.types == s.types && t.listings == s.listings && t.images == s.images
    ensures |t.scraped| == |s.scraped| && forall i :: 0 <= i < |s.scraped| && i != row ==> t.scraped[i] == s.scraped[i]
    ensures row < |s.scraped| ==> t.scraped[row].listingId.None? && t.scraped[row].processedAt == Some(now)
  {
    if row < |s.scraped| then s.(scraped := s.scraped[row := s.scraped[row].(listingId := None, processedAt := Some(now))])
    else s
  }

  /** The rejection write guarded like the promotion (`where id = row and listingId is
      null`): a record promoted meanwhile keeps its listing. */
  function Reject(s: State, row: Id, now: Time): (t: State)
    ensures t.addresses == s.addresses && t.types == s.types && t.listings == s.listings && t.images == s.images
    ensures |t.scraped| == |s.scraped| && forall i :: 0 <= i < |s.scraped| && i != row ==> t.scraped[i] == s.scraped[i]
    ensures row < |s.scraped| ==> t.scraped[row].listingId == s.scraped[row].listingId
  {
    if row < |s.scraped| && s.scraped[row].listingId.None? then
      s.(scraped := s.scraped[row := s.scraped[row].(processedAt := Some(now))])
    else s
  }

  /** A rejection marks the record processed, leaves it without a listing and touches no
      catalog table; the guarded one leaves a promoted record alone, where the write as
      written removes its link to its listing. */
  lemma RejectSpec(s: State, row: Id, now: Time)
    requires row < |s.scraped|
    ensures var t := Reject(s, row, now);
      && t.addresses == s.addresses && t.types == s.types && t.listings == s.listings && t.images == s.images
      && |t.scraped| == |s.scraped|
      && (s.scraped[row].listingId.None? ==>
            t.scraped[row] == s.scraped[row].(processedAt := Some(now)) && t.scraped[row].listingId.None?)
      && (s.scraped[row].listingId.Some? ==> t == s)
      && forall i :: 0 <= i < |s.scraped| && i != row ==> t.scraped[i] == s.scraped[i]
    ensures s.scraped[row].listingId.None? ==> RejectAsWritten(s, row, now) == Reject(s, row, now)
    ensures s.scraped[row].listingId.Some? ==> RejectAsWritten(s, row, now).scraped[row].listingId.None?
  {
  }

  /** The rejection write of variant `v`: either form leaves the catalog tables alone and
      marks an unlinked record processed. */
  function Rejection(s: State, row: Id, now: Time, v: Variant): (t: State)
    ensures t.addresses == s.addresses && t.types == s.types && t.listings == s.listings && t.images == s.images
    ensures row < |s.scraped| && s.scraped[row].listingId.None? ==>
      t.scraped == s.scraped[row := s.scraped[row].(processedAt := Some(now))]
  {
    if v == AsWritten then RejectAsWritten(s, row, now) else Reject(s, row, now)
  }

  // ---------------------------------------------------------------- one handler call

  /** The handler's answer: 200 "No listings found", 400 "No valid address found",
      500 "already processed by another request", 500 from an uncaught exception, or the
      new listing. */
  datatype Reply = NoListingsFound | NoValidAddress | AlreadyProcessedElsewhere | ServerError | Created(id: Id, listing: Listing)

  function HttpStatus(r: Reply): int
  {
    match r
    case NoListingsFound => 200
    case NoValidAddress => 400
    case AlreadyProcessedElsewhere => 500
    case ServerError => 500
    case Created(_, _) => 200
  }

  /** The detail-page URL of a staged record. */
  function DetailUrl(json: Payload): string
  {
    match json
    case NyboligPayload(j, _) => "https://nybolig.dk" + JsText(j.url)
    case HomePayload(j, _) => "https://home.dk/" + JsText(j.url)
  }

  /** The address text sent to the washing service: `None` when reading it throws, for
      a home.dk record whose `address` is null or undefined. */
  function WashKey(json: Payload): (r: Option<Field<string>>)
    ensures json.NyboligPayload? ==> r == Some(json.nybolig.addressDisplayName)
    ensures json.HomePayload? ==> (r.None? <==> !json.home.address.Val?)
  {
    match json
    case NyboligPayload(j, _) => Some(j.addressDisplayName)
    case HomePayload(j, _) => if j.address.Val? then Some(j.address.v.full) else None
  }

  /** Everything the transaction writes, from the staged record, its detail page and
      the address answer. */
  function MakePlan(json: Payload, d: Detail, a: AddressAnswer, now: Time): (p: Plan)
    ensures p.address.displayName == a.betegnelse && p.status == d.status
    ensures p.photos == d.images && p.plans == d.floorplanImages
    ensures p.listing.Some? ==> && p.listing.value.sourceUrl == DetailUrl(json)
                                && p.listing.value.source == (if json.NyboligPayload? then Nybolig else Home)
                                && p.listing.value.status == Stored(d.status)
  {
    match json
    case NyboligPayload(j, _) =>
      Plan(NewAddress(a), Coalesce(d.kind, j.kind), NyboligListing(j, DetailUrl(json), d, now), d.status, d.images, d.floorplanImages)
    case HomePayload(j, _) =>
      Plan(NewAddress(a), HomeType(Coalesce(d.kind, j.kind)), HomeListing(j, DetailUrl(json), d, now), d.status, d.images, d.floorplanImages)
  }

  /** The result of one handler call. */
  datatype Handled = Handled(state: State, reply: Reply)

  /** What a call obtains for the record `json` before it decides, in the code's order:
      the detail page, the washing key, then the washing answer. `None` when one of them
      throws (a failed request, or a property read through a missing object). */
  function Gather(json: Payload, scrape: string -> Option<Detail>,
                  wash: Field<string> -> Option<Field<WashAnswer>>): (g: Option<(Detail, Field<WashAnswer>)>)
    ensures g.Some? <==> scrape(DetailUrl(json)).Some? && WashKey(json).Some? && wash(WashKey(json).value).Some?
    ensures g.Some? ==> g.value == (scrape(DetailUrl(json)).value, wash(WashKey(json).value).value)
  {
    match scrape(DetailUrl(json))
    case None => None
    case Some(d) =>
      match WashKey(json)
      case None => None
      case Some(key) =>
        match wash(key)
        case None => None
        case Some(w) => Some((d, w))
  }

  /** The call once record `row` is selected and its requests are answered: the address
      verdict, then either the rejection write or the address request and the
      transaction. Only that record can change among the staged rows. */
  function Decide(s: State, row: Id, json: Payload, d: Detail, w: Field<WashAnswer>,
                  lookup: string -> Option<AddressAnswer>, now: Time, v: Variant): (h: Handled)
    ensures |h.state.scraped| == |s.scraped|
    ensures forall i :: 0 <= i < |s.scraped| && i != row ==> h.state.scraped[i] == s.scraped[i]
    ensures h.reply != NoListingsFound
    ensures h.reply == NoValidAddress <==> AddressVerdict(w, v).Rejected?
    ensures h.reply == ServerError || h.reply == AlreadyProcessedElsewhere ==> h.state == s
  {
    match AddressVerdict(w, v)
    case Throws => Handled(s, ServerError)
    case Rejected => Handled(Rejection(s, row, now, v), NoValidAddress)
    case Accepted(id) =>
      match lookup(id)
      case None => Handled(s, ServerError)
      case Some(a) =>
        match Promote(s, row, MakePlan(json, d, a, now), now)
        case Promoted(t, l) => Handled(t, Created(l, t.listings[l]))
        case AlreadyProcessed => Handled(s, AlreadyProcessedElsewhere)
        case RolledBack => Handled(s, ServerError)
  }

  /** One call of the process-listing handler of `src`, run alone, in variant `v`:
      `scrape`, `wash` and `lookup` answer the detail-page, address-washing and address
      requests, `None` for a request that fails. A throw anywhere before the transaction
      is Hono's 500 with nothing written. The call changes at most the selected record
      among the staged rows. */
  function Process(s: State, src: Source, scrape: string -> Option<Detail>, wash: Field<string> -> Option<Field<WashAnswer>>,
                   lookup: string -> Option<AddressAnswer>, now: Time, v: Variant): (h: Handled)
    ensures |h.state.scraped| == |s.scraped|
    ensures forall i :: 0 <= i < |s.scraped| && SelectStaged(s.scraped, src) != Some(i) ==> h.state.scraped[i] == s.scraped[i]
  {
    match SelectStaged(s.scraped, src)
    case None => Handled(s, NoListingsFound)
    case Some(row) =>
      match Gather(s.scraped[row].json, scrape, wash)
      case None => Handled(s, ServerError)
      case Some((d, w)) => Decide(s, row, s.scraped[row].json, d, w, lookup, now, v)
  }

  /** The two forms of the decision agree on an unlinked record unless the washing
      result is empty. */
  lemma DecideAgrees(s: State, row: Id, json: Payload, d: Detail, w: Field<WashAnswer>,
                     lookup: string -> Option<AddressAnswer>, now: Time)
    requires row < |s.scraped| && s.scraped[row].listingId.None? && !EmptyResult(w)
    ensures Decide(s, row, json, d, w, lookup, now, AsWritten) == Decide(s, row, json, d, w, lookup, now, Corrected)
  {
    WashAsWrittenThrowsOnEmpty(w);
    RejectSpec(s, row, now);
    assert AddressVerdict(w, AsWritten) == AddressVerdict(w, Corrected);
    assert Rejection(s, row, now, AsWritten) == Rejection(s, row, now, Corrected);
  }

  /** With no eligible row the handler answers 200 "No listings found" and changes
      nothing. */
  lemma NothingToProcess(s: State, src: Source, scrape: string -> Option<Detail>, wash: Field<string> -> Option<Field<WashAnswer>>,
                         lookup: string -> Option<AddressAnswer>, now: Time, v: Variant)
    ensures (forall j :: 0 <= j < |s.scraped| ==> !Eligible(s.scraped[j], src)) <==>
            Process(s, src, scrape, wash, lookup, now, v).reply == NoListingsFound
    ensures Process(s, src, scrape, wash, lookup, now, v).reply == NoListingsFound ==>
            Process(s, src, scrape, wash, lookup, now, v).state == s
            && HttpStatus(NoListingsFound) == 200
  {
  }

  /** What the selected record's requests give, `None` when no record is selected or a
      request before the decision throws. */
  function Gathered(s: State, src: Source, scrape: string -> Option<Detail>,
                    wash: Field<string> -> Option<Field<WashAnswer>>): Option<(Detail, Field<WashAnswer>)>
  {
    match SelectStaged(s.scraped, src)
    case None => None
    case Some(row) => Gather(s.scraped[row].json, scrape, wash)
  }

  /** The handler rejects exactly when the selected record's address fails the test —
      in the code as written, except on an empty result list, where it throws — and it
      then marks that record processed without a listing and creates no catalog row. */
  lemma RejectsIffInvalidAddress(s: State, src: Source, scrape: string -> Option<Detail>, wash: Field<string> -> Option<Field<WashAnswer>>,
                                 lookup: string -> Option<AddressAnswer>, now: Time, v: Variant)
    ensures var h := Process(s, src, scrape, wash, lookup, now, v);
      var g := Gathered(s, src, scrape, wash);
      var sel := SelectStaged(s.scraped, src);
      && (h.reply == NoValidAddress <==>
            g.Some? && !AddressValid(g.value.1) && (v == AsWritten ==> !EmptyResult(g.value.1)))
      && (h.reply == NoValidAddress ==>
            h.state == s.(scraped := s.scraped[sel.value := s.scraped[sel.value].(processedAt := Some(now))]))
  {
    var sel := SelectStaged(s.scraped, src);
    if sel.Some? {
      RejectSpec(s, sel.value, now);
    }
  }

  /** The selected record meets an empty washing result. */
  predicate EmptyWashFor(s: State, src: Source, scrape: string -> Option<Detail>,
                         wash: Field<string> -> Option<Field<WashAnswer>>)
  {
    var g := Gathered(s, src, scrape, wash);
    g.Some? && EmptyResult(g.value.1)
  }

  /** The first finding at the handler: on an empty washing result the code as written
      answers 500 and writes nothing, so the record stays eligible for the next call,
      where the corrected handler rejects it with 400 and marks it processed. */
  lemma EmptyWashIsServerError(s: State, src: Source, scrape: string -> Option<Detail>, wash: Field<string> -> Option<Field<WashAnswer>>,
                               lookup: string -> Option<AddressAnswer>, now: Time)
    requires EmptyWashFor(s, src, scrape, wash)
    ensures Process(s, src, scrape, wash, lookup, now, AsWritten) == Handled(s, ServerError)
    ensures SelectStaged(s.scraped, src).Some? && Eligible(s.scraped[SelectStaged(s.scraped, src).value], src)
    ensures var h := Process(s, src, scrape, wash, lookup, now, Corrected);
      var row := SelectStaged(s.scraped, src).value;
      h.reply == NoValidAddress && !Eligible(h.state.scraped[row], src)
  {
    var row := SelectStaged(s.scraped, src).value;
    RejectSpec(s, row, now);
  }

  /** The two forms of the handler differ only on an empty washing result. */
  lemma VariantsAgree(s: State, src: Source, scrape: string -> Option<Detail>, wash: Field<string> -> Option<Field<WashAnswer>>,
                      lookup: string -> Option<AddressAnswer>, now: Time)
    requires !EmptyWashFor(s, src, scrape, wash)
    ensures Process(s, src, scrape, wash, lookup, now, AsWritten) == Process(s, src, scrape, wash, lookup, now, Corrected)
  {
    var sel := SelectStaged(s.scraped, src);
    if sel.Some? {
      var row := sel.value;
      var g := Gather(s.scraped[row].json, scrape, wash);
      if g.Some? {
        DecideAgrees(s, row, s.scraped[row].json, g.value.0, g.value.1, lookup, now);
      }
    }
  }

  /** A failed request, a throw or a guarded transaction leaves the database as it was:
      a failing detail-page, washing or address request is a 500 that writes nothing. */
  lemma FailureChangesNothing(s: State, src: Source, scrape: string -> Option<Detail>, wash: Field<string> -> Option<Field<WashAnswer>>,
                              lookup: string -> Option<AddressAnswer>, now: Time, v: Variant)
    ensures var h := Process(s, src, scrape, wash, lookup, now, v);
      h.reply == ServerError || h.reply == AlreadyProcessedElsewhere ==> h.state == s
    ensures var h := Process(s, src, scrape, wash, lookup, now, v);
      var g := Gathered(s, src, scrape, wash);
      && (SelectStaged(s.scraped, src).Some? && g.None? ==> h == Handled(s, ServerError))
      && (g.Some? && AddressVerdict(g.value.1, v).Accepted? && lookup(AddressVerdict(g.value.1, v).id).None? ==> h == Handled(s, ServerError))
  {
  }

  /** A successful call promotes the selected record: the record now points at the new
      listing, which is the last row of `listings`. */
  lemma CreatedLinksRecord(s: State, src: Source, scrape: string -> Option<Detail>, wash: Field<string> -> Option<Field<WashAnswer>>,
                           lookup: string -> Option<AddressAnswer>, now: Time, v: Variant)
    ensures var h := Process(s, src, scrape, wash, lookup, now, v);
      h.reply.Created? ==>
        var row := SelectStaged(s.scraped, src).value;
        && h.reply.id == |s.listings| && |h.state.listings| == |s.listings| + 1
        && h.state.listings[h.reply.id] == h.reply.listing
        && h.state.scraped[row].listingId == Some(h.reply.id)
        && h.state.scraped[row].processedAt == Some(now)
        && |h.state.addresses| == |s.addresses| + 1
  {
    var h := Process(s, src, scrape, wash, lookup, now, v);
    if h.reply.Created? {
      var row := SelectStaged(s.scraped, src).value;
      var json := s.scraped[row].json;
      var g := Gather(json, scrape, wash).value;
      var id := AddressVerdict(g.1, v).id;
      PromoteEffect(s, row, MakePlan(json, g.0, lookup(id).value, now), now);
    }
  }
}
