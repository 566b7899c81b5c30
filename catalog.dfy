/** The normalized catalog tables (addresses, listing_types, listings, listing_images),
    the detail-page record the processor and the refresher consume, and the value of
    the whole database. */
module Catalog {
  import opened Wrappers
  import opened Text
  import opened Staging

  /** `listings.status`. */
  datatype Status = Active | Reserved | Sold | Unlisted

  /** `listingStatusEnum.enumValues`, taken in the order active, reserved, sold,
      unlisted. The declaration of `listingStatusEnum` is not part of this model: the
      order is the one the status set is documented in, and the code fixes only that
      index 3 is 'unlisted'. */
  const StatusEnumValues: seq<Status> := [Active, Reserved, Sold, Unlisted]

  /** Which form of an operation with a defect: the code as written, or the code with
      the defect corrected. */
  datatype Variant = AsWritten | Corrected

  /** `listingImageTypeEnum.enumValues[0]` and `[1]`: photo and floor plan. */
  datatype ImageKind = Photo | Floorplan

  /** A row of `addresses`. */
  datatype Address = Address(
    street: string,
    houseNumber: string,
    floor: Option<string>,
    door: Option<string>,
    postalCode: string,
    postalCodeName: string,
    extraCity: Option<string>,
    location: (real, real),
    displayName: string,
    slug: string)

  /** A row of `listing_types`. */
  datatype ListingType = ListingType(name: string)

  /** A row of `listings`. Columns the insert left undefined or null are NULL (None). */
  datatype Listing = Listing(
    title: Option<string>,
    description: Option<string>,
    source: Source,
    sourceUrl: string,
    addressId: Id,
    typeId: Id,
    status: Option<Status>,
    areaLand: Option<int>,
    areaFloor: Option<int>,
    areaBasement: Option<int>,
    price: Option<int>,
    energyClass: Option<string>,
    rooms: Option<int>,
    bedroomCount: Option<int>,
    bathroomCount: Option<int>,
    mainImgUrl: Option<string>,
    mainImgAlt: Option<string>,
    floors: Option<int>,
    yearBuilt: Option<int>,
    yearRenovated: Option<int>,
    createdAt: Time,
    updatedAt: Time)

  /** A row of `listing_images`. */
  datatype ListingImage = ListingImage(listingId: Id, url: string, order: nat, alt: Option<string>, kind: ImageKind)

  /** One image of a detail page: its address and alternative text. */
  datatype Media = Media(url: string, alt: Field<string>)

  /** The field bag a detail-page scraper returns, as the processor and the refresher
      read it: every field may be undefined (the unlisted result holds only `status`), and
      a number may be NaN (`Number` of a string that is not one). */
  datatype Detail = Detail(
    title: Field<string>,
    description: Field<string>,
    kind: Field<string>,
    status: Field<Status>,
    price: Field<NumVal>,
    areaLand: Field<NumVal>,
    areaFloor: Field<NumVal>,
    areaBasement: Field<NumVal>,
    energyClass: Field<string>,
    rooms: Field<NumVal>,
    bedrooms: Field<NumVal>,
    bathrooms: Field<NumVal>,
    floors: Field<NumVal>,
    yearBuilt: Field<NumVal>,
    yearRenovated: Field<NumVal>,
    images: Field<seq<Media>>,
    floorplanImages: Field<seq<Media>>)

  /** A number field PostgreSQL accepts for an integer column: anything but NaN. */
  predicate Writable(f: Field<NumVal>)
  {
    !(f.Val? && f.v.NaN?)
  }

  /** The integer a writable number field carries. */
  function IntField(f: Field<NumVal>): (r: Field<int>)
    requires Writable(f)
    ensures r.Val? <==> f.Val?
    ensures r.Val? ==> f.v == Num(r.v)
    ensures r.Null? <==> f.Null?
  {
    match f
    case Val(n) => Val(n.n)
    case Null => Null
    case Undefined => Undefined
  }

  /** A JSON number of the staged record as a JavaScript number. */
  function AsNum(f: Field<int>): (r: Field<NumVal>)
    ensures Writable(r)
    ensures r.Val? <==> f.Val?
    ensures r.Val? ==> r.v == Num(f.v)
    ensures r.Null? <==> f.Null?
  {
    match f
    case Val(n) => Val(Num(n))
    case Null => Null
    case Undefined => Undefined
  }

  /** The detail result that holds only `status = 'unlisted'`. */
  function UnlistedOnly(): (d: Detail)
    ensures d.status == Val(StatusEnumValues[3])
  {
    Detail(Undefined, Undefined, Undefined, Val(Unlisted), Undefined, Undefined, Undefined, Undefined,
           Undefined, Undefined, Undefined, Undefined, Undefined, Undefined, Undefined, Undefined, Undefined)
  }

  /** `images?.[0]`: the first image, undefined when there is none. */
  function FirstImage(images: Field<seq<Media>>): (r: Field<Media>)
    ensures r.Val? <==> images.Val? && |images.v| > 0
    ensures r.Val? ==> r.v == images.v[0]
  {
    if images.Val? && |images.v| > 0 then Val(images.v[0]) else Undefined
  }

  /** `images?.[0]?.src`. */
  function FirstImageUrl(images: Field<seq<Media>>): Field<string>
  {
    match FirstImage(images)
    case Val(m) => Val(m.url)
    case _ => Undefined
  }

  /** `images?.[0]?.alt`. */
  function FirstImageAlt(images: Field<seq<Media>>): Field<string>
  {
    match FirstImage(images)
    case Val(m) => m.alt
    case _ => Undefined
  }

  /** The whole database: the staging table and the catalog tables. */
  datatype State = State(
    scraped: seq<ScrapedRow>,
    addresses: seq<Address>,
    types: seq<ListingType>,
    listings: seq<Listing>,
    images: seq<ListingImage>)
}
