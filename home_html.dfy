/** homeHtmlScraper.ts: the home.dk detail page. The callbacks append the text of the
    linked-data script, the Nuxt payload, the `h2.h1` heading and the page title to four
    buffers; the Nuxt payload is then decoded (the decoder is not part of this model: it
    is the parameter `decode`) and the case of the page's id is turned into the detail
    record, or into an unlisted-only record when the page has no linked data or no case. */
module HomeHtml {
  import opened Wrappers
  import opened Text
  import opened Catalog

  /** What the parser reports to a text callback, in document order. */
  datatype Event =
    | LinkedDataText(text: string)   // `script[type="application/ld+json"]`
    | NuxtText(text: string)         // `#__NUXT_DATA__`
    | TitleText(text: string)        // `h2.h1`
    | PageTitleText(text: string)    // `title`

  /** The four text buffers. */
  datatype Captured = Captured(linkedData: string, nuxtData: string, title: string, pageTitle: string)

  const Initial := Captured("", "", "", "")

  function Step(c: Captured, e: Event): Captured
  {
    match e
    case LinkedDataText(t) => c.(linkedData := c.linkedData + t)
    case NuxtText(t) => c.(nuxtData := c.nuxtData + t)
    case TitleText(t) => c.(title := c.title + t)
    case PageTitleText(t) => c.(pageTitle := c.pageTitle + t)
  }

  function Scan(c: Captured, events: seq<Event>): Captured
    decreases |events|
  {
    if events == [] then c else Step(Scan(c, events[..|events| - 1]), events[|events| - 1])
  }

  /** The text chunks of one element kind. */
  function Chunks(events: seq<Event>, title: bool): seq<string>
    decreases |events|
  {
    if events == [] then []
    else
      var e := events[|events| - 1];
      Chunks(events[..|events| - 1], title) + (if (title && e.TitleText?) || (!title && e.LinkedDataText?) then [e.text] else [])
  }

  /** The heading is the concatenation of all `h2.h1` text chunks, the linked data that of
      all linked-data chunks; the other callbacks leave them alone. */
  lemma {:induction false} ScanBuffers(c: Captured, events: seq<Event>)
    ensures Scan(c, events).title == c.title + Concat(Chunks(events, true))
    ensures Scan(c, events).linkedData == c.linkedData + Concat(Chunks(events, false))
    decreases |events|
  {
    if events != [] {
      var init := events[..|events| - 1];
      ScanBuffers(c, init);
      var e := events[|events| - 1];
      var t, l := Chunks(events, true), Chunks(events, false);
      if e.TitleText? {
        assert t == Chunks(init, true) + [e.text] && t[..|t| - 1] == Chunks(init, true);
        assert l == Chunks(init, false);
      } else if e.LinkedDataText? {
        assert l == Chunks(init, false) + [e.text] && l[..|l| - 1] == Chunks(init, false);
        assert t == Chunks(init, true);
      } else {
        assert t == Chunks(init, true) && l == Chunks(init, false);
      }
    }
  }

  /** The page's text callbacks, with the buffers as fields. */
  class Rewriter {
    var linkedData: string
    var nuxtData: string
    var title: string
    var pageTitle: string

    function Snapshot(): Captured
      reads this
    {
      Captured(linkedData, nuxtData, title, pageTitle)
    }

    constructor ()
      ensures Snapshot() == Initial
    {
      linkedData, nuxtData, title, pageTitle := "", "", "", "";
    }

    method On(e: Event)
      modifies this
      ensures Snapshot() == Step(old(Snapshot()), e)
    {
      match e
      case LinkedDataText(t) => linkedData := linkedData + t;
      case NuxtText(t) => nuxtData := nuxtData + t;
      case TitleText(t) => title := title + t;
      case PageTitleText(t) => pageTitle := pageTitle + t;
    }

    method Transform(events: seq<Event>)
      modifies this
      ensures Snapshot() == Scan(old(Snapshot()), events)
    {
      for i := 0 to |events|
        invariant Snapshot() == Scan(old(Snapshot()), events[..i])
      {
        assert events[..i + 1][..i] == events[..i];
        On(events[i]);
      }
      assert events[..|events|] == events;
    }
  }

  // ---------------------------------------------------------------- the case record

  /** The part of a decoded `case-<id>` entry the scraper reads. */
  datatype NuxtCase = NuxtCase(
    propertyCategory: string,
    isUnderSale: bool,
    isSold: bool,
    cashPrice: int,
    energyLabel: string,
    plotArea: int,
    floorArea: int,
    basementArea: int,
    rooms: int,
    bathrooms: int,
    yearBuilt: Field<string>,
    yearRenovated: Field<string>,
    floors: Field<int>,
    salesPresentationDescription: string,
    presentationMedia: seq<Media>,
    floorPlanMedia: seq<Media>)

  /** `url.split('/sag-').pop()?.slice(0, -1) ?? ''`: the text after the last "/sag-"
      without its final character. */
  function CaseId(url: string): string
  {
    DropLast(AfterLast(url, "/sag-"))
  }

  /** For a case address ending in "/sag-<id>/" whose id has no '/', the id is found. */
  lemma CaseIdOfUrl(prefix: string, id: string)
    requires '/' !in id
    ensures CaseId(prefix + "/sag-" + id + "/") == id
  {
    var s := prefix + "/sag-" + id + "/";
    var p := |prefix|;
    assert s[p..p + 5] == "/sag-";
    assert OccursAt(s, "/sag-", p);
    var r := LastIndexOf(s, "/sag-", |s|);
    forall i | p < i <= |s| ensures !OccursAt(s, "/sag-", i) {
      if i + 5 <= |s| {
        assert s[i..i + 5][0] == s[i];
        if i < p + 5 {
          assert s[i] == "/sag-"[i - p];
        } else {
          assert s[i] == id[i - p - 5];
        }
      }
    }
    assert r == Some(p);
    assert s[p + 5..] == id + "/";
  }

  /** The status expression as written, over the enum values `values`: `isUnderSale`
      gives `values[2]`, `isSold` gives `values[1]`, anything else `values[0]`; the
      fourth value is never chosen. */
  function StatusAsWritten(values: seq<Status>, isUnderSale: bool, isSold: bool): (s: Status)
    requires |values| == 4
    ensures s == values[0] || s == values[1] || s == values[2]
  {
    if isUnderSale then values[2] else if isSold then values[1] else values[0]
  }

  /** The status the flags mean: a sale agreed but not completed is reserved, a
      completed one sold, anything else active; `isUnderSale` takes precedence. */
  function Status(isUnderSale: bool, isSold: bool): (s: Catalog.Status)
    ensures s != Unlisted
    ensures s == Reserved <==> isUnderSale
    ensures s == Sold <==> !isUnderSale && isSold
    ensures s == Active <==> !isUnderSale && !isSold
  {
    if isUnderSale then Reserved else if isSold then Sold else Active
  }

  /** The expression as written exchanges reserved and sold and agrees otherwise: a sold
      home is shown as reserved and a reserved one as sold. */
  lemma StatusAsWrittenSwaps(isUnderSale: bool, isSold: bool)
    ensures StatusAsWritten(StatusEnumValues, isUnderSale, isSold) == match Status(isUnderSale, isSold)
      case Reserved => Sold
      case Sold => Reserved
      case other => other
    ensures StatusAsWritten(StatusEnumValues, false, true) == Reserved && Status(false, true) == Sold
  {
  }

  /** The finding rests on the order of the enum values: had they been declared active,
      sold, reserved, unlisted, the expression as written would be the intended one; in
      the order taken here, the two agree only on a case neither under sale nor sold. */
  lemma StatusOrderDecides(isUnderSale: bool, isSold: bool)
    ensures StatusAsWritten([Active, Sold, Reserved, Unlisted], isUnderSale, isSold) == Status(isUnderSale, isSold)
    ensures StatusAsWritten(StatusEnumValues, isUnderSale, isSold) == Status(isUnderSale, isSold) <==> !isUnderSale && !isSold
  {
  }

  /** `n || null` of a count: 0 becomes null. */
  function ZeroIsNull(n: int): (r: Field<NumVal>)
    ensures r.Null? <==> n == 0
    ensures r.Val? ==> r.v == Num(n)
    ensures !r.Undefined?
  {
    if n == 0 then Null else Val(Num(n))
  }

  /** `y ? Number(y.substring(0, 4)) : null`. */
  function Year(y: Field<string>): (r: Field<NumVal>)
    ensures r.Null? <==> !Truthy(y)
    ensures !r.Undefined?
  {
    if Truthy(y) then Val(JsNumber(Prefix(y.v, 4))) else Null
  }

  /** A date that starts with four digits gives that year. */
  lemma YearOfDate(year: string, rest: string)
    requires |year| == 4 && AllDigits(year)
    ensures Year(Val(year + rest)) == Val(Num(DecimalValue(year)))
  {
    assert (year + rest)[..4] == year;
  }

  /** The record `scrapeHomeListing(url)` returns, in variant `v`: as written, or with
      the corrected status; `decode(text, key)` is the decoded Nuxt payload's
      `data[key]`, `None` when it is undefined. The status is always defined. */
  function Result(url: string, c: Captured, decode: (string, string) -> Option<NuxtCase>, v: Variant): (d: Detail)
    ensures d.status.Val?
  {
    if c.linkedData == "" then UnlistedOnly()
    else match decode(c.nuxtData, "case-" + CaseId(url))
      case None => UnlistedOnly()
      case Some(n) =>
        Detail(Val(c.title), Val(n.salesPresentationDescription), Val(n.propertyCategory),
               Val(HomeStatus(n, v)), Val(Num(n.cashPrice)), Val(Num(n.plotArea)),
               Val(Num(n.floorArea)), Val(Num(n.basementArea)), Val(n.energyLabel), ZeroIsNull(n.rooms),
               Undefined, ZeroIsNull(n.bathrooms), AsNum(n.floors), Year(n.yearBuilt), Year(n.yearRenovated),
               Val(n.presentationMedia), Val(n.floorPlanMedia))
  }

  /** The status of a case in variant `v`. */
  function HomeStatus(n: NuxtCase, v: Variant): (s: Status)
    ensures s != Unlisted
  {
    if v == AsWritten then StatusAsWritten(StatusEnumValues, n.isUnderSale, n.isSold) else Status(n.isUnderSale, n.isSold)
  }

  /** The page counts as unlisted exactly when it has no linked data or the payload has
      no case for its id; the record then holds the status and nothing else. Otherwise
      every field is defined except the bedroom count, and zero counts are null. */
  lemma ResultSpec(url: string, c: Captured, decode: (string, string) -> Option<NuxtCase>, v: Variant)
    ensures var d := Result(url, c, decode, v);
      var o := decode(c.nuxtData, "case-" + CaseId(url));
      && (d.status == Val(Unlisted) <==> c.linkedData == "" || o.None?)
      && (d.status == Val(Unlisted) ==> d == UnlistedOnly())
      && (d.status != Val(Unlisted) ==>
            var n := o.value;
            && d.title == Val(c.title) && d.bedrooms.Undefined?
            && (d.rooms.Null? <==> n.rooms == 0) && (d.bathrooms.Null? <==> n.bathrooms == 0)
            && d.images == Val(n.presentationMedia) && d.floorplanImages == Val(n.floorPlanMedia)
            && Writable(d.price) && Writable(d.areaLand) && Writable(d.areaFloor) && Writable(d.areaBasement)
            && Writable(d.rooms) && Writable(d.bathrooms) && Writable(d.floors))
  {
  }

  /** The status of a listed page: corrected, `isUnderSale` gives reserved and takes
      precedence over `isSold`, which gives sold; as written, the two are exchanged. A
      page that is neither gives active in both. */
  lemma ResultStatus(url: string, c: Captured, decode: (string, string) -> Option<NuxtCase>, v: Variant)
    requires c.linkedData != "" && decode(c.nuxtData, "case-" + CaseId(url)).Some?
    ensures var d := Result(url, c, decode, v);
      var n := decode(c.nuxtData, "case-" + CaseId(url)).value;
      var under := if v == Corrected then Reserved else Sold;
      var sold := if v == Corrected then Sold else Reserved;
      && (d.status == Val(under) <==> n.isUnderSale)
      && (d.status == Val(sold) <==> !n.isUnderSale && n.isSold)
      && (d.status == Val(Active) <==> !n.isUnderSale && !n.isSold)
  {
  }

  /** `scrapeHomeListing(url)` in variant `v`, with the page's parse events and the
      payload decoder as inputs. */
  method ScrapeHomeListing(url: string, events: seq<Event>, decode: (string, string) -> Option<NuxtCase>, v: Variant) returns (d: Detail)
    ensures d == Result(url, Scan(Initial, events), decode, v)
    ensures Concat(Chunks(events, false)) == "" ==> d == UnlistedOnly()
  {
    var rewriter := new Rewriter();
    rewriter.Transform(events);
    var captured := rewriter.Snapshot();
    ScanBuffers(Initial, events);
    d := Result(url, captured, decode, v);
  }
}
