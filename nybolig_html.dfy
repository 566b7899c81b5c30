/** nyboligHtmlScraper.ts: the nybolig.dk detail page. The HTML parser is not part of
    this model; what it reports to the page's callbacks is a sequence of events, which
    the callbacks fold into accumulators (image lists, text buffers, the case-facts table,
    the energy class). The result's fields are then derived from those accumulators. */
module NyboligHtml {
  import opened Wrappers
  import opened Text
  import opened Catalog

  /** What the parser reports to a callback, in document order. */
  datatype Event =
    | PhotoImg(src: Field<string>, alt: Field<string>)       // `#hero-slider-photo img`
    | PlanImg(src: Field<string>, alt: Field<string>)        // `#hero-slider-floorplan img`
    | TitleText(text: string)                                // `h2.case-facts__title`
    | DescriptionText(text: string)                          // `… foldable-spot__container p`
    | DescriptionBreak                                       // `… foldable-spot__container p br`
    | TypeText(text: string)                                 // `.case-facts__box-title__type`
    | PriceText(text: string)                                // `.case-facts__box-title__price`
    | FactTitleStart                                         // `… span:first-child`, element
    | FactTitleText(text: string)                            // `… span:first-child`, text
    | FactValueStart                                         // `… :nth-child(2)`, element
    | FactValueText(text: string, lastInTextNode: bool)      // `… :nth-child(2)`, text
    | Rating(className: Field<string>)                       // `… .tile__rating`

  /** The accumulators the callbacks write. */
  datatype Captured = Captured(
    images: seq<Media>,
    floorplanImages: seq<Media>,
    title: string,
    description: string,
    kind: string,
    price: string,
    caseFacts: map<string, string>,
    factTitle: string,
    factValue: string,
    energyClass: Field<string>)

  /** The accumulators before the page is parsed. */
  const Initial := Captured([], [], "", "", "", "", map[], "", "", Null)

  const RatingPrefix := "tile__rating -rated-"
  const FloorAreaFact := "Boligareal: "
  const RoomsFact := "Stue/V&#230;relser: "
  const YearsFact := "Bygget/Ombygget: "
  const PlotAreaFact := "Grundst&#248;rrelse: "

  /** The effect of one callback. */
  function Step(c: Captured, e: Event): Captured
  {
    match e
    case PhotoImg(src, alt) => if Truthy(src) then c.(images := c.images + [Media(src.v, alt)]) else c
    case PlanImg(src, alt) => if Truthy(src) then c.(floorplanImages := c.floorplanImages + [Media(src.v, alt)]) else c
    case TitleText(t) => c.(title := c.title + t)
    case DescriptionText(t) => c.(description := c.description + t)
    case DescriptionBreak => c.(description := c.description + "<br>")
    case TypeText(t) => c.(kind := c.kind + t)
    case PriceText(t) => c.(price := c.price + t)
    case FactTitleStart => c.(factTitle := "")
    case FactTitleText(t) => c.(factTitle := c.factTitle + t)
    case FactValueStart => c.(factValue := "")
    case FactValueText(t, last) =>
      if last then c.(factValue := c.factValue + t, caseFacts := c.caseFacts[c.factTitle := c.factValue + t])
      else c.(factValue := c.factValue + t)
    case Rating(cls) => if Truthy(cls) then c.(energyClass := Val(ReplaceFirst(cls.v, RatingPrefix, ""))) else c
  }

  /** The accumulators after the callbacks for `events`, in order. */
  function Scan(c: Captured, events: seq<Event>): Captured
    decreases |events|
  {
    if events == [] then c else Step(Scan(c, events[..|events| - 1]), events[|events| - 1])
  }

  /** The photos a page shows: the photo elements with a non-empty `src`, in order. */
  function Photos(events: seq<Event>): seq<Media>
    decreases |events|
  {
    if events == [] then []
    else
      var e := events[|events| - 1];
      Photos(events[..|events| - 1]) + (if e.PhotoImg? && Truthy(e.src) then [Media(e.src.v, e.alt)] else [])
  }

  /** The floor plans the same way. */
  function Plans(events: seq<Event>): seq<Media>
    decreases |events|
  {
    if events == [] then []
    else
      var e := events[|events| - 1];
      Plans(events[..|events| - 1]) + (if e.PlanImg? && Truthy(e.src) then [Media(e.src.v, e.alt)] else [])
  }

  /** The text chunks of the title element. */
  function TitleChunks(events: seq<Event>): seq<string>
    decreases |events|
  {
    if events == [] then []
    else
      var e := events[|events| - 1];
      TitleChunks(events[..|events| - 1]) + (if e.TitleText? then [e.text] else [])
  }

  /** Scanning one more event is one more step. */
  lemma ScanSnoc(c: Captured, events: seq<Event>, e: Event)
    ensures Scan(c, events + [e]) == Step(Scan(c, events), e)
  {
    assert (events + [e])[..|events|] == events;
  }

  /** What one callback does to the image lists and the title. */
  lemma StepCollects(c: Captured, e: Event)
    ensures Step(c, e).images == c.images + (if e.PhotoImg? && Truthy(e.src) then [Media(e.src.v, e.alt)] else [])
    ensures Step(c, e).floorplanImages == c.floorplanImages + (if e.PlanImg? && Truthy(e.src) then [Media(e.src.v, e.alt)] else [])
    ensures Step(c, e).title == c.title + (if e.TitleText? then e.text else "")
  {
  }

  /** The image lists hold exactly the elements whose `src` is present and non-empty,
      photos and floor plans apart, each in document order. */
  lemma {:induction false} ScanImages(c: Captured, events: seq<Event>)
    ensures Scan(c, events).images == c.images + Photos(events)
    ensures Scan(c, events).floorplanImages == c.floorplanImages + Plans(events)
    decreases |events|
  {
    if events != [] {
      var init := events[..|events| - 1];
      ScanImages(c, init);
      StepCollects(Scan(c, init), events[|events| - 1]);
    }
  }

  /** The title is the concatenation of the title element's text chunks. */
  lemma {:induction false} ScanTitle(c: Captured, events: seq<Event>)
    ensures Scan(c, events).title == c.title + Concat(TitleChunks(events))
    decreases |events|
  {
    if events != [] {
      var init := events[..|events| - 1];
      ScanTitle(c, init);
      var e := events[|events| - 1];
      StepCollects(Scan(c, init), e);
      if e.TitleText? {
        assert TitleChunks(events) == TitleChunks(init) + [e.text];
        assert TitleChunks(events)[..|TitleChunks(events)| - 1] == TitleChunks(init);
      } else {
        assert TitleChunks(events) == TitleChunks(init);
      }
    }
  }

  /** The callbacks of one case-facts row, a title and a one-chunk value. */
  function FactRow(title: string, value: string): seq<Event>
  {
    [FactTitleStart, FactTitleText(title), FactValueStart, FactValueText(value, true)]
  }

  /** Four events are four steps. */
  lemma ScanFour(c: Captured, e1: Event, e2: Event, e3: Event, e4: Event)
    ensures Scan(c, [e1, e2, e3, e4]) == Step(Step(Step(Step(c, e1), e2), e3), e4)
  {
    assert [] + [e1] == [e1];
    ScanSnoc(c, [], e1);
    assert [e1] + [e2] == [e1, e2];
    ScanSnoc(c, [e1], e2);
    assert [e1, e2] + [e3] == [e1, e2, e3];
    ScanSnoc(c, [e1, e2], e3);
    assert [e1, e2, e3] + [e4] == [e1, e2, e3, e4];
    ScanSnoc(c, [e1, e2, e3], e4);
  }

  /** A row writes its value under its title and leaves every other title alone. */
  lemma FactRowWrites(c: Captured, title: string, value: string)
    ensures Scan(c, FactRow(title, value)).caseFacts == c.caseFacts[title := value]
  {
    ScanFour(c, FactTitleStart, FactTitleText(title), FactValueStart, FactValueText(value, true));
    var c2 := Step(Step(c, FactTitleStart), FactTitleText(title));
    assert c2.factTitle == title by {
      assert "" + title == title;
    }
    var c3 := Step(c2, FactValueStart);
    assert c3.factTitle == title && c3.factValue == "" && c3.caseFacts == c.caseFacts;
    assert "" + value == value;
  }

  /** Scanning two event runs is scanning the first and then the second. */
  lemma {:induction false} ScanAppend(c: Captured, a: seq<Event>, b: seq<Event>)
    ensures Scan(c, a + b) == Scan(Scan(c, a), b)
    decreases |b|
  {
    if b == [] {
      assert a + b == a;
    } else {
      assert (a + b)[..|a + b| - 1] == a + b[..|b| - 1];
      ScanAppend(c, a, b[..|b| - 1]);
    }
  }

  /** Of two rows with the same title, the later one wins. */
  lemma LaterFactWins(c: Captured, title: string, first: string, second: string)
    ensures var facts := Scan(c, FactRow(title, first) + FactRow(title, second)).caseFacts;
      title in facts && facts[title] == second
  {
    ScanAppend(c, FactRow(title, first), FactRow(title, second));
    FactRowWrites(c, title, first);
    FactRowWrites(Scan(c, FactRow(title, first)), title, second);
  }

  /** The energy class: the class attribute with the rating prefix removed; an element
      without a class leaves the energy class as it was. */
  lemma RatingClass(c: Captured, grade: string)
    ensures Scan(c, [Rating(Val(RatingPrefix + grade))]).energyClass == Val(grade)
    ensures Scan(c, [Rating(Null)]) == c
  {
    var s := RatingPrefix + grade;
    assert s[..|RatingPrefix|] == RatingPrefix;
    assert OccursAt(s, RatingPrefix, 0);
    assert IndexOf(s, RatingPrefix) == Some(0);
    assert s[|RatingPrefix|..] == grade;
    assert ReplaceFirst(s, RatingPrefix, "") == grade;
    assert [] + [Rating(Val(s))] == [Rating(Val(s))];
    ScanSnoc(c, [], Rating(Val(s)));
    assert [] + [Rating(Null)] == [Rating(Null)];
    ScanSnoc(c, [], Rating(Null));
  }

  /** The page's callbacks, as an object whose fields are the accumulators. */
  class Rewriter {
    var images: seq<Media>
    var floorplanImages: seq<Media>
    var title: string
    var description: string
    var kind: string
    var price: string
    var caseFacts: map<string, string>
    var factTitle: string
    var factValue: string
    var energyClass: Field<string>

    function Snapshot(): Captured
      reads this
    {
      Captured(images, floorplanImages, title, description, kind, price, caseFacts, factTitle, factValue, energyClass)
    }

    constructor ()
      ensures Snapshot() == Initial
    {
      images, floorplanImages := [], [];
      title, description, kind, price := "", "", "", "";
      caseFacts, factTitle, factValue := map[], "", "";
      energyClass := Null;
    }

    /** The `img` handler of the photo gallery: an image with a `src` is recorded. */
    method OnPhoto(src: Field<string>, alt: Field<string>)
      modifies this
      ensures Snapshot() == Step(old(Snapshot()), PhotoImg(src, alt))
    {
      if Truthy(src) {
        images := images + [Media(src.v, alt)];
      }
    }

    /** The `img` handler of the floor plans. */
    method OnPlan(src: Field<string>, alt: Field<string>)
      modifies this
      ensures Snapshot() == Step(old(Snapshot()), PlanImg(src, alt))
    {
      if Truthy(src) {
        floorplanImages := floorplanImages + [Media(src.v, alt)];
      }
    }

    /** The text handler of a fact's value: the last chunk writes the fact. */
    method OnFactValue(t: string, last: bool)
      modifies this
      ensures Snapshot() == Step(old(Snapshot()), FactValueText(t, last))
    {
      factValue := factValue + t;
      if last {
        caseFacts := caseFacts[factTitle := factValue];
      }
    }

    /** The element handler of the energy label. */
    method OnRating(cls: Field<string>)
      modifies this
      ensures Snapshot() == Step(old(Snapshot()), Rating(cls))
    {
      if Truthy(cls) {
        energyClass := Val(ReplaceFirst(cls.v, RatingPrefix, ""));
      }
    }

    /** The callback registered for the event's selector. */
    method On(e: Event)
      modifies this
      ensures Snapshot() == Step(old(Snapshot()), e)
    {
      match e
      case PhotoImg(src, alt) => OnPhoto(src, alt);
      case PlanImg(src, alt) => OnPlan(src, alt);
      case TitleText(t) => title := title + t;
      case DescriptionText(t) => description := description + t;
      case DescriptionBreak => description := description + "<br>";
      case TypeText(t) => kind := kind + t;
      case PriceText(t) => price := price + t;
      case FactTitleStart => factTitle := "";
      case FactTitleText(t) => factTitle := factTitle + t;
      case FactValueStart => factValue := "";
      case FactValueText(t, last) => OnFactValue(t, last);
      case Rating(cls) => OnRating(cls);
    }

    /** `rewriter.transform(response)`: every event in document order. */
    method Transform(events: seq<Event>)
      modifies this
      ensures Snapshot() == Scan(old(Snapshot()), events)
    {
      for i := 0 to |events|
        invariant Snapshot() == Scan(old(Snapshot()), events[..i])
      {
        assert events[..i + 1][..i] == events[..i];
        On(events[i]);
      }
      assert events[..|events|] == events;
    }
  }

  // ---------------------------------------------------------------- field derivation

  /** `caseFacts?.[key] ?? null`. */
  function Fact(c: Captured, key: string): Option<string>
  {
    if key in c.caseFacts then Some(c.caseFacts[key]) else None
  }

  /** `Number(fact?.split(' ')[0].replace(/\D/g, '') ?? 0)`: the digits of the first
      space-separated token, 0 when the fact is absent. */
  function Area(fact: Option<string>): (n: NumVal)
    ensures fact.None? ==> n == Num(0)
    ensures fact.Some? ==> n == Num(DecimalValue(StripNonDigits(Split(fact.value, ' ')[0])))
  {
    NumberOfDigits(if fact.Some? then Split(fact.value, ' ')[0] else "");
    match fact
    case None => Num(0)
    case Some(v) => JsNumber(StripNonDigits(Split(v, ' ')[0]))
  }

  /** `parts.map(Number)`. */
  function Numbers(parts: seq<string>): (r: seq<NumVal>)
    ensures |r| == |parts| && forall k :: 0 <= k < |parts| ==> r[k] == JsNumber(parts[k])
  {
    seq(|parts|, k requires 0 <= k < |parts| => JsNumber(parts[k]))
  }

  /** `.reduce((acc, val) => acc + val, 0)`. */
  function Sum(vals: seq<NumVal>): NumVal
    decreases |vals|
  {
    if vals == [] then Num(0) else AddNum(Sum(vals[..|vals| - 1]), vals[|vals| - 1])
  }

  /** The sum is NaN exactly when some value is; otherwise it is not negative when no
      value is. */
  lemma {:induction false} SumNaN(vals: seq<NumVal>)
    ensures Sum(vals).NaN? <==> exists k :: 0 <= k < |vals| && vals[k].NaN?
    decreases |vals|
  {
    if vals != [] {
      var init := vals[..|vals| - 1];
      SumNaN(init);
      if Sum(init).NaN? {
        var k :| 0 <= k < |init| && init[k].NaN?;
        assert vals[k].NaN?;
      }
      if exists k :: 0 <= k < |vals| && vals[k].NaN? {
        var k :| 0 <= k < |vals| && vals[k].NaN?;
        if k < |init| {
          assert init[k].NaN?;
        }
      }
    }
  }

  /** The number of rooms: the sum of the '/'-separated parts of the rooms fact, 0 when
      it is absent. */
  function Rooms(fact: Option<string>): NumVal
  {
    match fact
    case None => Num(0)
    case Some(v) => Sum(Numbers(Split(v, '/')))
  }

  /** `Number(fact?.split('/')[1] ?? 0)`: the second part, 0 when there is none. */
  function Bedrooms(fact: Option<string>): NumVal
  {
    match fact
    case Some(v) => var parts := Split(v, '/'); if |parts| >= 2 then JsNumber(parts[1]) else Num(0)
    case None => Num(0)
  }

  /** `y ? Number(y) : null` of one part of the years fact. */
  function Year(part: Option<string>): (y: Field<NumVal>)
    ensures y.Null? <==> part.None? || part.value == ""
    ensures !y.Undefined?
  {
    if part.Some? && part.value != "" then Val(JsNumber(part.value)) else Null
  }

  /** `fact?.split('/')[0] ?? null` and `fact?.split('/')?.[1] ?? null`. */
  function YearPart(fact: Option<string>, k: nat): Option<string>
  {
    match fact
    case Some(v) => var parts := Split(v, '/'); if k < |parts| then Some(parts[k]) else None
    case None => None
  }

  /** The price: the value of the price text's digits, 0 when it has none. */
  function Price(price: string): (n: NumVal)
    ensures n == Num(DecimalValue(StripNonDigits(price)))
  {
    NumberOfDigits(price);
    JsNumber(StripNonDigits(price))
  }

  /** The record `scrapeListing` returns, as the processor reads it: every field defined
      except the status (the page yields none) and the basement area, the floor count and
      the bathroom count (it reads none of them). */
  function Result(c: Captured): (d: Detail)
    ensures d.status.Undefined?
  {
    var rooms := Fact(c, RoomsFact);
    var years := Fact(c, YearsFact);
    Detail(Val(c.title), Val(c.description), Val(c.kind), Undefined, Val(Price(c.price)),
           Val(Area(Fact(c, PlotAreaFact))), Val(Area(Fact(c, FloorAreaFact))), Undefined,
           c.energyClass, Val(Rooms(rooms)), Val(Bedrooms(rooms)), Undefined, Undefined,
           Year(YearPart(years, 0)), Year(YearPart(years, 1)), Val(c.images), Val(c.floorplanImages))
  }

  /** The price and both areas are never NaN; the rooms fact can still make the room or
      bedroom count NaN, and then the catalog cannot take the record. */
  lemma ResultNumbers(c: Captured)
    ensures Writable(Result(c).price) && Writable(Result(c).areaLand) && Writable(Result(c).areaFloor)
    ensures Result(c).areaFloor == Val(Num(0)) <== FloorAreaFact !in c.caseFacts
    ensures Result(c).rooms == Val(Num(0)) && Result(c).bedrooms == Val(Num(0)) <== RoomsFact !in c.caseFacts
  {
  }

  /** The sum of the parts' numbers is NaN exactly when some part is not a number. */
  lemma SumOfNumbersNaN(parts: seq<string>)
    ensures Sum(Numbers(parts)).NaN? <==> exists k :: 0 <= k < |parts| && JsNumber(parts[k]).NaN?
  {
    var vals := Numbers(parts);
    SumNaN(vals);
    if exists k :: 0 <= k < |parts| && JsNumber(parts[k]).NaN? {
      var k :| 0 <= k < |parts| && JsNumber(parts[k]).NaN?;
      assert vals[k].NaN?;
    }
  }

  /** The sum of two numbers. */
  lemma SumOfTwo(x: NumVal, y: NumVal)
    ensures Sum([x, y]) == AddNum(AddNum(Num(0), x), y)
  {
    assert [x, y][..1] == [x];
    assert [x][..0] == [];
    assert Sum([x]) == AddNum(Sum([]), x);
    assert Sum([x, y]) == AddNum(Sum([x]), y);
  }

  /** Two parts without the separator, joined by it, split back into the two. */
  lemma SplitTwo(x: string, y: string)
    requires '/' !in x && '/' !in y
    ensures Split(x + "/" + y, '/') == [x, y]
  {
    SplitAfterPart(x, '/', y);
    SplitNoSeparator(y, '/');
    assert x + "/" + y == x + ['/'] + y;
  }

  /** A digit string holds no '/'. */
  lemma DigitsHaveNoSlash(a: string)
    requires AllDigits(a)
    ensures '/' !in a
  {
    assert forall i :: 0 <= i < |a| ==> a[i] != '/';
  }

  /** The room and bedroom numbers of a fact of two parts. */
  lemma FactOfTwo(x: string, y: string)
    requires '/' !in x && '/' !in y
    ensures Rooms(Some(x + "/" + y)) == AddNum(AddNum(Num(0), JsNumber(x)), JsNumber(y))
    ensures Bedrooms(Some(x + "/" + y)) == JsNumber(y)
  {
    SplitTwo(x, y);
    assert Numbers([x, y]) == [JsNumber(x), JsNumber(y)];
    SumOfTwo(JsNumber(x), JsNumber(y));
  }

  /** A fact "a/b" of two digit strings, living rooms and other rooms, gives a + b rooms
      of which b are bedrooms. */
  lemma RoomsOfFact(a: string, b: string)
    requires AllDigits(a) && AllDigits(b)
    ensures Rooms(Some(a + "/" + b)) == Num(DecimalValue(a) + DecimalValue(b))
    ensures Bedrooms(Some(a + "/" + b)) == Num(DecimalValue(b))
  {
    DigitsHaveNoSlash(a);
    DigitsHaveNoSlash(b);
    FactOfTwo(a, b);
  }

  /** A fact "built/renovated" has both years; one without '/' has only the year built;
      no fact has neither. */
  lemma YearsOfFact(built: string, renovated: string)
    requires '/' !in built && '/' !in renovated
    ensures YearPart(Some(built + "/" + renovated), 0) == Some(built)
    ensures YearPart(Some(built + "/" + renovated), 1) == Some(renovated)
    ensures YearPart(Some(built), 0) == Some(built) && YearPart(Some(built), 1).None?
    ensures YearPart(None, 0).None? && YearPart(None, 1).None?
  {
    SplitTwo(built, renovated);
    SplitNoSeparator(built, '/');
  }

  /** `scrapeListing(url)`, with the page's parse events as input. */
  method ScrapeListing(events: seq<Event>) returns (d: Detail)
    ensures d == Result(Scan(Initial, events))
    ensures d.images == Val(Photos(events)) && d.floorplanImages == Val(Plans(events))
    ensures d.title == Val(Concat(TitleChunks(events)))
  {
    var rewriter := new Rewriter();
    rewriter.Transform(events);
    var captured := rewriter.Snapshot();
    ScanImages(Initial, events);
    ScanTitle(Initial, events);
    assert captured.images == Photos(events) && captured.floorplanImages == Plans(events);
    assert captured.title == Concat(TitleChunks(events));
    d := Result(captured);
  }
}
