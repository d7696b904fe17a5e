/**
 * The listing sources. For Booking.com, each result container is screened
 * (name, rating, price, link, rating filter) and, when it survives, enriched
 * with `get_hotel_details` and turned into an eleven-field record.
 *
 * `extract_price_amount` is called on every container that shows a price
 * (Booking.com) and on every named container (Hotels.com, Expedia), but the
 * scraper defines no such method: the call raises, the per-container handler
 * skips the container. Hotels.com and Expedia therefore never produce a
 * listing, and a Booking.com container produces one only without a price.
 */
module Sources {
  import opened Wrappers
  import opened Selectors
  import opened Listings
  import opened Rating
  import opened Urls
  import opened Web
  import opened Enrich

  const BookingContainers: seq<string> :=
    ["div[data-testid=\"property-card\"]", ".sr_item", "[data-testid=\"property-card\"]", ".sr_item_content"]
  const BookingNames: seq<string> :=
    ["[data-testid=\"title\"]", ".sr-hotel__name", "h3 a", ".fcab3ed991.a23c043802"]
  const BookingRatings: seq<string> :=
    ["[data-testid=\"review-score\"] div", ".bui-review-score__badge", ".review-score-badge"]
  const BookingPrices: seq<string> :=
    ["[data-testid=\"price-and-discounted-price\"]", ".bui-price-display__value", ".prco-valign-middle-helper"]
  const LinkSelector := "a[href]"
  const BookingLimit: nat := 20

  const HotelsComContainers: seq<string> :=
    ["section[data-stid=\"section-results\"] li", ".results-list li", "[data-testid=\"property-listing\"]"]
  const HotelsComName := "h3 a, .p-name a, [data-testid=\"property-name\"]"
  const ExpediaContainers := "[data-stid=\"section-results\"] li, .results-list li"
  const ExpediaName := "h3 a, .hotel-name a"
  const OtherLimit: nat := 15

  /** What happens to one result container. */
  datatype Screened =
    | NoName          // no name element, or an empty name: `continue`
    | ItemRaised      // an exception inside the per-container `try`
    | BelowMinRating  // dropped by the rating filter
    | Kept(name: string, rating: Option<real>, url: string)

  /** The text of the first name element present, even if it is empty. */
  function BookingName(f: Fragment): Option<string> {
    var k := FirstAccepted(BookingNames, ElementExists(f));
    if k < |BookingNames| then Some(f.text[BookingNames[k]]) else None
  }

  /** There is no name exactly when no name element is present; otherwise the
      name is the text of the first name element present. */
  lemma BookingNameFirstPresent(f: Fragment)
    ensures var name := BookingName(f);
      && (name.None? <==> forall k :: 0 <= k < |BookingNames| ==> BookingNames[k] !in f.text)
      && (name.Some? ==>
            exists k :: 0 <= k < |BookingNames| && BookingNames[k] in f.text && name.value == f.text[BookingNames[k]] &&
              forall j :: 0 <= j < k ==> BookingNames[j] !in f.text)
  {
    var k := FirstAccepted(BookingNames, ElementExists(f));
    if k < |BookingNames| {
      assert BookingNames[k] in f.text;
    }
  }

  /** A rating element counts only when its text holds a number. */
  predicate RatingReadable(f: Fragment, selector: string) {
    selector in f.text && RatingMatch(f.text[selector]).Some?
  }

  function HasRatingNumber(f: Fragment): string -> bool {
    selector => RatingReadable(f, selector)
  }

  /** The number of the first rating element whose text holds one. */
  function BookingRating(f: Fragment, toFloat: string -> real): Option<real> {
    var k := FirstAccepted(BookingRatings, HasRatingNumber(f));
    if k < |BookingRatings| then Some(toFloat(RatingMatch(f.text[BookingRatings[k]]).value)) else None
  }

  /** There is no rating exactly when no rating element holds a number;
      otherwise the rating is the number of the first one that does. */
  lemma BookingRatingFirstReadable(f: Fragment, toFloat: string -> real)
    ensures var rating := BookingRating(f, toFloat);
      && (rating.None? <==> forall k :: 0 <= k < |BookingRatings| ==> !RatingReadable(f, BookingRatings[k]))
      && (rating.Some? ==>
            exists k :: 0 <= k < |BookingRatings| && RatingReadable(f, BookingRatings[k]) &&
              rating.value == toFloat(RatingMatch(f.text[BookingRatings[k]]).value) &&
              forall j :: 0 <= j < k ==> !RatingReadable(f, BookingRatings[j]))
  {
    var k := FirstAccepted(BookingRatings, HasRatingNumber(f));
    if k < |BookingRatings| {
      assert RatingReadable(f, BookingRatings[k]);
    }
  }

  predicate ShowsPrice(f: Fragment) {
    FirstAccepted(BookingPrices, ElementExists(f)) < |BookingPrices|
  }

  /** The container's first link, made absolute against `origin`. */
  function ListingUrl(f: Fragment, origin: string): string {
    ResolveListingUrl(origin, if LinkSelector in f.href then f.href[LinkSelector] else "")
  }

  /** The screening of one Booking.com container, in the order of the source. */
  function ScreenBooking(f: Fragment, minRating: Option<real>, toFloat: string -> real): (s: Screened)
    ensures s.Kept? ==> s.name != "" && !RatingDropped(minRating, s.rating)
    ensures s.Kept? ==> !ShowsPrice(f) && s.url == ListingUrl(f, BookingOrigin)
  {
    var name := BookingName(f);
    if !Truthy(name) then NoName
    else
      var rating := BookingRating(f, toFloat);
      if ShowsPrice(f) then ItemRaised
      else
        var url := ListingUrl(f, BookingOrigin);
        if RatingDropped(minRating, rating) then BelowMinRating
        else Kept(name.value, rating, url)
  }

  /** Each outcome of the screening happens exactly under its condition, and a
      kept container carries its name, rating and absolute link. */
  lemma ScreenBookingOutcomes(f: Fragment, minRating: Option<real>, toFloat: string -> real)
    ensures var s := ScreenBooking(f, minRating, toFloat);
      && (s == NoName <==> !Truthy(BookingName(f)))
      && (s == ItemRaised <==> Truthy(BookingName(f)) && ShowsPrice(f))
      && (s == BelowMinRating <==>
            Truthy(BookingName(f)) && !ShowsPrice(f) && RatingDropped(minRating, BookingRating(f, toFloat)))
      && (s.Kept? <==>
            Truthy(BookingName(f)) && !ShowsPrice(f) && !RatingDropped(minRating, BookingRating(f, toFloat)))
      && (s.Kept? ==>
            s == Kept(BookingName(f).value, BookingRating(f, toFloat), ListingUrl(f, BookingOrigin)))
  {
  }

  /** The record appended to `hotels` for a kept Booking.com container. */
  function BookingHotel(name: string, rating: Option<real>, url: string, city: string, country: string, d: Details): Hotel {
    map["name" := Str(name), "rating" := OptNum(rating), "price" := Null, "price_amount" := Null,
        "url" := Str(url), "source" := Str("Booking.com"), "city" := Str(city), "country" := Str(country),
        "phone" := OptStr(Lookup(d, "phone")), "email" := OptStr(Lookup(d, "email")),
        "website" := OptStr(Lookup(d, "website"))]
  }

  /** A listing that reaches the output is named, tagged with its source, has
      no price and passed the rating filter. */
  predicate ValidBookingListing(h: Hotel, minRating: Option<real>) {
    && HasName(h) && h["name"].s != ""
    && "source" in h && h["source"] == Str("Booking.com")
    && "price" in h && h["price"] == Null
    && "rating" in h && (h["rating"] == Null || h["rating"].Num?)
    && !RatingDropped(minRating, if h["rating"].Num? then Some(h["rating"].x) else None)
  }

  lemma BookingHotelValid(name: string, rating: Option<real>, url: string, city: string, country: string, d: Details, minRating: Option<real>)
    requires name != "" && !RatingDropped(minRating, rating)
    ensures ValidBookingListing(BookingHotel(name, rating, url, city, country, d), minRating)
  {
    var h := BookingHotel(name, rating, url, city, country, d);
    assert h["name"] == Str(name) && h["source"] == Str("Booking.com") && h["price"] == Null;
    assert h["rating"] == OptNum(rating);
  }

  /** A Booking.com record has exactly the CSV columns as its keys, so no
      field is left out of the file and none is dropped from it. */
  lemma BookingHotelFields(name: string, rating: Option<real>, url: string, city: string, country: string, d: Details)
    ensures BookingHotel(name, rating, url, city, country, d).Keys == set f | f in FieldNames
  {
  }

  /** The CSV row of a Booking.com record: the listing's own name, place,
      rating, link and source, both price columns empty, and phone, email and
      website from the details (the email is never set, so it is always empty). */
  lemma BookingHotelRow(name: string, rating: Option<real>, url: string, city: string, country: string, d: Details)
    ensures var row := Row(BookingHotel(name, rating, url, city, country, d));
      && row[0] == Str(name) && row[1] == Str(city) && row[2] == Str(country)
      && row[3] == OptNum(rating) && row[4] == Null && row[5] == Null
      && row[6] == OptStr(Lookup(d, "phone")) && row[7] == OptStr(Lookup(d, "email"))
      && row[8] == OptStr(Lookup(d, "website")) && row[9] == Str(url) && row[10] == Str("Booking.com")
  {
  }

  /** The listings one container contributes: none, or its enriched record. */
  function BookingItem(w: World, mode: Mode, f: Fragment, city: string, country: string, minRating: Option<real>): (hotels: seq<Hotel>)
    ensures |hotels| == if ScreenBooking(f, minRating, w.toFloat).Kept? then 1 else 0
    ensures forall h :: h in hotels ==> ValidBookingListing(h, minRating)
  {
    match ScreenBooking(f, minRating, w.toFloat)
    case Kept(name, rating, url) =>
      var d := HotelDetails(w, mode, url, Some(name), Some(city), Some(country));
      BookingHotelValid(name, rating, url, city, country, d, minRating);
      [BookingHotel(name, rating, url, city, country, d)]
    case _ => []
  }

  /** The outcome of screening each container, in container order. */
  function Screenings(elements: seq<Fragment>, minRating: Option<real>, toFloat: string -> real): seq<Screened> {
    seq(|elements|, i requires 0 <= i < |elements| => ScreenBooking(elements[i], minRating, toFloat))
  }

  /** A kept container yields the record of its name, rating and link,
      enriched with the details of its own page. */
  lemma BookingItemRecord(w: World, mode: Mode, f: Fragment, city: string, country: string, minRating: Option<real>)
    requires ScreenBooking(f, minRating, w.toFloat).Kept?
    ensures var s := ScreenBooking(f, minRating, w.toFloat);
      BookingItem(w, mode, f, city, country, minRating) ==
        [BookingHotel(s.name, s.rating, s.url, city, country,
                      HotelDetails(w, mode, s.url, Some(s.name), Some(city), Some(country)))]
  {
  }

  /** The number of containers that survive screening. */
  function KeptCount(screened: seq<Screened>): (n: nat)
    ensures n <= |screened|
    ensures n == 0 <==> forall i :: 0 <= i < |screened| ==> !screened[i].Kept?
    ensures n == |screened| <==> forall i :: 0 <= i < |screened| ==> screened[i].Kept?
  {
    if screened == [] then 0
    else
      var k := |screened| - 1;
      KeptCount(screened[..k]) + (if screened[k].Kept? then 1 else 0)
  }

  /** The records of the containers, in container order. */
  function BookingRun(w: World, mode: Mode, elements: seq<Fragment>, city: string, country: string, minRating: Option<real>): (hotels: seq<Hotel>)
    ensures |hotels| == KeptCount(Screenings(elements, minRating, w.toFloat))
    ensures forall i :: 0 <= i < |hotels| ==> ValidBookingListing(hotels[i], minRating)
  {
    if elements == [] then []
    else
      var n := |elements| - 1;
      KeptCountSnoc(elements, minRating, w.toFloat);
      BookingRun(w, mode, elements[..n], city, country, minRating) + BookingItem(w, mode, elements[n], city, country, minRating)
  }

  /** One more container adds one to the count exactly when it is kept. */
  lemma KeptCountSnoc(elements: seq<Fragment>, minRating: Option<real>, toFloat: string -> real)
    requires elements != []
    ensures KeptCount(Screenings(elements, minRating, toFloat)) ==
      KeptCount(Screenings(elements[..|elements| - 1], minRating, toFloat)) +
      (if ScreenBooking(elements[|elements| - 1], minRating, toFloat).Kept? then 1 else 0)
  {
    var n := |elements| - 1;
    var screened := Screenings(elements, minRating, toFloat);
    assert screened[..n] == Screenings(elements[..n], minRating, toFloat);
  }

  /** The run is the concatenation of the containers' items. */
  lemma {:induction false} BookingRunIsConcat(w: World, mode: Mode, elements: seq<Fragment>, city: string, country: string, minRating: Option<real>)
    ensures BookingRun(w, mode, elements, city, country, minRating) ==
      Concat(elements, f => BookingItem(w, mode, f, city, country, minRating))
    decreases |elements|
  {
    if elements != [] {
      BookingRunIsConcat(w, mode, elements[..|elements| - 1], city, country, minRating);
    }
  }

  /** The run over consecutive containers is the run over the first ones
      followed by the run over the rest: the records come out in container
      order. */
  lemma BookingRunAppend(w: World, mode: Mode, a: seq<Fragment>, b: seq<Fragment>, city: string, country: string, minRating: Option<real>)
    ensures BookingRun(w, mode, a + b, city, country, minRating) ==
      BookingRun(w, mode, a, city, country, minRating) + BookingRun(w, mode, b, city, country, minRating)
  {
    BookingRunIsConcat(w, mode, a + b, city, country, minRating);
    BookingRunIsConcat(w, mode, a, city, country, minRating);
    BookingRunIsConcat(w, mode, b, city, country, minRating);
    ConcatAppend(a, b, f => BookingItem(w, mode, f, city, country, minRating));
  }

  /** A single container contributes exactly its own item. */
  lemma BookingRunSingle(w: World, mode: Mode, f: Fragment, city: string, country: string, minRating: Option<real>)
    ensures BookingRun(w, mode, [f], city, country, minRating) == BookingItem(w, mode, f, city, country, minRating)
  {
    assert [f][..0] == [];
  }

  /** `scrape_booking_com`: nothing when the results page does not load;
      otherwise the records of the first twenty containers of the first
      container selector that matches anything. */
  function BookingListings(w: World, mode: Mode, city: string, country: string, minRating: Option<real>): (hotels: seq<Hotel>)
    ensures |hotels| <= BookingLimit
    ensures forall i :: 0 <= i < |hotels| ==> ValidBookingListing(hotels[i], minRating)
    ensures !Truthy(Page(w, mode, w.searchUrl(BookingCom, city, country))) ==> hotels == []
    ensures var html := Page(w, mode, w.searchUrl(BookingCom, city, country));
      Truthy(html) ==>
        |hotels| == KeptCount(Screenings(Take(Committed(w.searchPage(html.value), BookingContainers), BookingLimit), minRating, w.toFloat))
  {
    var html := Page(w, mode, w.searchUrl(BookingCom, city, country));
    if !Truthy(html) then []
    else
      var elements := Take(Committed(w.searchPage(html.value), BookingContainers), BookingLimit);
      BookingRun(w, mode, elements, city, country, minRating)
  }

  /** When the results page loads, the listings are the records of the first
      twenty committed containers, one container after another in page order. */
  lemma BookingListingsAreItems(w: World, mode: Mode, city: string, country: string, minRating: Option<real>)
    requires Truthy(Page(w, mode, w.searchUrl(BookingCom, city, country)))
    ensures var html := Page(w, mode, w.searchUrl(BookingCom, city, country));
      BookingListings(w, mode, city, country, minRating) ==
        Concat(Take(Committed(w.searchPage(html.value), BookingContainers), BookingLimit),
               f => BookingItem(w, mode, f, city, country, minRating))
  {
    var html := Page(w, mode, w.searchUrl(BookingCom, city, country));
    BookingRunIsConcat(w, mode, Take(Committed(w.searchPage(html.value), BookingContainers), BookingLimit), city, country, minRating);
  }

  /** A Hotels.com or Expedia container: without a name element it is
      skipped; with one, the price lookup raises. */
  function ScreenOther(f: Fragment, nameSelector: string): (s: Screened)
    ensures !s.Kept?
  {
    if nameSelector !in f.text then NoName else ItemRaised
  }

  /** The containers Hotels.com or Expedia processes: the first fifteen of the
      first container selector that matches anything (Hotels.com) or of the
      one group selector (Expedia); none when the page does not load. */
  function OtherContainers(w: World, mode: Mode, source: Source, city: string, country: string): (elements: seq<Fragment>)
    requires source == HotelsCom || source == Expedia
    ensures |elements| <= OtherLimit
    ensures !Truthy(Page(w, mode, w.searchUrl(source, city, country))) ==> elements == []
    ensures var html := Page(w, mode, w.searchUrl(source, city, country));
      Truthy(html) ==>
        var page := w.searchPage(html.value);
        var all := if source == HotelsCom then Committed(page, HotelsComContainers) else SelectAll(page, ExpediaContainers);
        |elements| == (if |all| <= OtherLimit then |all| else OtherLimit) && elements == all[..|elements|]
  {
    var html := Page(w, mode, w.searchUrl(source, city, country));
    if !Truthy(html) then []
    else
      var page := w.searchPage(html.value);
      Take(if source == HotelsCom then Committed(page, HotelsComContainers) else SelectAll(page, ExpediaContainers), OtherLimit)
  }

  /** The number of containers whose price lookup raises (each reported as a
      parsing error): those with a name element. */
  function RaisedCount(elements: seq<Fragment>, nameSelector: string): (n: nat)
    ensures n <= |elements|
    ensures n == 0 <==> forall i :: 0 <= i < |elements| ==> ScreenOther(elements[i], nameSelector) == NoName
    ensures n == |elements| <==> forall i :: 0 <= i < |elements| ==> ScreenOther(elements[i], nameSelector) == ItemRaised
  {
    if elements == [] then 0
    else
      var k := |elements| - 1;
      RaisedCount(elements[..k], nameSelector) + (if ScreenOther(elements[k], nameSelector) == ItemRaised then 1 else 0)
  }

  /** The error count adds up over consecutive containers, and one container
      counts exactly when it has a name element. */
  lemma {:induction false} RaisedCountAppend(a: seq<Fragment>, b: seq<Fragment>, nameSelector: string)
    ensures RaisedCount(a + b, nameSelector) == RaisedCount(a, nameSelector) + RaisedCount(b, nameSelector)
    ensures |b| == 1 ==> RaisedCount(b, nameSelector) == (if nameSelector in b[0].text then 1 else 0)
    decreases |b|
  {
    if b == [] {
      assert a + b == a;
    } else {
      var n := |b| - 1;
      assert (a + b)[..|a + b| - 1] == a + b[..n];
      assert (a + b)[|a + b| - 1] == b[n];
      RaisedCountAppend(a, b[..n], nameSelector);
      if |b| == 1 {
        assert b[..n] == [];
      }
    }
  }

  /** The name element decides only how a container is skipped: an empty
      name does not stop the container from reaching the price lookup. */
  lemma OtherEmptyNameStillRaises(f: Fragment, nameSelector: string)
    requires nameSelector in f.text && f.text[nameSelector] == ""
    ensures ScreenOther(f, nameSelector) == ItemRaised
  {
  }

  /** The name commits to the first name element present: an empty text there
      drops the container even when a later name element has text. */
  lemma NameCommitsToFirstPresent(f: Fragment, minRating: Option<real>, toFloat: string -> real, k: nat)
    requires k < |BookingNames| && BookingNames[k] in f.text && f.text[BookingNames[k]] == ""
    requires forall j :: 0 <= j < k ==> BookingNames[j] !in f.text
    ensures ScreenBooking(f, minRating, toFloat) == NoName
  {
    assert FirstAccepted(BookingNames, ElementExists(f)) == k;
  }

  /** The rating falls through a rating element without a number to the next
      one that has a number. */
  lemma RatingSkipsUnreadable(f: Fragment, toFloat: string -> real, k: nat)
    requires k < |BookingRatings| && RatingReadable(f, BookingRatings[k])
    requires forall j :: 0 <= j < k ==> !RatingReadable(f, BookingRatings[j])
    ensures BookingRating(f, toFloat) == Some(toFloat(RatingMatch(f.text[BookingRatings[k]]).value))
  {
    assert FirstAccepted(BookingRatings, HasRatingNumber(f)) == k;
  }

  /** The rating filter runs before enrichment: a dropped container yields
      nothing whatever its hotel page, panel or fetch outcomes are. */
  lemma FilteredBeforeDetails(w: World, w': World, mode: Mode, mode': Mode, f: Fragment, city: string, country: string, minRating: Option<real>)
    requires w.toFloat == w'.toFloat
    requires !ScreenBooking(f, minRating, w.toFloat).Kept?
    ensures BookingItem(w, mode, f, city, country, minRating) == [] == BookingItem(w', mode', f, city, country, minRating)
  {
  }
}
