/**
 * `AdvancedHotelScraper`: the object that holds the proxy pool and the
 * Selenium settings, and whose methods fetch pages, enrich listings and run
 * the sources. Each method is proved against the specification function of
 * the module that models its logic.
 */
module HotelScraper {
  import opened Wrappers
  import opened Text
  import opened Selectors
  import opened Listings
  import opened Rating
  import opened Phone
  import opened Urls
  import opened Web
  import opened Enrich
  import opened Sources
  import opened Aggregator

  class AdvancedHotelScraper {
    /** `use_selenium and SELENIUM_AVAILABLE`. */
    const useSelenium: bool
    /** A WebDriver was started (only ever when Selenium is used). */
    const hasDriver: bool
    /** `self.proxies`, the pool `get_random_proxy` draws from. */
    var proxies: seq<string>

    function CurrentMode(): Mode {
      Mode(useSelenium, hasDriver)
    }

    /** `__init__`: settle the Selenium mode, load the proxy pool, and start a
        driver when Selenium is used. */
    constructor (useSelenium: bool, seleniumAvailable: bool, proxyTable: Option<seq<ProxyRow>>, driverStarts: bool)
      ensures this.useSelenium == (useSelenium && seleniumAvailable)
      ensures hasDriver == (this.useSelenium && driverStarts)
      ensures !this.useSelenium ==> !hasDriver
      ensures proxies == ProxyPool(proxyTable)
    {
      this.useSelenium := useSelenium && seleniumAvailable;
      hasDriver := useSelenium && seleniumAvailable && driverStarts;
      new;
      LoadProxies(proxyTable);
    }

    /** `load_proxies`: the rows of the proxy-list table (`None` when the
        request failed) become the pool; a row without a seventh cell raises
        and empties the whole pool. */
    method LoadProxies(table: Option<seq<ProxyRow>>)
      modifies this
      ensures proxies == ProxyPool(table)
    {
      if table.None? {
        proxies := [];
        return;
      }
      var rows := table.value;
      var pool: seq<string> := [];
      var i := 0;
      while i < |rows|
        invariant i <= |rows|
        invariant AllComplete(rows[..i])
        invariant pool == ProxyRows(rows[..i])
      {
        if |rows[i]| <= 6 {
          // `cols[6]` raises IndexError; the handler empties the pool.
          proxies := [];
          return;
        }
        assert rows[..i + 1][..i] == rows[..i];
        if IsHttpsRow(rows[i]) {
          pool := pool + [ProxyOf(rows[i])];
        }
        i := i + 1;
      }
      assert rows[..i] == rows;
      proxies := pool;
    }

    /** `get_random_proxy`: `None` for an empty pool, otherwise any member. */
    method GetRandomProxy() returns (proxy: Option<string>)
      ensures proxy.None? <==> proxies == []
      ensures proxy.Some? ==> proxy.value in proxies
    {
      if proxies == [] {
        return None;
      }
      assert proxies[0] in proxies;
      var p :| p in proxies;
      return Some(p);
    }

    /** `get_page_requests`: up to `retries` attempts, each through a freshly
        drawn proxy; the body of the first successful attempt, or `None`.
        `used` lists the proxies drawn, one per attempt made, and `delays`
        counts the `random_delay` calls, one per failed attempt. */
    method GetPageRequests(url: string, retries: nat, w: World) returns (html: Option<string>, used: seq<Option<string>>, delays: nat)
      ensures html == FirstSuccess(w.requests, url, retries)
      ensures delays == LeadingFailures(w.requests, url, retries, 0)
      ensures |used| == (if html.Some? then delays + 1 else delays) <= retries
      ensures forall i :: 0 <= i < |used| ==> (used[i].None? <==> proxies == []) && (used[i].Some? ==> used[i].value in proxies)
    {
      used := [];
      delays := 0;
      var attempt := 0;
      while attempt < retries
        invariant attempt <= retries
        invariant forall i :: 0 <= i < attempt ==> w.requests(url, i).None?
        invariant |used| == attempt && delays == attempt
        invariant forall i :: 0 <= i < |used| ==> (used[i].None? <==> proxies == []) && (used[i].Some? ==> used[i].value in proxies)
      {
        var proxy := GetRandomProxy();
        used := used + [proxy];
        var response := w.requests(url, attempt);
        if response.Some? {
          assert LeadingFailures(w.requests, url, retries, 0) == attempt;
          return response, used, delays;
        }
        delays := delays + 1;
        attempt := attempt + 1;
      }
      html := None;
    }

    /** `get_page_selenium(url) if self.use_selenium else get_page_requests(url)`. */
    method GetPage(url: string, w: World) returns (html: Option<string>)
      ensures html == Page(w, CurrentMode(), url)
    {
      if useSelenium {
        html := if hasDriver then w.selenium(url) else None;
      } else {
        var used, delays;
        html, used, delays := GetPageRequests(url, DefaultRetries, w);
      }
    }

    /** The phone and website loops of `get_hotel_details`. */
    method ReadPageDetails(page: Fragment) returns (details: Details)
      ensures details == PageDetails(page)
    {
      details := map[];
      var k := FindFirst(PhoneSelectors, ElementExists(page));
      if k < |PhoneSelectors| {
        var phone := ExtractPhoneNumber(page.text[PhoneSelectors[k]]);
        details := details["phone" := phone];
      }
      var j := FindFirst(WebsiteSelectors, AcceptsWebsite(page));
      if j < |WebsiteSelectors| {
        details := details["website" := Some(page.href[WebsiteSelectors[j]])];
      }
    }

    /** `get_hotel_details`, filling `details` step by step. */
    method GetHotelDetails(url: string, name: Option<string>, city: Option<string>, country: Option<string>, w: World)
      returns (details: Details)
      ensures details == HotelDetails(w, CurrentMode(), url, name, city, country)
    {
      if url == "" {
        return map[];
      }
      var html := GetPage(url, w);
      if !Truthy(html) {
        return map[];
      }
      details := ReadPageDetails(w.hotelPage(html.value));
      if NeedsPanel(details, name, city, country) {
        var phone := Panel(w, CurrentMode(), name.value, city.value, country.value);
        if Truthy(phone) {
          details := details["phone" := phone];
        }
      }
    }

    /** The name-selector loop of `scrape_booking_com`. */
    method ReadBookingName(element: Fragment) returns (name: Option<string>)
      ensures name == BookingName(element)
    {
      var n := FindFirst(BookingNames, ElementExists(element));
      name := if n < |BookingNames| then Some(element.text[BookingNames[n]]) else None;
    }

    /** The rating-selector loop of `scrape_booking_com`. */
    method ReadBookingRating(element: Fragment, w: World) returns (rating: Option<real>)
      ensures rating == BookingRating(element, w.toFloat)
    {
      var r := FindFirst(BookingRatings, HasRatingNumber(element));
      rating := if r < |BookingRatings| then Some(w.toFloat(RatingMatch(element.text[BookingRatings[r]]).value)) else None;
    }

    /** One Booking.com container: the screening steps in source order. */
    method ScreenBookingContainer(element: Fragment, minRating: Option<real>, w: World) returns (s: Screened)
      ensures s == ScreenBooking(element, minRating, w.toFloat)
    {
      var name := ReadBookingName(element);
      if !Truthy(name) {
        return NoName;
      }
      var rating := ReadBookingRating(element, w);
      var p := FindFirst(BookingPrices, ElementExists(element));
      if p < |BookingPrices| {
        // `self.extract_price_amount(price)` raises AttributeError.
        return ItemRaised;
      }
      var url := ListingUrl(element, BookingOrigin);
      if RatingDropped(minRating, rating) {
        return BelowMinRating;
      }
      return Kept(name.value, rating, url);
    }

    /** The body of the per-container `try` of `scrape_booking_com`. */
    method ScrapeBookingContainer(element: Fragment, city: string, country: string, minRating: Option<real>, w: World)
      returns (items: seq<Hotel>)
      ensures items == BookingItem(w, CurrentMode(), element, city, country, minRating)
    {
      var s := ScreenBookingContainer(element, minRating, w);
      if s.Kept? {
        var details := GetHotelDetails(s.url, Some(s.name), Some(city), Some(country), w);
        return [BookingHotel(s.name, s.rating, s.url, city, country, details)];
      }
      return [];
    }

    /** The `for element in elements[:20]` loop of `scrape_booking_com`. */
    method ScrapeBookingContainers(elements: seq<Fragment>, city: string, country: string, minRating: Option<real>, w: World)
      returns (hotels: seq<Hotel>)
      ensures hotels == BookingRun(w, CurrentMode(), elements, city, country, minRating)
    {
      ghost var mode := CurrentMode();
      ghost var item := (f: Fragment) => BookingItem(w, mode, f, city, country, minRating);
      hotels := [];
      var i := 0;
      assert elements[..0] == [];
      while i < |elements|
        invariant i <= |elements|
        invariant hotels == Concat(elements[..i], item)
      {
        var items := ScrapeBookingContainer(elements[i], city, country, minRating, w);
        PrefixSnoc(elements, i);
        ConcatSnoc(elements[..i], elements[i], item);
        hotels := hotels + items;
        i := i + 1;
      }
      assert elements[..i] == elements;
      BookingRunIsConcat(w, mode, elements, city, country, minRating);
    }

    /** `scrape_booking_com`. */
    method ScrapeBookingCom(city: string, country: string, minRating: Option<real>, w: World) returns (hotels: seq<Hotel>)
      ensures hotels == BookingListings(w, CurrentMode(), city, country, minRating)
    {
      var html := GetPage(w.searchUrl(BookingCom, city, country), w);
      if !Truthy(html) {
        return [];
      }
      var page := w.searchPage(html.value);
      var c := FindFirst(BookingContainers, NonEmptySelection(page));
      var elements := if c < |BookingContainers| then SelectAll(page, BookingContainers[c]) else [];
      elements := Take(elements, BookingLimit);
      hotels := ScrapeBookingContainers(elements, city, country, minRating, w);
    }

    /** `scrape_hotels_com` and `scrape_expedia`: every container is skipped,
        either for want of a name element or because its price lookup raises;
        `errors` counts the latter. */
    method ScrapeOther(source: Source, city: string, country: string, minRating: Option<real>, w: World)
      returns (hotels: seq<Hotel>, errors: nat)
      requires source == HotelsCom || source == Expedia
      ensures hotels == []
      ensures errors == RaisedCount(OtherContainers(w, CurrentMode(), source, city, country), if source == HotelsCom then HotelsComName else ExpediaName)
    {
      hotels := [];
      var nameSelector := if source == HotelsCom then HotelsComName else ExpediaName;
      var html := GetPage(w.searchUrl(source, city, country), w);
      if !Truthy(html) {
        return [], 0;
      }
      var page := w.searchPage(html.value);
      var elements: seq<Fragment>;
      if source == HotelsCom {
        var c := FindFirst(HotelsComContainers, NonEmptySelection(page));
        elements := if c < |HotelsComContainers| then SelectAll(page, HotelsComContainers[c]) else [];
      } else {
        elements := SelectAll(page, ExpediaContainers);
      }
      elements := Take(elements, OtherLimit);
      errors := CountRaised(elements, nameSelector);
    }

    /** The per-container loop of `scrape_hotels_com` and `scrape_expedia`:
        a container with a name element reaches the raising price lookup. */
    method CountRaised(elements: seq<Fragment>, nameSelector: string) returns (errors: nat)
      ensures errors == RaisedCount(elements, nameSelector)
    {
      errors := 0;
      var i := 0;
      while i < |elements|
        invariant i <= |elements|
        invariant errors == RaisedCount(elements[..i], nameSelector)
      {
        assert elements[..i + 1][..i] == elements[..i];
        if nameSelector in elements[i].text {
          errors := errors + 1;
        }
        i := i + 1;
      }
      assert elements[..i] == elements;
    }

    /** `scrape_google_maps_hotels`: browse the first ten result elements and
        record each listing whose browsing did not raise. */
    method ScrapeGoogleMaps(edition: Edition, city: string, country: string, w: World) returns (run: SourceRun)
      ensures run == GoogleMapsRun(w, CurrentMode(), edition, city, country)
    {
      if !hasDriver {
        return Raised;
      }
      var found := w.googleMaps(city, country);
      if found.None? {
        return Raised;
      }
      var listings := Take(found.value, MapsLimit);
      var hotels: seq<Hotel> := [];
      for i := 0 to |listings|
        invariant hotels == PlaceHotels(edition, PlacesRead(listings[..i]), city, country)
      {
        assert listings[..i + 1][..i] == listings[..i];
        match listings[i] {
          case Some(place) =>
            hotels := hotels + [PlaceHotel(edition, place, city, country)];
          case None =>
        }
      }
      assert listings[..|listings|] == listings;
      return Returned(hotels);
    }

    /** One call of the `methods` loop of `scrape_all_sources`. */
    method RunSource(edition: Edition, source: Source, city: string, country: string, minRating: Option<real>, w: World) returns (run: SourceRun)
      ensures run == Run(w, CurrentMode(), edition, source, city, country, minRating)
    {
      match source {
        case BookingCom =>
          var hotels := ScrapeBookingCom(city, country, minRating, w);
          run := Returned(hotels);
        case HotelsCom =>
          var hotels, errors := ScrapeOther(HotelsCom, city, country, minRating, w);
          run := Returned(hotels);
        case Expedia =>
          var hotels, errors := ScrapeOther(Expedia, city, country, minRating, w);
          run := Returned(hotels);
        case GoogleMaps =>
          run := ScrapeGoogleMaps(edition, city, country, w);
      }
    }

    /** `scrape_all_sources`: run the sources in order, extending the result
        with what each returns and skipping a source that raises. */
    method ScrapeAllSources(edition: Edition, city: string, country: string, minRating: Option<real>, w: World)
      returns (all: seq<Hotel>)
      ensures all == Gathered(w, CurrentMode(), edition, SourceList(edition), city, country, minRating)
    {
      ghost var item := Contributes(w, CurrentMode(), edition, city, country, minRating);
      var sources := SourceList(edition);
      all := [];
      var i := 0;
      assert sources[..0] == [];
      while i < |sources|
        invariant i <= |sources|
        invariant all == Concat(sources[..i], item)
      {
        var run := RunSource(edition, sources[i], city, country, minRating, w);
        PrefixSnoc(sources, i);
        ConcatSnoc(sources[..i], sources[i], item);
        if run.Returned? && run.hotels != [] {
          all := all + run.hotels;
        }
        i := i + 1;
      }
      assert sources[..i] == sources;
      GatheredIsConcat(w, CurrentMode(), edition, sources, city, country, minRating);
    }
  }
}
