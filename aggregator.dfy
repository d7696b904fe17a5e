/**
 * `scrape_all_sources`: run each source in a fixed order and concatenate
 * what they return; a source that raises contributes nothing and the later
 * sources still run. The live scraper runs Booking.com and Google Maps; the
 * older one also runs Hotels.com and Expedia, and files a Google Maps phone
 * under `phone` where the live one files it under `contact`.
 */
module Aggregator {
  import opened Wrappers
  import opened Listings
  import opened Web
  import opened Enrich
  import opened Selectors
  import opened Sources
  import Dedup

  /** The two editions of the scraper: the live one and the older one. */
  datatype Edition = Live | Legacy

  const LiveSources: seq<Source> := [BookingCom, GoogleMaps]
  const LegacySources: seq<Source> := [BookingCom, HotelsCom, Expedia, GoogleMaps]

  /** The `methods` list of `scrape_all_sources`. */
  function SourceList(edition: Edition): seq<Source> {
    if edition == Live then LiveSources else LegacySources
  }

  /** The key under which a Google Maps record holds the phone it read. */
  function PhoneKey(edition: Edition): string {
    if edition == Live then "contact" else "phone"
  }

  /** How one source call ends. */
  datatype SourceRun = Raised | Returned(hotels: seq<Hotel>)

  /** The record the Google Maps scraper builds for a place. */
  function PlaceHotel(edition: Edition, p: Place, city: string, country: string): (h: Hotel)
    ensures HasName(h) && h["name"].s == p.name
    ensures "source" in h && h["source"] == Str("Google Maps")
    ensures PhoneKey(edition) in h && h[PhoneKey(edition)] == OptStr(p.contact)
    ensures "rating" !in h && "price" !in h && "url" !in h
  {
    map["name" := Str(p.name), "city" := Str(city), "country" := Str(country),
        "source" := Str("Google Maps"), PhoneKey(edition) := OptStr(p.contact)]
  }

  /** The CSV row of a Google Maps record: the phone column is filled only by
      the older edition; the live edition's `contact` is not a column, so its
      phone never reaches the file. Rating, price and link are empty. */
  lemma PlaceHotelRow(edition: Edition, p: Place, city: string, country: string)
    ensures var row := Row(PlaceHotel(edition, p, city, country));
      && row[0] == Str(p.name) && row[1] == Str(city) && row[2] == Str(country)
      && row[3] == Str("") && row[4] == Str("") && row[9] == Str("") && row[10] == Str("Google Maps")
      && row[6] == (if edition == Legacy then OptStr(p.contact) else Str(""))
  {
  }

  function PlaceHotels(edition: Edition, places: seq<Place>, city: string, country: string): (hotels: seq<Hotel>)
    ensures |hotels| == |places|
    ensures forall i :: 0 <= i < |hotels| ==> hotels[i] == PlaceHotel(edition, places[i], city, country)
  {
    seq(|places|, i requires 0 <= i < |places| => PlaceHotel(edition, places[i], city, country))
  }

  /** `find_elements(...)[:10]`: at most ten result elements are browsed. */
  const MapsLimit: nat := 10

  /** The places read from the listings that did not raise, in listing order. */
  function PlacesRead(listings: seq<Option<Place>>): (places: seq<Place>)
    ensures |places| <= |listings|
    ensures |places| == |listings| <==> forall i :: 0 <= i < |listings| ==> listings[i].Some?
    ensures forall i :: 0 <= i < |places| ==> Some(places[i]) in listings
  {
    if listings == [] then []
    else
      var n := |listings| - 1;
      PlacesRead(listings[..n]) + (if listings[n].Some? then [listings[n].value] else [])
  }

  /** Reading consecutive listings is reading the first ones, then the rest:
      a listing that raised is skipped and not replaced. */
  lemma {:induction false} PlacesReadAppend(a: seq<Option<Place>>, b: seq<Option<Place>>)
    ensures PlacesRead(a + b) == PlacesRead(a) + PlacesRead(b)
    decreases |b|
  {
    if b == [] {
      assert a + b == a;
    } else {
      var n := |b| - 1;
      assert (a + b)[..|a + b| - 1] == a + b[..n];
      assert (a + b)[|a + b| - 1] == b[n];
      PlacesReadAppend(a, b[..n]);
    }
  }

  /** Google Maps needs the driver: without one its first call raises. The
      cap of ten falls on the result elements, before the listings whose
      browsing raised are skipped. */
  function GoogleMapsRun(w: World, mode: Mode, edition: Edition, city: string, country: string): (run: SourceRun)
    ensures run == Raised <==> !mode.hasDriver || w.googleMaps(city, country).None?
    ensures run.Returned? ==>
      var listings := w.googleMaps(city, country).value;
      var places := PlacesRead(Take(listings, MapsLimit));
      && |run.hotels| == |places| <= MapsLimit
      && (forall i :: 0 <= i < |run.hotels| ==> run.hotels[i] == PlaceHotel(edition, places[i], city, country))
    ensures run.Returned? ==> Dedup.AllNamed(run.hotels)
  {
    if !mode.hasDriver then Raised
    else match w.googleMaps(city, country)
      case None => Raised
      case Some(listings) => Returned(PlaceHotels(edition, PlacesRead(Take(listings, MapsLimit)), city, country))
  }

  /** A listing among the first ten that raises costs a record: no later
      element takes its place, so fewer than ten records come back. */
  lemma FailedListingNotReplaced(w: World, mode: Mode, edition: Edition, city: string, country: string, k: nat)
    requires mode.hasDriver && w.googleMaps(city, country).Some?
    requires k < MapsLimit && k < |w.googleMaps(city, country).value| && w.googleMaps(city, country).value[k].None?
    ensures GoogleMapsRun(w, mode, edition, city, country).Returned?
    ensures |GoogleMapsRun(w, mode, edition, city, country).hotels| < MapsLimit
  {
    var listings := Take(w.googleMaps(city, country).value, MapsLimit);
    assert listings[k].None?;
  }

  /** The outcome of calling one source. Booking.com, Hotels.com and Expedia
      catch their own errors and always return a list. */
  function Run(w: World, mode: Mode, edition: Edition, source: Source, city: string, country: string, minRating: Option<real>): (run: SourceRun)
    ensures run == Raised ==> source == GoogleMaps
    ensures source == HotelsCom || source == Expedia ==> run == Returned([])
  {
    match source
    case BookingCom => Returned(BookingListings(w, mode, city, country, minRating))
    case HotelsCom => Returned([])
    case Expedia => Returned([])
    case GoogleMaps => GoogleMapsRun(w, mode, edition, city, country)
  }

  /** What a run adds to `all_hotels`. */
  function Contribution(run: SourceRun): seq<Hotel> {
    if run.Returned? then run.hotels else []
  }

  /** The concatenation of the sources' contributions, in source order. */
  function Gathered(w: World, mode: Mode, edition: Edition, sources: seq<Source>, city: string, country: string, minRating: Option<real>): (hotels: seq<Hotel>)
    ensures Dedup.AllNamed(hotels)
  {
    if sources == [] then []
    else
      var n := |sources| - 1;
      ContributionNamed(w, mode, edition, sources[n], city, country, minRating);
      Gathered(w, mode, edition, sources[..n], city, country, minRating) + Contribution(Run(w, mode, edition, sources[n], city, country, minRating))
  }

  /** Every gathered listing comes from the contribution of one of the sources. */
  lemma {:induction false} GatheredFromSources(w: World, mode: Mode, edition: Edition, sources: seq<Source>, city: string, country: string, minRating: Option<real>, h: Hotel)
    requires h in Gathered(w, mode, edition, sources, city, country, minRating)
    ensures exists i :: 0 <= i < |sources| && h in Contribution(Run(w, mode, edition, sources[i], city, country, minRating))
  {
    var n := |sources| - 1;
    if h !in Contribution(Run(w, mode, edition, sources[n], city, country, minRating)) {
      GatheredFromSources(w, mode, edition, sources[..n], city, country, minRating, h);
      var i :| 0 <= i < n && h in Contribution(Run(w, mode, edition, sources[..n][i], city, country, minRating));
      assert sources[..n][i] == sources[i];
    }
  }

  /** What one source adds, as a function of the source. */
  function Contributes(w: World, mode: Mode, edition: Edition, city: string, country: string, minRating: Option<real>): Source -> seq<Hotel> {
    source => Contribution(Run(w, mode, edition, source, city, country, minRating))
  }

  /** Gathering concatenates the sources' contributions. */
  lemma {:induction false} GatheredIsConcat(w: World, mode: Mode, edition: Edition, sources: seq<Source>, city: string, country: string, minRating: Option<real>)
    ensures Gathered(w, mode, edition, sources, city, country, minRating) == Concat(sources, Contributes(w, mode, edition, city, country, minRating))
    decreases |sources|
  {
    if sources != [] {
      GatheredIsConcat(w, mode, edition, sources[..|sources| - 1], city, country, minRating);
    }
  }

  /** Gathering over two lists of sources is gathering over each in turn. */
  lemma GatheredAppend(w: World, mode: Mode, edition: Edition, a: seq<Source>, b: seq<Source>, city: string, country: string, minRating: Option<real>)
    ensures Gathered(w, mode, edition, a + b, city, country, minRating) ==
            Gathered(w, mode, edition, a, city, country, minRating) + Gathered(w, mode, edition, b, city, country, minRating)
  {
    GatheredIsConcat(w, mode, edition, a + b, city, country, minRating);
    GatheredIsConcat(w, mode, edition, a, city, country, minRating);
    GatheredIsConcat(w, mode, edition, b, city, country, minRating);
    ConcatAppend(a, b, Contributes(w, mode, edition, city, country, minRating));
  }

  /** A source that raises adds nothing, and the sources after it still run. */
  lemma RaisingSourceSkipped(w: World, mode: Mode, edition: Edition, before: seq<Source>, s: Source, after: seq<Source>, city: string, country: string, minRating: Option<real>)
    requires Run(w, mode, edition, s, city, country, minRating) == Raised
    ensures Gathered(w, mode, edition, before + [s] + after, city, country, minRating) ==
            Gathered(w, mode, edition, before, city, country, minRating) + Gathered(w, mode, edition, after, city, country, minRating)
  {
    var single := Gathered(w, mode, edition, [s], city, country, minRating);
    assert single == [] by {
      assert [s][..0] == [];
      assert Contribution(Run(w, mode, edition, s, city, country, minRating)) == [];
      assert single == Gathered(w, mode, edition, [], city, country, minRating) + [];
    }
    assert Gathered(w, mode, edition, before + [s], city, country, minRating) == Gathered(w, mode, edition, before, city, country, minRating) by {
      GatheredAppend(w, mode, edition, before, [s], city, country, minRating);
    }
    GatheredAppend(w, mode, edition, before + [s], after, city, country, minRating);
  }

  /** Only Booking.com and Google Maps add anything, in that order. */
  lemma ConcatContributions(edition: Edition, item: Source -> seq<Hotel>)
    requires item(HotelsCom) == [] && item(Expedia) == []
    ensures Concat(SourceList(edition), item) == item(BookingCom) + item(GoogleMaps)
  {
    if edition == Live {
      ConcatTwo(BookingCom, GoogleMaps, item);
    } else {
      ConcatFour(BookingCom, HotelsCom, Expedia, GoogleMaps, item);
    }
  }

  /** Gathered listings are in source order: in both editions the list is
      Booking.com's listings followed by whatever Google Maps returned, since
      the older edition's Hotels.com and Expedia calls add nothing. */
  lemma EditionOrder(w: World, mode: Mode, edition: Edition, city: string, country: string, minRating: Option<real>)
    ensures Gathered(w, mode, edition, SourceList(edition), city, country, minRating) ==
            BookingListings(w, mode, city, country, minRating) + Contribution(GoogleMapsRun(w, mode, edition, city, country))
  {
    var item := Contributes(w, mode, edition, city, country, minRating);
    assert item(HotelsCom) == [] && item(Expedia) == [];
    GatheredIsConcat(w, mode, edition, SourceList(edition), city, country, minRating);
    ConcatContributions(edition, item);
  }

  /** Every listing a source returns has a string name. */
  lemma ContributionNamed(w: World, mode: Mode, edition: Edition, source: Source, city: string, country: string, minRating: Option<real>)
    ensures Dedup.AllNamed(Contribution(Run(w, mode, edition, source, city, country, minRating)))
  {
    var c := Contribution(Run(w, mode, edition, source, city, country, minRating));
    match source
    case BookingCom =>
      var b := BookingListings(w, mode, city, country, minRating);
      assert c == b;
      assert forall i :: 0 <= i < |b| ==> ValidBookingListing(b[i], minRating);
    case GoogleMaps =>
    case HotelsCom =>
    case Expedia =>
  }
}
