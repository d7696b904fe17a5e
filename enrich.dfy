/**
 * `get_hotel_details`: enrich a listing from its own page. The phone comes
 * from the first phone element present, the website from the first
 * acceptable link, and the Google knowledge panel is asked for a phone only
 * when none was found and the name, city and country are all known.
 * Also the contact-page phone lookup of `get_phone_from_official_site`.
 */
module Enrich {
  import opened Wrappers
  import opened Text
  import opened Selectors
  import opened Phone
  import opened Urls
  import opened Web

  const PhoneSelectors: seq<string> :=
    ["[data-testid=\"phone-number\"]", ".phone-number", ".hotel-phone", ".contact-phone"]

  const WebsiteSelectors: seq<string> :=
    ["[data-testid=\"website\"]", ".hotel-website", ".official-website", "a[href*=\"hotel\"]"]

  /** The prefixes of aggregator links that are never taken as a website. */
  const AggregatorPrefixes: seq<string> := ["http://booking.com", "http://hotels.com", "http://expedia.com"]

  predicate IsAggregatorLink(href: string) {
    exists i :: 0 <= i < |AggregatorPrefixes| && StartsWith(href, AggregatorPrefixes[i])
  }

  /** A website element is taken when it exists with a non-empty `href` that
      is not an aggregator link. */
  predicate WebsiteAccepted(page: Fragment, selector: string) {
    selector in page.href && page.href[selector] != "" && !IsAggregatorLink(page.href[selector])
  }

  function AcceptsWebsite(page: Fragment): string -> bool {
    selector => WebsiteAccepted(page, selector)
  }

  /** Python truthiness of an optional string: `None` and `''` are false. */
  predicate Truthy(s: Option<string>) {
    s.Some? && s.value != ""
  }

  /** The `details` dict: only `phone` and `website` are ever set. */
  type Details = map<string, Option<string>>

  /** `details.get(key)`. */
  function Lookup(d: Details, key: string): Option<string> {
    if key in d then d[key] else None
  }

  /** The details read from the page itself, before any fallback. */
  function PageDetails(page: Fragment): (d: Details)
    ensures forall key :: key in d ==> key == "phone" || key == "website"
  {
    var k := FirstAccepted(PhoneSelectors, ElementExists(page));
    var j := FirstAccepted(WebsiteSelectors, AcceptsWebsite(page));
    var phone: Details := if k < |PhoneSelectors| then map["phone" := ExtractPhone(page.text[PhoneSelectors[k]])] else map[];
    if j < |WebsiteSelectors| then phone["website" := Some(page.href[WebsiteSelectors[j]])] else phone
  }

  /** A phone is recorded exactly when some phone element is present, and a
      website exactly when some website element qualifies. */
  lemma PageDetailsKeys(page: Fragment)
    ensures "phone" in PageDetails(page) <==> exists k :: 0 <= k < |PhoneSelectors| && PhoneSelectors[k] in page.text
    ensures "website" in PageDetails(page) <==> exists k :: 0 <= k < |WebsiteSelectors| && WebsiteAccepted(page, WebsiteSelectors[k])
  {
    var k := FirstAccepted(PhoneSelectors, ElementExists(page));
    var j := FirstAccepted(WebsiteSelectors, AcceptsWebsite(page));
    if k < |PhoneSelectors| {
      assert PhoneSelectors[k] in page.text;
    }
    if j < |WebsiteSelectors| {
      assert WebsiteAccepted(page, WebsiteSelectors[j]);
    }
  }

  /** The fallback condition `not details.get('phone') and name and city and country`. */
  function NeedsPanel(d: Details, name: Option<string>, city: Option<string>, country: Option<string>): (needed: bool)
    ensures needed <==>
      ("phone" !in d || d["phone"] == None || d["phone"] == Some("")) &&
      name.Some? && name.value != "" && city.Some? && city.value != "" && country.Some? && country.value != ""
  {
    !Truthy(Lookup(d, "phone")) && Truthy(name) && Truthy(city) && Truthy(country)
  }

  /** What `get_hotel_details` returns: `{}` for an empty address or a page that
      could not be loaded; otherwise the page's details, with the phone
      replaced by a truthy knowledge-panel result when the fallback fires. */
  function HotelDetails(w: World, mode: Mode, url: string, name: Option<string>, city: Option<string>, country: Option<string>): (d: Details)
    ensures url == "" ==> d == map[]
    ensures url != "" && !Truthy(Page(w, mode, url)) ==> d == map[]
    ensures (&& url != "" && Truthy(Page(w, mode, url))
             && !NeedsPanel(PageDetails(w.hotelPage(Page(w, mode, url).value)), name, city, country)) ==>
      d == PageDetails(w.hotelPage(Page(w, mode, url).value))
    ensures forall key :: key in d ==> key == "phone" || key == "website"
  {
    if url == "" then map[]
    else
      var html := Page(w, mode, url);
      if !Truthy(html) then map[]
      else
        var d := PageDetails(w.hotelPage(html.value));
        if NeedsPanel(d, name, city, country) then
          var phone := Panel(w, mode, name.value, city.value, country.value);
          if Truthy(phone) then d["phone" := phone] else d
        else d
  }

  /** The phone is read from the first phone element present, and the search
      stops there even when that element holds no number. */
  lemma PhoneFromFirstPresent(page: Fragment, k: nat)
    requires k < |PhoneSelectors| && PhoneSelectors[k] in page.text
    requires forall j :: 0 <= j < k ==> PhoneSelectors[j] !in page.text
    ensures Lookup(PageDetails(page), "phone") == ExtractPhone(page.text[PhoneSelectors[k]])
  {
    assert FirstAccepted(PhoneSelectors, ElementExists(page)) == k;
  }

  /** A chosen website is a non-empty link that is not an aggregator link,
      taken from the first website element that qualifies; elements with a
      rejected link are passed over. */
  lemma WebsiteIsFirstAcceptable(page: Fragment)
    requires "website" in PageDetails(page)
    ensures var site := PageDetails(page)["website"];
      site.Some? && site.value != "" && !IsAggregatorLink(site.value) &&
      exists k :: 0 <= k < |WebsiteSelectors| && WebsiteAccepted(page, WebsiteSelectors[k]) &&
        site.value == page.href[WebsiteSelectors[k]] &&
        forall j :: 0 <= j < k ==> !WebsiteAccepted(page, WebsiteSelectors[j])
  {
    var j := FirstAccepted(WebsiteSelectors, AcceptsWebsite(page));
    assert j < |WebsiteSelectors|;
  }

  /** The website in the returned details is never an aggregator link. */
  lemma DetailsWebsiteNotAggregator(w: World, mode: Mode, url: string, name: Option<string>, city: Option<string>, country: Option<string>)
    requires "website" in HotelDetails(w, mode, url, name, city, country)
    ensures var site := HotelDetails(w, mode, url, name, city, country)["website"];
      site.Some? && site.value != "" && !IsAggregatorLink(site.value)
  {
    var html := Page(w, mode, url);
    WebsiteIsFirstAcceptable(w.hotelPage(html.value));
  }

  /** The aggregator check compares literal prefixes only, so the secure
      Booking.com address is accepted as an official website. */
  lemma SecureAggregatorLinkAccepted()
    ensures !IsAggregatorLink("https://www.booking.com/hotel/x.html")
  {
    var href := "https://www.booking.com/hotel/x.html";
    forall i | 0 <= i < |AggregatorPrefixes|
      ensures !StartsWith(href, AggregatorPrefixes[i])
    {
      assert AggregatorPrefixes[i][4] == ':' != href[4];
    }
  }

  /** The knowledge panel matters only when the fallback condition holds: two
      worlds that differ only in their panel give the same details otherwise. */
  lemma PanelOnlyWhenNeeded(w: World, mode: Mode, url: string, name: Option<string>, city: Option<string>, country: Option<string>,
                            panel: (string, string, string) -> Option<string>)
    requires var html := Page(w, mode, url);
      url != "" && Truthy(html) ==> !NeedsPanel(PageDetails(w.hotelPage(html.value)), name, city, country)
    ensures HotelDetails(w.(panel := panel), mode, url, name, city, country) == HotelDetails(w, mode, url, name, city, country)
  {
    var w' := w.(panel := panel);
    assert Page(w', mode, url) == Page(w, mode, url);
  }

  /** When the fallback fires, a truthy panel result becomes the phone, and a
      falsy one leaves the page's details unchanged. */
  lemma PanelOverwritesOnlyWithTruthy(w: World, mode: Mode, url: string, name: Option<string>, city: Option<string>, country: Option<string>)
    requires url != "" && Truthy(Page(w, mode, url))
    requires NeedsPanel(PageDetails(w.hotelPage(Page(w, mode, url).value)), name, city, country)
    ensures var d := HotelDetails(w, mode, url, name, city, country);
      var page := PageDetails(w.hotelPage(Page(w, mode, url).value));
      var phone := Panel(w, mode, name.value, city.value, country.value);
      (Truthy(phone) ==> Lookup(d, "phone") == phone && Lookup(d, "website") == Lookup(page, "website")) &&
      (!Truthy(phone) ==> d == page)
  {
  }

  /** An anchor of the official website: its stripped text and its `href`. */
  datatype Anchor = Anchor(text: string, href: string)

  /** The official website's page: its text and its anchors that carry an `href`. */
  datatype SitePage = SitePage(text: string, anchors: seq<Anchor>)

  /** A contact link whose page loads (to a non-empty source). */
  predicate ContactReachable(base: string, fetch: string -> Option<string>, a: Anchor) {
    Contains(Lower(a.text), "contact") && Truthy(fetch(ContactUrl(base, a.href)))
  }

  function Reachable(base: string, fetch: string -> Option<string>): Anchor -> bool {
    a => ContactReachable(base, fetch, a)
  }

  /** `get_phone_from_official_site`: the phone on the first contact page that
      loads; failing that, the phone in the site's own text; `None` when the
      site does not load. */
  function PhoneFromOfficialSite(base: string, site: Option<SitePage>, fetch: string -> Option<string>): (phone: Option<string>)
    ensures site.None? ==> phone.None?
    ensures site.Some? ==>
      (exists i :: 0 <= i < |site.value.anchors| && ContactReachable(base, fetch, site.value.anchors[i]) &&
         (forall j :: 0 <= j < i ==> !ContactReachable(base, fetch, site.value.anchors[j])) &&
         phone == ExtractPhone(fetch(ContactUrl(base, site.value.anchors[i].href)).value)) ||
      ((forall i :: 0 <= i < |site.value.anchors| ==> !ContactReachable(base, fetch, site.value.anchors[i])) &&
         phone == ExtractPhone(site.value.text))
  {
    if site.None? then None
    else
      var anchors := site.value.anchors;
      var k := FirstAccepted(anchors, Reachable(base, fetch));
      if k < |anchors| then
        assert ContactReachable(base, fetch, anchors[k]);
        ExtractPhone(fetch(ContactUrl(base, anchors[k].href)).value)
      else ExtractPhone(site.value.text)
  }
}
