/**
 * URL strings the scraper builds: listing links resolved against a site
 * origin, contact links joined onto an official website address, and the
 * choice of an official website among Google search-result links.
 */
module Urls {
  import opened Wrappers
  import opened Text
  import opened Selectors

  const BookingOrigin := "https://www.booking.com"
  const HotelsComOrigin := "https://www.hotels.com"
  const ExpediaOrigin := "https://www.expedia.com"

  /** `hotel_url = 'https://…' + hotel_url` when the link is non-empty and
      does not start with `http`. The href itself always ends the result. */
  function ResolveListingUrl(origin: string, href: string): (url: string)
    ensures url == "" <==> href == ""
    ensures url == href || url == origin + href
    ensures StartsWith(href, "http") ==> url == href
    ensures StartsWith(origin, "http") && url != "" ==> StartsWith(url, "http")
  {
    if href != "" && !StartsWith(href, "http") then origin + href else href
  }

  /** Resolving twice changes nothing, because a resolved link is either
      empty or starts with `http`. */
  lemma ResolveIdempotent(origin: string, href: string)
    requires StartsWith(origin, "http")
    ensures ResolveListingUrl(origin, ResolveListingUrl(origin, href)) == ResolveListingUrl(origin, href)
  {
    var url := ResolveListingUrl(origin, href);
    if url != "" {
      assert StartsWith(url, "http");
    }
  }

  /** The three listing origins start with `http`. */
  lemma OriginsAreAbsolute()
    ensures StartsWith(BookingOrigin, "http") && StartsWith(HotelsComOrigin, "http")
    ensures StartsWith(ExpediaOrigin, "http")
  {
    assert BookingOrigin[..4] == "http";
    assert HotelsComOrigin[..4] == "http";
    assert ExpediaOrigin[..4] == "http";
  }

  /** The contact-page address built from the website address `base` and the
      `href` of a contact link. */
  function ContactUrl(base: string, href: string): (url: string)
    ensures StartsWith(href, "http") ==> url == href
    ensures !StartsWith(href, "http") ==>
      url == RStripChar(base, '/') + "/" + (if StartsWith(href, "/") then href[1..] else href)
  {
    if StartsWith(href, "http") then href
    else if StartsWith(href, "/") then RStripChar(base, '/') + href
    else RStripChar(base, '/') + "/" + href
  }

  /** `url` is `site + "/" + path`, where `site` is `base` without its
      trailing slashes and `path` starts with a slash only when `href`
      began with `//`. */
  predicate SeamAt(url: string, base: string, href: string, site: string, path: string) {
    && url == site + "/" + path
    && |site| <= |base| && site == base[..|site|]
    && (forall i :: |site| <= i < |base| ==> base[i] == '/')
    && (site == [] || site[|site| - 1] != '/')
    && (path != [] && path[0] == '/' <==> |href| >= 2 && href[..2] == "//")
  }

  /** For a relative link the seam between site and path is exactly one
      slash, unless the link itself begins with `//`. */
  lemma ContactUrlSeam(base: string, href: string)
    requires !StartsWith(href, "http")
    ensures exists site, path :: SeamAt(ContactUrl(base, href), base, href, site, path)
  {
    RStripCharSpec(base, '/');
    var site := RStripChar(base, '/');
    var path := if StartsWith(href, "/") then href[1..] else href;
    assert ContactUrl(base, href) == site + "/" + path by {
      if StartsWith(href, "/") {
        assert href == "/" + href[1..];
      }
    }
    assert (path != [] && path[0] == '/') <==> (|href| >= 2 && href[..2] == "//") by {
      if StartsWith(href, "/") {
        if |href| >= 2 {
          assert href[..2] == [href[0], href[1]];
        }
      } else if |href| >= 2 {
        assert href[..2][0] == href[0];
      }
    }
    assert SeamAt(ContactUrl(base, href), base, href, site, path);
  }

  /** Trailing slashes on the website address do not change a relative
      contact address. */
  lemma {:induction false} ContactUrlIgnoresTrailingSlashes(base: string, slashes: string, href: string)
    requires forall i :: 0 <= i < |slashes| ==> slashes[i] == '/'
    ensures ContactUrl(base + slashes, href) == ContactUrl(base, href)
    decreases |slashes|
  {
    if slashes != [] {
      var shorter := slashes[..|slashes| - 1];
      assert (base + slashes)[..|base + slashes| - 1] == base + shorter;
      ContactUrlIgnoresTrailingSlashes(base, shorter, href);
    } else {
      assert base + slashes == base;
    }
  }

  /** A result link qualifies as the official website when it is absolute and
      not a Google address. */
  predicate IsOfficialLink(href: string) {
    StartsWith(href, "http") && !Contains(href, "google.com")
  }

  function QualifiesAsOfficial(): string -> bool {
    href => IsOfficialLink(href)
  }

  /** `links[k]` is the first qualifying link of `links`. */
  predicate FirstOfficialAt(links: seq<string>, k: nat) {
    k < |links| && IsOfficialLink(links[k]) && forall j :: 0 <= j < k ==> !IsOfficialLink(links[j])
  }

  /** The `href` values (with `""` for a missing one) of the headline links and
      of the organic result links of a Google results page. */
  datatype ResultLinks = ResultLinks(headline: seq<string>, organic: seq<string>)

  /** The first qualifying headline link, else the first qualifying organic
      link, else nothing; a page that could not be loaded gives nothing. */
  function OfficialWebsite(page: Option<ResultLinks>): (site: Option<string>)
    ensures site.Some? ==> IsOfficialLink(site.value)
    ensures site.Some? ==> page.Some? && (site.value in page.value.headline || site.value in page.value.organic)
    ensures site.None? <==>
      page.None? ||
      ((forall i :: 0 <= i < |page.value.headline| ==> !IsOfficialLink(page.value.headline[i])) &&
       (forall i :: 0 <= i < |page.value.organic| ==> !IsOfficialLink(page.value.organic[i])))
    ensures page.Some? && (exists i :: 0 <= i < |page.value.headline| && IsOfficialLink(page.value.headline[i])) ==>
      exists k: nat :: FirstOfficialAt(page.value.headline, k) && site == Some(page.value.headline[k])
    ensures (&& page.Some?
             && (forall i :: 0 <= i < |page.value.headline| ==> !IsOfficialLink(page.value.headline[i]))
             && (exists i :: 0 <= i < |page.value.organic| && IsOfficialLink(page.value.organic[i]))) ==>
      exists k: nat :: FirstOfficialAt(page.value.organic, k) && site == Some(page.value.organic[k])
  {
    if page.None? then None
    else
      var h := FirstAccepted(page.value.headline, QualifiesAsOfficial());
      if h < |page.value.headline| then
        assert FirstOfficialAt(page.value.headline, h);
        Some(page.value.headline[h])
      else
        var o := FirstAccepted(page.value.organic, QualifiesAsOfficial());
        if o < |page.value.organic| then
          assert FirstOfficialAt(page.value.organic, o);
          Some(page.value.organic[o])
        else None
  }

  /** Headline links take priority: any qualifying headline link hides every
      organic link. */
  lemma HeadlineFirst(headline: seq<string>, organic: seq<string>, organic2: seq<string>)
    requires exists i :: 0 <= i < |headline| && IsOfficialLink(headline[i])
    ensures OfficialWebsite(Some(ResultLinks(headline, organic))) ==
            OfficialWebsite(Some(ResultLinks(headline, organic2)))
    ensures OfficialWebsite(Some(ResultLinks(headline, organic))).value in headline
  {
    var h := FirstAccepted(headline, QualifiesAsOfficial());
    assert h < |headline|;
  }
}
