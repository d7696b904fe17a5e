/**
 * The world outside the program, and the fetching rules of the scraper:
 * the proxy pool built from the proxy-list table, the retry loop of
 * `get_page_requests`, and the choice between Selenium and plain requests.
 */
module Web {
  import opened Wrappers
  import opened Text
  import opened Selectors
  import opened Listings

  /** The listing sources, in the order `scrape_all_sources` may run them. */
  datatype Source = BookingCom | HotelsCom | Expedia | GoogleMaps

  /** A Google Maps result: the place's name and the phone read from its panel. */
  datatype Place = Place(name: string, contact: Option<string>)

  /** Everything the program reads from outside.
      - `requests(url, n)`: the body of the `n`-th `session.get(url)` attempt,
        `None` when it raises or `raise_for_status` rejects the response.
      - `selenium(url)`: the page source the driver returns, `None` on failure.
      - `hotelPage` and `searchPage`: what the HTML parser yields for a page.
      - `searchUrl(source, city, country)`: the results address the scraper
        builds (query encoding and today's dates).
      - `panel(name, city, country)`: the knowledge-panel phone lookup when a
        driver is running.
      - `googleMaps(city, country)`: one entry per result element the Google
        Maps search lists when a driver is running, in page order: the name and
        contact phone read from that listing, or `None` when browsing it raised;
        `None` for the whole search when it raises before listing anything.
      - `toFloat`: `float()` on a decimal literal. */
  datatype World = World(
    requests: (string, nat) -> Option<string>,
    selenium: string -> Option<string>,
    hotelPage: string -> Fragment,
    searchPage: string -> SearchPage,
    searchUrl: (Source, string, string) -> string,
    panel: (string, string, string) -> Option<string>,
    googleMaps: (string, string) -> Option<seq<Option<Place>>>,
    toFloat: string -> real)

  /** Whether pages are loaded through Selenium, and whether its driver started. */
  datatype Mode = Mode(useSelenium: bool, hasDriver: bool)

  /** `retries=5` in `get_page_requests`. */
  const DefaultRetries: nat := 5

  /** A table row of the proxy list, as the texts of its cells. */
  type ProxyRow = seq<string>

  /** `f"http://{ip}:{port}"` from the first two cells, each stripped. */
  function ProxyOf(row: ProxyRow): (proxy: string)
    requires |row| >= 2
    ensures StartsWith(proxy, "http://")
  {
    "http://" + Strip(row[0]) + ":" + Strip(row[1])
  }

  /** Whitespace around the address and port cells does not change the proxy. */
  lemma ProxyOfIgnoresPadding(row: ProxyRow, padded: ProxyRow, a: string, b: string, c: string, d: string)
    requires |row| >= 2 && |padded| >= 2
    requires AllSpace(a) && AllSpace(b) && AllSpace(c) && AllSpace(d)
    requires padded[0] == a + row[0] + b && padded[1] == c + row[1] + d
    ensures ProxyOf(padded) == ProxyOf(row)
  {
    StripIgnoresPadding(a, row[0], b);
    StripIgnoresPadding(c, row[1], d);
  }

  /** The HTTPS column (the seventh cell) says exactly `yes`. */
  predicate IsHttpsRow(row: ProxyRow)
    requires |row| > 6
  {
    row[6] == "yes"
  }

  predicate AllComplete(rows: seq<ProxyRow>) {
    forall i :: 0 <= i < |rows| ==> |rows[i]| > 6
  }

  /** The proxies of the HTTPS rows, in row order. */
  function ProxyRows(rows: seq<ProxyRow>): (pool: seq<string>)
    requires AllComplete(rows)
    ensures |pool| <= |rows|
    ensures forall p :: p in pool ==> StartsWith(p, "http://")
  {
    if rows == [] then []
    else
      var last := rows[|rows| - 1];
      ProxyRows(rows[..|rows| - 1]) + (if IsHttpsRow(last) then [ProxyOf(last)] else [])
  }

  /** `self.proxies` after `load_proxies`: the HTTPS proxies when the table
      was fetched and every row has a seventh cell; otherwise (the request
      failed, or a short row raised `IndexError`) an empty pool. */
  function ProxyPool(table: Option<seq<ProxyRow>>): (pool: seq<string>)
    ensures table.None? ==> pool == []
    ensures table.Some? && !AllComplete(table.value) ==> pool == []
    ensures table.Some? && AllComplete(table.value) ==> pool == ProxyRows(table.value)
  {
    if table.Some? && AllComplete(table.value) then ProxyRows(table.value) else []
  }

  /** A proxy is in the pool exactly when some HTTPS row produced it. */
  lemma {:induction false} ProxyRowsMembers(rows: seq<ProxyRow>, p: string)
    requires AllComplete(rows)
    ensures p in ProxyRows(rows) <==> exists i :: 0 <= i < |rows| && IsHttpsRow(rows[i]) && p == ProxyOf(rows[i])
  {
    if rows != [] {
      var init := rows[..|rows| - 1];
      ProxyRowsMembers(init, p);
      assert forall i :: 0 <= i < |init| ==> init[i] == rows[i];
    }
  }

  /** The number of failed attempts before the first success, or `retries`
      when every attempt fails. */
  function LeadingFailures(requests: (string, nat) -> Option<string>, url: string, retries: nat, from: nat): (k: nat)
    requires from <= retries
    ensures from <= k <= retries
    ensures forall i :: from <= i < k ==> requests(url, i).None?
    ensures k < retries ==> requests(url, k).Some?
    decreases retries - from
  {
    if from == retries || requests(url, from).Some? then from
    else LeadingFailures(requests, url, retries, from + 1)
  }

  /** What `get_page_requests(url, retries)` returns: the body of the first
      successful attempt, or `None` when all `retries` attempts fail. */
  function FirstSuccess(requests: (string, nat) -> Option<string>, url: string, retries: nat): (body: Option<string>)
    ensures body.None? <==> forall i :: 0 <= i < retries ==> requests(url, i).None?
    ensures body.Some? ==>
      exists i :: 0 <= i < retries && body == requests(url, i) &&
        forall j :: 0 <= j < i ==> requests(url, j).None?
  {
    var k := LeadingFailures(requests, url, retries, 0);
    if k < retries then requests(url, k) else None
  }

  /** Allowing more attempts never changes a result that was already found. */
  lemma MoreRetriesKeepSuccess(requests: (string, nat) -> Option<string>, url: string, retries: nat, extra: nat)
    requires FirstSuccess(requests, url, retries).Some?
    ensures FirstSuccess(requests, url, retries + extra) == FirstSuccess(requests, url, retries)
  {
    var k := LeadingFailures(requests, url, retries, 0);
    assert LeadingFailures(requests, url, retries + extra, 0) == k;
  }

  /** The page a fetch yields: Selenium when it is enabled (nothing without a
      driver), otherwise the retry loop with its default five attempts. */
  function Page(w: World, mode: Mode, url: string): (html: Option<string>)
    ensures mode.useSelenium && !mode.hasDriver ==> html.None?
    ensures mode.useSelenium && mode.hasDriver ==> html == w.selenium(url)
    ensures !mode.useSelenium ==> html == FirstSuccess(w.requests, url, DefaultRetries)
    ensures !mode.useSelenium ==> (html.None? <==> forall i :: 0 <= i < DefaultRetries ==> w.requests(url, i).None?)
  {
    if mode.useSelenium then (if mode.hasDriver then w.selenium(url) else None)
    else FirstSuccess(w.requests, url, DefaultRetries)
  }

  /** `get_contact_from_google_knowledge_panel`: without a driver the lookup
      raises inside its own handler and yields `None`. */
  function Panel(w: World, mode: Mode, name: string, city: string, country: string): (phone: Option<string>)
    ensures !mode.hasDriver ==> phone.None?
    ensures mode.hasDriver ==> phone == w.panel(name, city, country)
  {
    if mode.hasDriver then w.panel(name, city, country) else None
  }
}
