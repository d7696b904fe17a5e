# Hotel scraper decision logic, in Dafny

This project models the core of `AdvancedHotelScraper`, a Python scraper. The scraper
collects hotel listings for a city from Booking.com, Hotels.com, Expedia and Google Maps.
It enriches each listing with a phone number and website from the hotel's own page, then
removes duplicate names and writes a CSV file. The two scraper files, `scraper.py` and
`scraper_final.py`, share almost all of their code. The model states the shared logic once.
The two files differ in three places that reach the model. The model makes the first two a
parameter, `Aggregator.Edition` (`Live` for `scraper_final.py`, `Legacy` for `scraper.py`):

- The sources the aggregator runs (`Aggregator.SourceList`): Booking.com and Google Maps
  in `scraper_final.py`; Booking.com, Hotels.com, Expedia and Google Maps in `scraper.py`.
- The key of the phone in a Google Maps record (`Aggregator.PhoneKey`): `scraper.py` files
  it under `phone`, which is a CSV column. `scraper_final.py` files it under `contact`, which
  the CSV drops (`Aggregator.PlaceHotelRow`).
- How the Google Maps scraper reads a place's phone, and what query the knowledge-panel
  lookup sends. Both are inputs of the model, so this difference does not show in it.

The files also differ in ways that lie outside the model:

- `scraper_final.py:111-115` adds four Chrome options in `setup_selenium`. They are
  `--enable-unsafe-webgpu`, `--enable-unsafe-swiftshader`, `--use-gl=swiftshader` and
  `--ignore-gpu-blocklist`.
- The knowledge-panel lookup waits `random.uniform(3, 6)` seconds in `scraper.py:723`.
  It waits `random.uniform(2, 4)` seconds in `scraper_final.py:421`.
- `scraper_final.py:413-430` prints debug output in the knowledge-panel lookup. It also
  loops over `Io6YTe` elements into a variable that the function never returns.
- The Booking.com fallback message (`scraper.py:252`, `scraper_final.py:222`) is printed
  with a different character encoding.

Everything the scraper reads from outside is an input of the model, not something it computes:
network responses, Selenium, the HTML parser, dates and URL encoding, the Google knowledge
panel, and the Google Maps scraper. These inputs are bundled in `Web.World`.

- A parsed page is a `Selectors.Fragment`. For each CSS selector it gives what
  `select_one(selector)` yields: the element's text, and its `href` when it has one. The
  texts of a result container are those of `get_text(strip=True)`, so a name element that
  holds only whitespace gives the name `''`, which is falsy and skips the container. The
  texts of a hotel page are those of `get_text()`, unstripped.
- A results page is a `Selectors.SearchPage`, which gives what `select(selector)` yields.

Three of the regular expressions are modelled concretely:

- the rating pattern `\d+\.?\d*`, as a leftmost, greedy match;
- the four phone patterns;
- the character tests behind `lower()` and `strip()`, over ASCII.

Modules, in dependency order:

- `Wrappers` and `Text`: `Option`, plus ASCII `lower()`, `strip()` and `rstrip(c)` with
  their characterising lemmas.
- `Listings`: the listing dict, and the CSV projection of `save_to_csv`.
- `Dedup`: `remove_duplicates`.
- `Selectors`: the "first selector that is accepted" idiom that every fallback loop uses.
- `Rating`: the rating match and the minimum-rating filter.
- `Phone`: `extract_phone_number`.
- `Urls`: listing-link resolution, the contact-URL join, and the official-website link choice.
- `Web`: the outside world, the proxy pool, the retry loop and page fetching.
- `Enrich`: `get_hotel_details` and `get_phone_from_official_site`.
- `Sources`: screening of containers for each source.
- `Aggregator`: `scrape_all_sources`.
- `HotelScraper`: the class itself. Its methods are loops and state updates, each proved
  equal to the specification function of the module above that models it.

Behaviour of the code as written that the model keeps, and that the lemmas make visible:

- **No price parsing.** `extract_price_amount` is not defined (`scraper.py` keeps it only as
  commented-out code), so every call to it raises. The per-container handler then skips the container.
  - A Booking.com container that shows a price never becomes a listing.
  - Hotels.com and Expedia never produce a listing at all. The lemma
    `Aggregator.EditionOrder` shows that both editions gather the Booking.com listings
    followed by the Google Maps records. What they gather still differs in those records
    (the phone key above, and the phone each edition reads).
- **Zero ratings pass the filter.** The rating filter uses Python truthiness, so a rating
  of `0.0` is never dropped, and a minimum of `0.0` disables the filter. The intended rule
  is that no listing is rated below the minimum. That rule holds only for non-zero ratings
  (`Rating.RatingDropped`).
- **Secure aggregator links pass.** The website filter rejects only links that literally
  start with `http://booking.com`, `http://hotels.com` or `http://expedia.com`. A link to
  `https://www.booking.com/...` is accepted as a hotel's website
  (`Enrich.SecureAggregatorLinkAccepted`). The intended behaviour is to exclude every link
  back to an aggregator site. The model follows the code.
- **Only the first phone pattern matters.** The first phone pattern,
  `\+?[\d\s\-\(\)]{10,20}`, matches wherever any of the other three would
  (`Phone.OnlyInternationalDecides`). Ten blanks are a match that strips to the empty
  string (`Phone.BlankRunGivesEmptyPhone`), and an empty phone then triggers the
  knowledge-panel fallback.

## Model
| member | source | states |
|---|---|---|
| Text.LStripSpec | scraper_final.py:476 | `lstrip()` removes exactly the longest whitespace prefix; what remains is empty or starts with a non-space |
| Text.RStripSpec | scraper_final.py:476 | `rstrip()` removes exactly the longest whitespace suffix |
| Text.StripIsTrim | scraper_final.py:476 | `strip()` keeps a middle slice with only whitespace removed around it and no whitespace at either end |
| Text.RStripCharSpec | scraper_final.py:559-561 | `rstrip('/')` removes exactly the trailing run of `/` and leaves no `/` at the end |
| Text.LowerAppend | scraper_final.py:476 | `lower()` distributes over concatenation |
| Text.LowerOfSpace | scraper_final.py:476 | `lower()` leaves whitespace unchanged |
| Text.LStripSpacePrefix | scraper_final.py:476 | leading whitespace added to a string does not change its `lstrip()` |
| Text.RStripSpaceSuffix | scraper_final.py:476 | trailing whitespace added to a string does not change its `rstrip()` |
| Text.LStripAppend | scraper_final.py:476 | `lstrip()` of a concatenation, split on whether the first part is all whitespace |
| Text.StripLowerIgnoresPadding | scraper_final.py:476 | `s.lower().strip()` ignores whitespace padding around `s` |
| Text.StripIgnoresPadding | scraper_final.py:75-76 | `strip()` ignores whitespace padding around a string |
| Text.LowerHasNoUpper | scraper_final.py:476 | `lower()` leaves no upper-case letter |
| Text.StripKeepsNoUpper | scraper_final.py:476 | `strip()` of a string without upper-case letters has none either |
| Text.StripLowerIsNormal | scraper_final.py:476 | `s.lower().strip()` has no upper-case letter and no whitespace at either end |
| Listings.FieldNamesDistinct | scraper_final.py:491-494 | the eleven CSV field names are pairwise distinct |
| Listings.Row | scraper_final.py:502 | a row has exactly one value per field name |
| Listings.ReadRow | scraper_final.py:498-503 | reading a row against the header gives each field its column's value, and no other key |
| Listings.RowRoundTrip | scraper_final.py:500-503 | a written row read back holds each of the eleven fields, with the hotel's value or `''` when the hotel lacks that key |
| Listings.ReadRowRoundTrip | scraper_final.py:498-503 | a row read back and written again is the same row |
| Listings.RowIgnoresExtraKeys | scraper_final.py:502 | a key outside the header, such as Google Maps' `contact`, does not change the row |
| Listings.SaveToCsv | scraper_final.py:484-505 | nothing is written for an empty list; otherwise the header is the eleven fields in order, followed by one row per hotel in list order |
| Dedup.KeysOf | scraper_final.py:473-479 | the set of keys is exactly the keys of the hotels in the list |
| Dedup.NameKey | scraper_final.py:476 | the dedup key of a named hotel has no upper-case letter and no whitespace at either end |
| Dedup.Unique | scraper_final.py:470-482 | the deduplicated list is no longer than the input and contains only input hotels |
| Dedup.RemoveDuplicates | scraper_final.py:470-482 | the `seen_names` loop returns exactly `Unique` under the key `name.lower().strip()` |
| Dedup.UniqueIsFirstOccurrences | scraper.py:766-778 | the output is the input at strictly increasing positions, and keeps a hotel iff it is the first with its key |
| Dedup.UniqueKeysDistinct | scraper.py:766-778 | no two kept hotels share a key |
| Dedup.UniqueCoversKeys | scraper.py:766-778 | every input key is represented in the output, and no other key |
| Dedup.UniqueOfDistinct | scraper.py:766-778 | a list whose keys are already distinct is returned unchanged |
| Dedup.UniqueIdempotent | scraper.py:766-778 | deduplicating twice equals deduplicating once |
| Dedup.KeyIgnoresCaseAndPadding | scraper.py:772 | a name equal to another up to ASCII case, with whitespace padding around it, gets the same key, so the two collide |
| Dedup.GrandNamesCollide | scraper.py:772 | `"The Grand"` and `" the grand "` get the same key |
| Dedup.FirstSeenOrderExample | scraper.py:766-778 | with `a` and `b` sharing a key, `[a, b, c]` deduplicates to `[a, c]` |
| Selectors.FirstAccepted | scraper_final.py:285-289 | the position found is the first accepted candidate; every earlier one is rejected |
| Selectors.FindFirst | scraper_final.py:269-272 | the `for … break` loop stops exactly at `FirstAccepted` |
| Selectors.Take | scraper_final.py:274 | `elements[:n]` is the prefix of length `min(len, n)`: the whole list when it is shorter, exactly `n` elements otherwise |
| Selectors.Committed | scraper_final.py:262-272 | the containers are the result of the first selector that matches anything, and empty iff no selector matches |
| Selectors.CommittedIgnoresPriority | scraper.py:299-302 | which selector matched does not change the containers selected |
| Rating.RatingMatch | scraper_final.py:306 | `re.search(r'(\d+\.?\d*)')` finds nothing iff the text has no digit; otherwise the match is a decimal literal that is leftmost and greedy in the text |
| Rating.RatingDropped | scraper_final.py:334 | a container is dropped only when both values are present and non-zero and rating < min; `None` or `0.0` on either side never drops; a kept non-zero rating is ≥ a non-zero minimum |
| Phone.MatchFrom | scraper_final.py:164-169 | a match that starts at a position ends after it and within the text; what each pattern matches is stated by the four `…Meaning` lemmas |
| Phone.InternationalMeaning | scraper_final.py:165 | `\+?[\d\s\-\(\)]{10,20}` matches at a position iff ten phone characters follow the optional `+`; the match is the longest run of them, cut at twenty |
| Phone.UsParenthesizedMeaning | scraper_final.py:166 | `\(\d{3}\)\s?\d{3}-\d{4}` matches at a position iff the text there reads `(ddd)ddd-dddd` with or without one whitespace after `)` |
| Phone.UsHyphenatedMeaning | scraper_final.py:167 | `\d{3}-\d{3}-\d{4}` matches at a position iff the twelve characters there have that shape, and the match is those twelve |
| Phone.DigitRunMeaning | scraper_final.py:168 | `\d{10,}` matches at a position iff ten digits follow; the match is the whole digit run |
| Phone.Search | scraper_final.py:172 | `re.search` returns the leftmost start at which the pattern matches, or none when it matches nowhere |
| Phone.ExtractPhone | scraper_final.py:158-175 | `None` iff the text is empty or no pattern matches anywhere |
| Phone.ExtractPhoneNumber | scraper_final.py:171-175 | the loop over the patterns returns `ExtractPhone` |
| Phone.LaterMatchIsInternational | scraper_final.py:164-169 | wherever a US or digit-run pattern matches, the international pattern matches too |
| Phone.OnlyInternationalDecides | scraper.py:152-169 | the result is always the stripped leftmost match of the international pattern |
| Phone.ExtractedIsTrimmed | scraper_final.py:174 | the extracted number has no whitespace at either end and occurs in the text |
| Phone.BlankRunGivesEmptyPhone | scraper_final.py:164-174 | ten blanks yield the empty phone `''` rather than `None` |
| Urls.ResolveListingUrl | scraper_final.py:329-331 | `''` stays `''`; an `http` link is unchanged; otherwise the origin is prefixed; the href always ends the result, and a non-empty result starts with `http` |
| Urls.ResolveIdempotent | scraper.py:358-361 | resolving a resolved link changes nothing |
| Urls.OriginsAreAbsolute | scraper.py:444-447 | the three site origins start with `http`, so every resolved link is absolute |
| Urls.ContactUrl | scraper_final.py:555-561 | an `http` link is unchanged; a relative link is the base without trailing slashes, one `/`, and the link without its leading `/` |
| Urls.ContactUrlSeam | scraper_final.py:558-561 | the seam between site and path is exactly one `/` unless the link starts with `//` |
| Urls.ContactUrlIgnoresTrailingSlashes | scraper_final.py:559-561 | trailing slashes on the website address do not change the contact URL |
| Urls.OfficialWebsite | scraper_final.py:520-542 | none iff the page is missing or no link qualifies; when a headline link qualifies the result is the first qualifying headline link, otherwise the first qualifying organic link; a qualifying link is `http…` without `google.com` |
| Urls.HeadlineFirst | scraper_final.py:530-539 | a qualifying headline link wins regardless of the organic results |
| Web.ProxyRows | scraper_final.py:72-77 | the pool has at most one proxy per row, and every proxy starts with `http://` |
| Web.ProxyOf | scraper_final.py:75-77 | a row's proxy is `http://` followed by its stripped address, `:` and its stripped port |
| Web.ProxyOfIgnoresPadding | scraper_final.py:75-76 | whitespace around the address and port cells does not change the proxy |
| Web.ProxyPool | scraper_final.py:64-83 | a failed request or any row without a seventh cell leaves the pool empty; otherwise the pool is `ProxyRows` of the table |
| Web.ProxyRowsMembers | scraper_final.py:72-77 | a proxy is pooled iff some row with `yes` in its seventh cell yields it as `http://ip:port` |
| Web.LeadingFailures | scraper_final.py:130-140 | counts the failed attempts before the first success, capped at `retries` |
| Web.FirstSuccess | scraper_final.py:128-141 | `None` iff all `retries` attempts fail; otherwise the body of the first successful attempt |
| Web.MoreRetriesKeepSuccess | scraper.py:122-135 | allowing more attempts never changes a result that was already found |
| Web.Page | scraper_final.py:183 | with Selenium the fetch is the driver's page, or nothing without a driver; without Selenium it is `FirstSuccess` of five attempts, nothing iff all five fail |
| Web.Panel | scraper_final.py:412-442 | without a driver the knowledge-panel lookup yields `None`; with one it is the lookup's answer |
| Enrich.PageDetails | scraper_final.py:190-218 | only `phone` and `website` are ever set (which ones: `PageDetailsKeys`; their values: `PhoneFromFirstPresent`, `WebsiteIsFirstAcceptable`) |
| Enrich.PageDetailsKeys | scraper_final.py:198-218 | `phone` is set iff some phone element is present; `website` iff some website element qualifies |
| Enrich.HotelDetails | scraper_final.py:177-231 | `{}` for an empty URL or a page that does not load; when the fallback does not fire, exactly the page's own details; only `phone` and `website` are ever set |
| Enrich.NeedsPanel | scraper_final.py:221 | the fallback fires iff the phone is missing, `None` or `''`, and name, city and country are all non-empty |
| Enrich.PhoneFromFirstPresent | scraper_final.py:198-202 | the phone comes from the first phone element present, even when it holds no number |
| Enrich.WebsiteIsFirstAcceptable | scraper_final.py:212-218 | the website is the first non-empty, non-aggregator link; rejected links fall through to the next selector |
| Enrich.DetailsWebsiteNotAggregator | scraper_final.py:216 | a website in the returned details is non-empty and never starts with an aggregator prefix |
| Enrich.SecureAggregatorLinkAccepted | scraper_final.py:216 | `https://www.booking.com/...` passes the aggregator check |
| Enrich.PanelOnlyWhenNeeded | scraper_final.py:221 | when the fallback condition fails, the knowledge panel cannot affect the details |
| Enrich.PanelOverwritesOnlyWithTruthy | scraper_final.py:221-225 | when the fallback fires, a truthy panel phone replaces the phone and keeps the website; a falsy one changes nothing |
| Enrich.PhoneFromOfficialSite | scraper_final.py:545-571 | nothing without a site; otherwise the phone of the first contact link whose page loads, with every earlier contact link unreachable, or, when none loads, the phone in the site's own text |
| Sources.BookingNameFirstPresent | scraper_final.py:284-289 | no name iff no name element is present; otherwise the text of the first name element present |
| Sources.BookingRatingFirstReadable | scraper_final.py:301-309 | no rating iff no rating element holds a number; otherwise the number of the first one that does |
| Sources.ScreenBooking | scraper_final.py:276-335 | a kept container has a non-empty name, passed the rating filter, shows no price, and has its link resolved against Booking.com (every outcome and its condition: `ScreenBookingOutcomes`) |
| Sources.ScreenBookingOutcomes | scraper_final.py:284-335 | no name, a raising price lookup, the rating filter and keeping each happen exactly under their conditions, in that order; a kept container carries its name, rating and resolved link |
| Sources.BookingHotelFields | scraper_final.py:340-352 | a Booking.com record has exactly the eleven CSV fields as keys |
| Sources.BookingHotelRow | scraper_final.py:340-352 | its CSV row holds the listing's name, city, country, rating, link and `Booking.com`, empty price columns, and phone, email and website from the details |
| Sources.BookingItem | scraper_final.py:274-358 | a container yields exactly one listing when it is kept and none otherwise; that listing is valid (the record itself: `BookingItemRecord`) |
| Sources.BookingItemRecord | scraper_final.py:337-354 | a kept container yields the record of its name, rating, link, city and country, with the details of its own page looked up under that name, city and country |
| Sources.BookingRun | scraper_final.py:274-358 | exactly one listing per kept container; each is named, tagged `Booking.com`, priceless, and not dropped by the filter |
| Sources.KeptCount | scraper_final.py:274-358 | the number of kept containers: zero iff none is kept, all iff every one is |
| Sources.BookingRunIsConcat | scraper_final.py:274-354 | the run is the containers' items concatenated in container order |
| Sources.BookingRunAppend | scraper_final.py:274-354 | the run over `a + b` is the run over `a` followed by the run over `b` |
| Sources.BookingRunSingle | scraper_final.py:274-354 | the run over one container is that container's item |
| Sources.BookingListings | scraper_final.py:233-361 | nothing when the results page does not load; otherwise one listing per kept container among the first twenty of the first matching container selector, each valid as above |
| Sources.BookingListingsAreItems | scraper_final.py:254-361 | when the results page loads, the listings are exactly the items of the first twenty containers of the first matching container selector, concatenated in container order |
| Sources.ScreenOther | scraper.py:420-474 | a Hotels.com or Expedia container is never kept: no name element means skip, otherwise the price lookup raises |
| Sources.OtherContainers | scraper.py:406-420 | nothing when the page does not load; otherwise the first fifteen containers (all of them when fewer) of the committed Hotels.com selector or of the Expedia group selector |
| Sources.RaisedCount | scraper.py:472-474 | counts the containers that raise: zero iff no container has a name element, all of them iff every one does (additive: `RaisedCountAppend`) |
| Sources.RaisedCountAppend | scraper.py:420-474 | the count adds up over consecutive containers, and one container counts iff it has a name element |
| Sources.OtherEmptyNameStillRaises | scraper.py:423-441 | an empty but present name does not stop the container before the raising price lookup |
| Sources.NameCommitsToFirstPresent | scraper_final.py:284-292 | an empty name in the first present name element drops the container, whatever later name elements hold |
| Sources.RatingSkipsUnreadable | scraper_final.py:301-309 | a rating element without a number is skipped for the next one that has a number |
| Sources.FilteredBeforeDetails | scraper_final.py:334-338 | a container that is not kept contributes nothing, whatever the fetches, pages and panel answer |
| Aggregator.PlaceHotel | scraper_final.py:395-401 | a Google Maps record has the place's name, the source `Google Maps`, the phone read under the edition's key, and no rating, price or link |
| Aggregator.PlaceHotelRow | scraper.py:660-666 | in the CSV row the phone column holds the phone only for the older edition; rating, price and link are empty |
| Aggregator.PlaceHotels | scraper_final.py:376-402 | one record per place, in order, each `PlaceHotel` of its place |
| Aggregator.PlacesRead | scraper_final.py:376-407 | the places of the listings whose browsing did not raise, in listing order: no more places than listings, and as many iff no listing raised |
| Aggregator.PlacesReadAppend | scraper_final.py:376-407 | reading consecutive listings is reading the first ones and then the rest, so a listing that raised is skipped and nothing takes its place |
| Aggregator.GoogleMapsRun | scraper_final.py:363-410 | raises iff there is no driver or the search itself fails; otherwise the first ten result elements are taken, and there is one named record per listing among them whose browsing did not raise, in order |
| Aggregator.FailedListingNotReplaced | scraper_final.py:374-407 | when a listing among the first ten raises, fewer than ten records come back: the cap falls on the result elements, before failed listings are skipped |
| Aggregator.Run | scraper_final.py:457-465 | only Google Maps can raise; Hotels.com and Expedia return `[]` |
| Aggregator.Gathered | scraper_final.py:446-468 | every gathered listing has a string name, so deduplication cannot raise `KeyError` |
| Aggregator.GatheredFromSources | scraper_final.py:457-461 | every gathered listing comes from one of the sources |
| Aggregator.GatheredIsConcat | scraper_final.py:457-461 | gathering is the sources' contributions concatenated in source order |
| Aggregator.GatheredAppend | scraper.py:752-762 | gathering over `a + b` is gathering over `a` followed by gathering over `b` |
| Aggregator.RaisingSourceSkipped | scraper.py:752-762 | a raising source contributes nothing, and the sources after it still run |
| Aggregator.ConcatContributions | scraper.py:746-751 | when Hotels.com and Expedia add nothing, either source list contributes Booking.com's part followed by Google Maps' part |
| Aggregator.EditionOrder | scraper_final.py:451-461 | both editions gather the Booking.com listings followed by the Google Maps records |
| HotelScraper.AdvancedHotelScraper.constructor | scraper_final.py:25-53 | Selenium is used only if requested and available; a driver exists only when Selenium is used; the pool is `ProxyPool` of the table |
| HotelScraper.AdvancedHotelScraper.LoadProxies | scraper_final.py:64-83 | the row loop leaves `proxies == ProxyPool(table)` |
| HotelScraper.AdvancedHotelScraper.GetRandomProxy | scraper_final.py:85-89 | `None` iff the pool is empty; otherwise a member of the pool |
| HotelScraper.AdvancedHotelScraper.GetPageRequests | scraper_final.py:128-141 | returns `FirstSuccess`; makes at most `retries` attempts, each through a proxy drawn from the pool; one delay per failed attempt |
| HotelScraper.AdvancedHotelScraper.GetPage | scraper_final.py:183 | the fetch is `Page` for the scraper's mode |
| HotelScraper.AdvancedHotelScraper.ReadPageDetails | scraper_final.py:187-218 | the phone and website loops compute `PageDetails` |
| HotelScraper.AdvancedHotelScraper.GetHotelDetails | scraper_final.py:177-231 | the method returns `HotelDetails` |
| HotelScraper.AdvancedHotelScraper.ReadBookingName | scraper_final.py:284-289 | the name loop computes `BookingName` |
| HotelScraper.AdvancedHotelScraper.ReadBookingRating | scraper_final.py:301-309 | the rating loop computes `BookingRating` |
| HotelScraper.AdvancedHotelScraper.ScreenBookingContainer | scraper_final.py:276-335 | the per-container steps compute `ScreenBooking` |
| HotelScraper.AdvancedHotelScraper.ScrapeBookingContainer | scraper_final.py:275-358 | one container's `try` body yields `BookingItem` |
| HotelScraper.AdvancedHotelScraper.ScrapeBookingContainers | scraper_final.py:274-358 | the container loop yields `BookingRun` |
| HotelScraper.AdvancedHotelScraper.ScrapeBookingCom | scraper_final.py:233-361 | the method returns `BookingListings` |
| HotelScraper.AdvancedHotelScraper.ScrapeOther | scraper.py:393-554 | Hotels.com and Expedia return `[]` and report one parsing error per named container |
| HotelScraper.AdvancedHotelScraper.CountRaised | scraper.py:420-474 | the container loop reports exactly `RaisedCount` parsing errors |
| HotelScraper.AdvancedHotelScraper.ScrapeGoogleMaps | scraper_final.py:363-410 | the loop over the first ten result elements, skipping the listings that raised, returns `GoogleMapsRun` for the scraper's edition |
| HotelScraper.AdvancedHotelScraper.RunSource | scraper_final.py:458-459 | one source call ends as `Run` says |
| HotelScraper.AdvancedHotelScraper.ScrapeAllSources | scraper_final.py:446-468 | the method returns `Gathered` over the edition's source list |

## Left out

- Network, Selenium and HTML parsing are outside the model. This covers `requests`,
  `webdriver`, `setup_selenium`, `get_page_selenium` and BeautifulSoup. They are inputs in
  `Web.World`: a missing page and an empty page are both "nothing", and a parsed page is
  the view the scraper reads from it.
- `get_random_user_agent`, the request headers and `random_delay` are not modelled. The
  delays that `get_page_requests` makes are counted; the other `random_delay` calls only
  sleep.
- The Google Maps scraper's browsing (click, back, waits) and the text the knowledge panel
  returns are outside the model. The Google Maps search is an input that gives, per result
  element in page order, the place read or the failure of that listing's `try`. The model
  keeps what depends on the scraper: the cap of ten result elements, the skipped failures,
  and, without a driver, that the first raises and the second returns `None`. The places read and
  the panel's answer are inputs, so the differences between the editions there are not
  modelled: `scraper_final.py` reads a place's phone from the `Io6YTe` elements and asks the
  panel through a Maps search for the hotel's name, while `scraper.py` reads it from the
  fourth or fifth `W4Efsd` element only when it shows `+1` or a US number, and asks Google
  for "name city country contact number".
- The search URLs are not modelled: `urlencode`, `quote` and today's date are an input.
- `float()` is an input applied to the matched rating text. Ratings are exact reals, not
  binary floating point.
- `lower()`, `strip()` and `\s` act on ASCII letters and whitespace only, and `\d` on the
  ASCII digits only.
- Python's regular-expression engine is not modelled in general. Only the rating and phone
  patterns are written out. The knowledge-panel patterns are part of the input.
- `extract_price_amount` and `extract_email` are not defined, so no price is ever parsed
  and no email is ever set.
- Not modelled: `save_to_json`, `cleanup`, `main`, the Flask endpoint, and the file I/O of
  `save_to_csv` (the model returns the table of values it formats).
- Listings.SaveToCsv: a row holds the dict's values (`Listings.Value`). `csv.DictWriter`
  turns them into text, writing `None` as `''` and a float by its `str`. That conversion
  is not modelled.
- HotelScraper.AdvancedHotelScraper.GetPageRequests: the proxy drawn for an attempt does not
  influence that attempt's outcome in the model; `World.requests` decides each attempt by
  URL and attempt number.
- HotelScraper.AdvancedHotelScraper.GetRandomProxy: `random.choice` is modelled as an
  arbitrary member of the pool, with no distribution.
- Urls.OfficialWebsite: the results page is an input (`None` when it does not load). The
  `AttributeError` that `get_page_selenium` raises when Selenium is off, because the
  scraper then has no `driver` attribute, is not modelled. The closing `random_delay` is
  also not modelled.
- Enrich.PhoneFromOfficialSite: the same `AttributeError` without Selenium is not modelled;
  the site and its contact pages are inputs.
