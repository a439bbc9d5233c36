# pywebcoos in Dafny

This project models the core of pywebcoos, the Python client of the WebCOOS
coastal-camera API. The client's `API` object is built from a token. It
fetches the list of camera assets and offers the following operations:

- list the cameras;
- list the products a camera offers;
- report the time range of a product's inventory;
- download the imagery of a product between two local times, keeping one
  image per `interval` minutes.

Beside it, `timezones.py` maps a camera name to a time zone through a
state-abbreviation table.

The model follows the code's own structure:

- `Errors`: each exception the client raises is a value. This covers the
  fixed messages of its validators, the `UnboundLocalError` of a local read
  before it is assigned, `IndexError`, `KeyError`, `TypeError`,
  `ZeroDivisionError` and the HTTP error of a media request.
- `Text`: Python's substring test `in`, slicing that clamps to the length,
  `int()` on ASCII text, and string ordering with min and max.
- `Timezones`: `TIMEZONES_BY_STATE` and `from_name`.
- `GeoDb`: the `geo_db` tables of `API.py` and the name heuristic of
  `_local2ISO`. Both tables are proved to agree.
- `Dates`: the `yyyymmddHHMM` format check with its calendar validity, the
  ISO text of a UTC instant and reading it back, and the inclusive range
  comparison.
- `Catalog`: the asset → feed → product → service tree. The scans over it
  are written as the loops of the source: first match, last match, and
  last service of the first product.
- `Elements`: the pagination loop and the minute-interval filter.
- `Imagery`: URLs, save paths and the download loop. The files on disk
  are a map from path to bytes, passed in and returned.
- `Client`: the `Api` class with its validators and public operations, the
  time-zone choice and conversion of `_local2ISO`, and the validation order
  of `download`.

The server is an input everywhere:

- `Connect` takes the assets response, or none for a rejected token.
- `inventoryFor` gives the inventory response of a service slug.
  In `download`, `inventoryFor` answers the range check's request and
  `reinventoryFor` answers the second request, made by `_get_service_slug`.
  The server may answer the two differently.
- `pages` lists the successive element pages.
- `server` maps each media URL to its body.
- `toUtc` is the local-to-UTC conversion of a zone.
- `files` holds the files on disk before a download.

Where the code and its documentation differ, the model follows the code:

- The documented fallback to UTC never happens. A camera name without a
  state abbreviation raises `IndexError`, and a state missing from
  `tzs` (Arizona, Colorado, …) raises `KeyError`. The handler catches only
  `ValueError`.
- The products come from the last feed named `raw-video-data`, not the
  first.
- The slug is the last service of the first matching product.
- Every media URL is requested and checked for HTTP errors, even when its
  file is already on disk and is not written again.
- The format check accepts more than twelve digits would suggest, because
  `int()` strips blanks and accepts a sign or underscores. For example,
  `int(" 7")` is 7.
- An interval of 60 minutes or more keeps only minute 0.
- Two assets with the same label pass the camera check, but their times
  cannot be converted: `int()` of a two-element index array raises
  `TypeError`.

## Model

| member | source | states |
|---|---|---|
| Text.ContainsIsSubstring | pywebcoos/API.py:316 | the scan computing Python's `in` holds exactly when the pattern occurs at some offset of the string |
| Text.SpacedPair | pywebcoos/timezones.py:36 | `' ' + k in name` for a two-letter `k` holds exactly when some space of the name is followed by the two letters of `k` |
| Text.FirstSpacedToken | pywebcoos/API.py:316-317 | the `[0]` of the boolean-mask selection is the first key, in list order, that follows a space in the name; there is none exactly when no key does |
| Text.Slice | pywebcoos/API.py:127 | Python slicing clamps both bounds to the length: within bounds it is the subsequence `s[i..j]`; a stop past the end gives the rest from `i`; a start at or past the end gives the empty string |
| Text.ParseDigits | pywebcoos/API.py:127 | `int()` of a non-empty run of ASCII digits is its decimal value |
| Text.ParseBlank | pywebcoos/API.py:127 | `int()` of an empty or blank field raises ValueError |
| Text.ParseOneDigit | pywebcoos/API.py:127 | `int()` of a single digit is its value |
| Text.ParseLeadingBlank | pywebcoos/API.py:127 | `int()` gives the same answer with or without a leading blank |
| Text.StrLeTotal | pywebcoos/API.py:87-88 | any two strings are comparable under Python's ordering |
| Text.StrLeTransitive | pywebcoos/API.py:87-88 | the string ordering is transitive |
| Text.StrLeAntisymmetric | pywebcoos/API.py:87-88 | two strings each at most the other are equal |
| Text.StrLeReflexive | pywebcoos/API.py:87-88 | every string is at most itself |
| Text.MinStr | pywebcoos/API.py:87 | the minimum of a non-empty column is one of its values and at most every value |
| Text.MaxStr | pywebcoos/API.py:88 | the maximum of a non-empty column is one of its values and at least every value |
| Timezones.FromName | pywebcoos/timezones.py:35-41 | ValueError('Camera name does not contain state abbreviation') exactly when no key follows a space in the name; otherwise the zone of the first such key in table order |
| Timezones.StateKeysListed | pywebcoos/timezones.py:4-32 | the table's keys in insertion order are the 29 listed states |
| Timezones.KeysDistinct | pywebcoos/timezones.py:4-32 | the 29 keys are pairwise distinct, so looking up a key by position is the dictionary lookup |
| Timezones.KeysAreStateTokens | pywebcoos/timezones.py:4-32 | every key is two capital letters |
| Timezones.FromNameInZones | pywebcoos/timezones.py:39 | every result is one of America/New_York, America/Chicago, America/Los_Angeles, America/Nome, US/Hawaii |
| Timezones.FromNameCharleston | pywebcoos/timezones.py:36-39 | "Charleston Harbor, SC" resolves to America/New_York |
| Timezones.FromNameAtStart | pywebcoos/timezones.py:36-41 | an abbreviation at the very start of the name does not match, so the ValueError is raised |
| Timezones.FromNameGlued | pywebcoos/timezones.py:36-41 | an abbreviation glued to the preceding word does not match, so the ValueError is raised |
| GeoDb.AbbrevsAreStateTokens | pywebcoos/API.py:341-345 | `state_abbrevs` holds 50 abbreviations, each two capital letters |
| GeoDb.TablesLinked | pywebcoos/API.py:346-356 | every state of `tzs`, read through `tz_formals`, gives one of the five zone names |
| GeoDb.DeriveTimezone | pywebcoos/API.py:316-319 | IndexError exactly when no abbreviation follows a space; otherwise KeyError of the first state in list order when `tzs` lacks it; otherwise one of the five zones; never "UTC" and never the ValueError the handler catches |
| GeoDb.DeriveTimezoneFirstState | pywebcoos/API.py:316-319 | when state `i` is the first listed state whose abbreviation follows a space, the result is its formal zone if `tzs` lists it, and KeyError of its abbreviation otherwise |
| GeoDb.DerivedZoneMatched | pywebcoos/API.py:316-319 | every derived zone is the formal zone of the first matched state, which `tzs` lists |
| GeoDb.TablesAgree | pywebcoos/API.py:346-356 | `tzs` has exactly the keys of TIMEZONES_BY_STATE, and for each state `tz_formals[tzs[s][0]][0]` is the zone TIMEZONES_BY_STATE gives it |
| GeoDb.SausalitoHasNoState | pywebcoos/API.py:316-321 | "Sausalito - Galilee Harbor" raises IndexError instead of falling back to UTC |
| GeoDb.ArizonaIsKeyError | pywebcoos/API.py:316-318 | "Tempe, AZ" matches AZ, which `tzs` lacks, so KeyError('AZ') is raised |
| GeoDb.BorderDerivedZone | pywebcoos/API.py:316-319 | for "Border Cam, CA MI" the `geo_db` heuristic finds California first and gives America/Los_Angeles |
| GeoDb.BorderNamedZone | pywebcoos/timezones.py:36-39 | for "Border Cam, CA MI" `from_name` finds Michigan first and gives America/Chicago |
| GeoDb.HeuristicsCanDisagree | pywebcoos/API.py:316-319 | for "Border Cam, CA MI" the `geo_db` heuristic (list order) gives America/Los_Angeles while `from_name` (table order) gives America/Chicago |
| Dates.DaysInMonth | pywebcoos/API.py:125-127 | month lengths are 28 to 31, and 29 exactly for February of a leap year |
| Dates.ReadFields | pywebcoos/API.py:125-127 | building the datetime from five fields either gives a valid calendar minute or raises ValueError |
| Dates.FieldsRead | pywebcoos/API.py:125-127 | five fields that `int()` reads as the fields of a date give that date when it exists on the calendar, and ValueError otherwise |
| Dates.CheckDateFormat | pywebcoos/API.py:122-129 | the check passes exactly when the date has 12 characters and its fields build a valid datetime; a failure carries "Requested <start/stop> date is of improper format…" |
| Dates.DigitDateAccepted | pywebcoos/API.py:122-129 | a 12-digit date passes exactly when year ≥ 1, month 1–12, the day exists in that month, hour < 24 and minute < 60 |
| Dates.LocalRoundTrip | pywebcoos/API.py:122-129 | a date written as `yyyymmddHHMM` passes exactly when it is a valid calendar minute, and then reads back as itself |
| Dates.LeapDayChecked | pywebcoos/API.py:122-129 | February 29 passes exactly in leap years |
| Dates.SpacedDigit | pywebcoos/API.py:127 | `int()` of a blank and a digit is the digit, so the check accepts padded fields |
| Dates.ShortDateRefused | pywebcoos/API.py:123-124 | an 11-character start date is refused with the start format message |
| Dates.IsoRoundTrip | pywebcoos/API.py:136-138 | the ISO text of a UTC instant, read at the offsets `_check_date_range` uses, gives that instant back |
| Dates.IsoIgnoresSeconds | pywebcoos/API.py:136-140 | two ISO strings that agree up to the minute read as the same datetime; seconds and offset are ignored |
| Dates.DateLeTotalOrder | pywebcoos/API.py:144 | datetime comparison on (year, month, day, hour, minute) is a total order |
| Dates.CompareRange | pywebcoos/API.py:144-146 | the range test passes exactly when both bounds lie in [first, last] inclusively, and otherwise raises the range message |
| Dates.RangeEndsIncluded | pywebcoos/API.py:144 | both ends of the range are accepted as bounds, in either order |
| Dates.RangeRefusesEarlier | pywebcoos/API.py:144-146 | a bound one minute before the first available minute is refused |
| Dates.RangeAsMinMax | pywebcoos/API.py:144 | the test passes exactly when the earlier bound is not before `first` and the later is not after `last` |
| Catalog.CameraList | pywebcoos/API.py:163-174 | the camera list has one name per asset, the asset's label, in result order |
| Catalog.ProductLabels | pywebcoos/API.py:70-72 | one label per product, in product order |
| Catalog.FeedsOf | pywebcoos/API.py:176-184 | the feeds of the first asset with the label; UnboundLocalError('feeds') exactly when no asset has it |
| Catalog.ProductsOf | pywebcoos/API.py:186-193 | the products of the last feed with the name; UnboundLocalError('products') exactly when no feed has it |
| Catalog.ServiceSlugOf | pywebcoos/API.py:200-207 | the slug of the last service of the first product with the name; UnboundLocalError('service_slug') exactly when no product matches or the match has no services |
| Catalog.GetCameraFeeds | pywebcoos/API.py:180-184 | the loop with `break` returns what FeedsOf specifies |
| Catalog.GetCameraProducts | pywebcoos/API.py:190-193 | the loop that overwrites `products` returns what ProductsOf specifies |
| Catalog.SelectServiceSlug | pywebcoos/API.py:200-207 | the nested loops return what ServiceSlugOf specifies |
| Catalog.FeedsOfFirst | pywebcoos/API.py:180-183 | when asset `i` is the first with the label, its feeds are chosen |
| Catalog.ServiceSlugOfFirst | pywebcoos/API.py:200-206 | when product `i` is the first with the name, its last service's slug is chosen |
| Catalog.ServiceSlugOfNone | pywebcoos/API.py:200-207 | with no product of that name, `service_slug` is read unassigned |
| Catalog.DuplicateAssetFirstWins | pywebcoos/API.py:180-183 | of two assets with the same label, the first one's feeds are used |
| Catalog.DuplicateFeedLastWins | pywebcoos/API.py:190-193 | of two feeds with the same name, the last one's products are used |
| Catalog.LastServiceWins | pywebcoos/API.py:204-206 | of a product's services, the last slug is kept |
| Elements.StopIndex | pywebcoos/API.py:240-261 | the page that ends the loop: every earlier page succeeded with a non-empty next link, and it did not |
| Elements.FetchElements | pywebcoos/API.py:232-261 | the loop, started at the elements endpoint with the bounds and slug, collects exactly the results of the pages it reads and makes exactly the requests that follow the next links |
| Elements.FetchFrom | pywebcoos/API.py:244-261 | from any first request, the loop's elements and requests are those Collected and Requests specify for the responses the server sends |
| Elements.CollectedUpToStop | pywebcoos/API.py:240-261 | the collected elements are the pages before the stop concatenated in order, plus the last page's results when it succeeded; a failed page adds nothing and raises nothing |
| Elements.LaterPagesIgnored | pywebcoos/API.py:256-258 | pages after the one that ends the loop change neither the elements nor the requests |
| Elements.RequestsFollowLinks | pywebcoos/API.py:246-260 | one request per page read; the first carries the bounds and slug, and each later one goes to the previous next link without parameters |
| Elements.KeepMembers | pywebcoos/API.py:266-271 | an element is kept exactly when it is in the input and its minute is divisible by the interval |
| Elements.Filtered | pywebcoos/API.py:264-272 | ZeroDivisionError exactly when the interval is 0 and there is an element to test |
| Elements.FilterByInterval | pywebcoos/API.py:264-272 | the filter loop returns what Filtered specifies, and for a non-zero interval the kept elements |
| Elements.KeepIsSubsequence | pywebcoos/API.py:266-271 | the kept elements are a subsequence of the input, in input order |
| Elements.KeepAppend | pywebcoos/API.py:266-271 | filtering two runs one after the other is filtering their concatenation |
| Elements.KeepEveryMinute | pywebcoos/API.py:269 | an interval of 1 keeps every element |
| Elements.KeepIdempotent | pywebcoos/API.py:269 | filtering twice with the same interval is filtering once |
| Elements.QuarterHours | pywebcoos/API.py:269 | an interval of 15 keeps exactly minutes 0, 15, 30 and 45 |
| Elements.LongIntervalIsHourly | pywebcoos/API.py:269 | an interval of 60 or more keeps exactly minute 0 |
| Imagery.Basename | pywebcoos/API.py:293 | the basename contains no slash and is no longer than the path |
| Imagery.SaveNameIsUrlName | pywebcoos/API.py:293 | the file saved for a URL has the URL's last path segment as its name |
| Imagery.SavePaths | pywebcoos/API.py:292-294 | one path per URL, in URL order, each the save directory joined with the URL's basename |
| Imagery.DownloadUrls | pywebcoos/API.py:280-286 | the URL loop returns what Urls specifies |
| Imagery.UrlsOfElements | pywebcoos/API.py:280-286 | a URL is listed exactly when some element carries it, and each element with a URL gives one |
| Imagery.DownloadLoop | pywebcoos/API.py:292-304 | the download loop returns the run Download specifies: the paths, the new disk and the requested URLs |
| Imagery.DownloadImagery | pywebcoos/API.py:274-307 | the files on disk after `_download_imagery`, its result and its requests are those of the run over the elements' URLs |
| Imagery.DownloadSucceeds | pywebcoos/API.py:292-306 | the run succeeds exactly when the server has every URL, and then returns one path per URL and has requested every URL, existing files included |
| Imagery.DownloadFails | pywebcoos/API.py:296-297 | the run stops at the first URL the server lacks with its HTTP error, having requested the URLs up to it |
| Imagery.PathsOnDisk | pywebcoos/API.py:299-303 | after a successful run every returned path is on disk |
| Imagery.KeptFiles | pywebcoos/API.py:299 | a file already on disk is never modified |
| Imagery.NewFilesFromFirstUrl | pywebcoos/API.py:299-302 | a new file holds the body of the first URL saved to that path, so a repeated basename is written once |
| Imagery.NothingToWrite | pywebcoos/API.py:299 | when every path already exists the disk is unchanged |
| Imagery.Idempotent | pywebcoos/API.py:292-304 | a second run over the same URLs changes nothing and returns the same paths |
| Client.SpanOf | pywebcoos/API.py:87-89 | no rows gives the NaN pair; otherwise the first bound is a `Bin Start` no row starts before, and the last is a `Bin End` no row ends after |
| Client.InventoryRows | pywebcoos/API.py:214-221 | the rows are read exactly when the request succeeded and returned a result; otherwise UnboundLocalError('inventory_json') or IndexError |
| Client.Where | pywebcoos/API.py:311 | the positions of the cameras with the name, in increasing order |
| Client.Api.constructor | pywebcoos/API.py:52-56 | the camera list is built from the assets, and no zone is set yet |
| Client.Api.Connect | pywebcoos/API.py:52-56 | ValueError('API access token is not valid.') exactly when there is no assets response; otherwise a new object over those assets |
| Client.Api.CheckCameraName | pywebcoos/API.py:114-116 | passes exactly when some asset has the name; otherwise the camera message |
| Client.Api.Products | pywebcoos/API.py:61-73 | an unknown camera gives the camera message; otherwise the labels of the products of the last raw-video-data feed of the first asset with the name, or UnboundLocalError('products') exactly when it has no such feed |
| Client.Api.GetProducts | pywebcoos/API.py:61-73 | the lookups and the label loop return what Products specifies |
| Client.Api.CheckProductName | pywebcoos/API.py:118-120 | passes exactly when the product is among the camera's labels; the errors of `get_products` come first, then the product message |
| Client.Api.ServiceInventory | pywebcoos/API.py:195-222 | the slug's error comes first; there are rows exactly when the slug is found and its inventory request answers 200 with a result, and they are those of the first result; otherwise the error InventoryRows gives |
| Client.Api.Inventory | pywebcoos/API.py:75-89 | the camera check, then the product check, decide first; then a missing slug's error, then the inventory request's error; a result means the slug was found and its inventory request succeeded, and it is the extreme bin bounds of the first result |
| Client.Api.GetInventory | pywebcoos/API.py:75-89 | the checks, catalogue loops and request return what Inventory specifies |
| Client.Api.CameraIndex | pywebcoos/API.py:311 | an index exactly when the name is listed once, and then its position; otherwise TypeError |
| Client.Api.ZoneOf | pywebcoos/API.py:311-326 | the zone is the declared `timezone` of the camera, or, when it has none, one of the five zones derived from its name; failures are TypeError, IndexError or KeyError |
| Client.Api.UtcBound | pywebcoos/API.py:329-337 | the instant is the conversion of the local time in the camera's zone; a zone error comes first, then ValueError of a malformed time, then OverflowError outside years 1–9999; with a zone, a well-formed time and a valid conversion it succeeds |
| Client.Api.IsoBound | pywebcoos/API.py:309-338 | fails exactly when UtcBound does, with its error; otherwise 25 characters that read back as UtcBound's instant |
| Client.Api.Local2Iso | pywebcoos/API.py:309-338 | returns what IsoBound specifies; `self.tz` is set to the zone whenever the zone is found, even when the time is malformed |
| Client.Api.AvailableRange | pywebcoos/API.py:136-141 | the inventory's error comes first; an empty inventory's NaN pair raises TypeError; otherwise both bounds read at the ISO offsets, the first bound's error before the second's |
| Client.Api.RangeCheck | pywebcoos/API.py:131-146 | errors come in order: start bound, stop bound, inventory; it passes exactly when both UTC bounds lie inclusively in the available range, and otherwise raises the range message |
| Client.Api.CheckDateRange | pywebcoos/API.py:131-146 | the two conversions, the inventory and the comparison return what RangeCheck specifies, and set `self.tz` |
| Client.Api.Validate | pywebcoos/API.py:98-102 | passes exactly when the camera, product, start format and stop format checks and the range check all pass |
| Client.Api.PassedChecks | pywebcoos/API.py:104-108 | once validation passes, the second conversions and the slug lookup of `download` cannot fail, and the range check's inventory request succeeded |
| Client.Api.RunChecks | pywebcoos/API.py:98-102 | the checks, each run only after those before it passed, return what Validate specifies |
| Client.Api.FilteredElements | pywebcoos/API.py:104-110 | after the checks, a failed second inventory request raises its error; otherwise the elements handed on are the filtered results of the pages read |
| Client.Api.Download | pywebcoos/API.py:91-112 | a failed check, a failed second inventory request, or a zero interval with elements, returns its error and leaves the files on disk as they were; otherwise the paths and files are those of the download of the filtered elements' URLs |
| Client.Api.UnknownCameraRejected | pywebcoos/API.py:114-116 | a name no asset has is refused with the camera message by `get_products`, the product check, `get_inventory` and `download`, and has no index |
| Client.Api.ValidationOrder | pywebcoos/API.py:98-102 | the first failing check among camera, product, start format and stop format decides the error; after them, the range check decides |
| Client.Api.EarlyFailureIgnoresServer | pywebcoos/API.py:98-102 | when a check before the range check fails, neither the conversion nor the inventory affects the outcome |
| Client.Api.ShortStartReported | pywebcoos/API.py:123-124 | with a known camera and product, a start date that is not 12 characters long is reported as the start format error, whatever the stop date is |
| Client.Api.DeclaredZoneFirst | pywebcoos/API.py:312-313 | a declared `timezone` property is used as it is |
| Client.Api.NamedZoneOtherwise | pywebcoos/API.py:314-319 | without a declared zone, the zone is the one derived from the name |
| Client.Api.NoUtcFallback | pywebcoos/API.py:316-322 | the zone is "UTC" only when the camera declares it |
| Client.Api.DuplicateCameraHasNoZone | pywebcoos/API.py:311 | two assets with the same label pass the camera check, but the camera gets no zone (TypeError) |
| Client.Api.EmptyInventoryFailsRange | pywebcoos/API.py:138-140 | an inventory without rows makes the range check raise TypeError |

## Left out

- HTTP transport is not modelled: request headers, status codes other than the
  inventory's and pages', `response.json()` and streamed chunks. The
  server's answers are inputs.
- pytz is the parameter `toUtc`. Its zone rules and daylight-saving gaps are
  not modelled. An unknown zone name, which makes pytz raise, is not
  modelled either.
- `datetime.fromisoformat` is not modelled: each element carries its minute.
- pandas and numpy containers are plain sequences. The ValueError of a
  DataFrame whose rows do not have seven columns is not modelled.
- Logging and `logging.basicConfig` are dropped, and so is `os.makedirs` of
  the save directory.
- `int()` is modelled for ASCII text only. Unicode digits and whitespace
  outside ASCII are not modelled.
- `download` converts `start` and `stop` with `str()`. The model takes them
  as strings already.
- Elements.FetchElements requires that some page ends the loop. A server that
  links pages forever would make the source loop forever.
- Client.Api.Download does not return the element requests. Elements.FetchElements
  states them.
- Client.Api.UtcBound: the seconds a conversion could introduce through a
  zone's historical offset are dropped. Dates.IsoIgnoresSeconds shows that the
  range check ignores them.
- Client.Api.Connect: the assets request of `_make_api_request` is the optional
  response parameter.
- Elements.Filtered: the interval is an integer. A float interval, which
  Python's `%` also accepts, is not modelled.
- Imagery.Basename: paths are split on `/` only, as on POSIX. Windows
  separators are not modelled, and neither is the rest of `os.path.join`.
- `get_cameras` returns the `cameras` field, so it has no member of its own.
