# Car scraping agent: a Dafny model

This project models the core of a conversational car-search agent. A user
describes the car they want. An extraction service turns each message into
search criteria. The agent then either runs a one-time search or sets up
recurring e-mail delivery.

The model covers four parts of the agent:

- **The conversation.** This is a three-state machine: `INITIAL`,
  `ASK_UPDATE_TYPE` and `ASK_SCHEDULE`. It merges freshly extracted criteria
  into the session, summarises them, asks "one-time or regular", and either
  scrapes and reports or stores a recurring query and schedules it.
- **The search URL.** The builder produces the path segments (listing type,
  state code, make and model slugs) and the `#` fragment of ordered filter
  parameters.
- **The listing pipeline.** It harvests the listing links of the
  search-result pages, de-duplicates them, keeps the first `max_results`,
  and scrapes each detail page. A page that fails to fetch or parse is
  skipped. A record that fails the post-scrape criteria check is dropped.
- **The text parsers.** These read prices, years, mileage and locations
  from page text, and screen a free-text snippet by year and price.

Python's behaviour is written out explicitly throughout:

- An exception is an `Options.Result` value `Raised(reason)`.
- A dict key that may be missing is an `Option`.
- Python truthiness is `TruthyInt` or `TruthyText`: `0`, `""` and a missing
  value are all falsy.
- Each regular expression is a hand-written scanner in `Scans`, with its
  exact match positions.
- Every page fetch is an oracle map in which a missing URL is a request that
  raised.
- Parsed HTML is an abstract `DetailPage.Document`: which CSS selectors hit,
  the text of the element each one selects, the first `h1` and `title`, and
  the text of the whole page.

Modules, in dependency order:

- `Options`, `Text` and `Numerals` hold the Python primitives:
  - optional values and results, and truthiness;
  - `lower`, `upper`, `strip`, `replace`, `split`, `join`, `in`;
  - `str(n)` and `f"{n:,}"`.
- `Criteria` holds the criteria and schedule records, the listing record,
  and the dict merge `{**a, **b}`.
- `Constants` holds the state map and the site URLs.
- `DriveUrl` holds `build_drive_url`.
- `Scans` holds the regular-expression scanners.
- `SnippetFilter` holds `extract_year` and `filter_snippet_by_criteria`.
- `DetailPage` holds the field parsers, `scrape_detail_page` and
  `matches_criteria`.
- `DriveScraper` holds `get_unique_listing_urls` and `scrape_drive`.
- `Agent` holds `format_criteria`, `format_results` and
  `process_conversation`. The conversation is `Agent.Respond`, which takes
  the scraper as a parameter, so every property of the conversation holds
  for any scraper. `Agent.ProcessConversation` plugs in `scrape_cars`,
  which is `Agent.ScrapeCars`.

Behaviours of the code worth knowing:

- **`parse_price` can raise.** An amount with a decimal point (`"26.5"`) or
  made of commas alone (`"$,"`) makes `int()` raise `ValueError`.
  `DetailPage.ParsePriceDecimalRaises` and `DetailPage.ParsePriceCommasRaise`
  state the raising behaviour. Inside `scrape_drive` the exception is caught,
  so that listing is skipped.
- **The snippet filter can raise.** `filter_snippet_by_criteria` raises on a
  `$` followed only by commas.
- **The overflow line.** It reads `... and N more listings`.
- **Mileage selectors.** An element found by a mileage selector whose text
  holds no digit is passed over, and the next selector is tried.
- **Later criteria updates are dropped.** After the first turn, the merged
  criteria are only tested for emptiness. The one-time search and the stored
  recurring query use the criteria stored in the session, so an update in a
  later message has no effect (`Agent.LaterExtractionIgnored`).

## Model

| member | source | states |
|---|---|---|
| Criteria.Merge | src/car_agent/agent.py:110-113 | the merged dict is empty exactly when both dicts are |
| Criteria.MergeIsDictUnion | src/car_agent/agent.py:113 | as a key-to-value map, the merge is the stale dict with every key of the fresh one overriding (`{**stale, **fresh}`) |
| Criteria.MergeAssociative | src/car_agent/agent.py:113 | merging turn by turn equals merging the later turns' combined extraction once |
| Criteria.MergeIdentity | src/car_agent/agent.py:113 | merging an empty extraction changes nothing; merging into `{}` copies |
| Criteria.IsEmptyIffNoKeys | src/car_agent/agent.py:117 | `not criteria` holds exactly when the dict has no keys; a key holding 0 or "" keeps it non-empty |
| Constants.StateMapCodes | src/car_agent/scraping/constants.py:4-27 | every state code maps to itself, the map's values are exactly the eight codes, a second lookup changes nothing, the default `vic` is a code, and the search base extends the site base |
| Constants.StateMapFullNames | src/car_agent/scraping/constants.py:5-12 | each full state name maps to the same code as its abbreviation |
| Constants.StateMapKeys | src/car_agent/scraping/constants.py:4-13 | the keys are exactly the eight codes and the eight full names |
| Constants.StateMapKeysLowerCase | src/car_agent/scraping/constants.py:4-13 | every key is lower case, so each is reachable after `.lower()` |
| DriveUrl.StateSegment | src/car_agent/scraping/drive_url.py:9-10 | the state segment is always one of the eight state codes |
| DriveUrl.Slug | src/car_agent/scraping/drive_url.py:14-15 | a make or model slug holds no space and is empty exactly when the name is |
| DriveUrl.SearchPathCases | src/car_agent/scraping/drive_url.py:12-23 | the path is `type/state/all/make/model/`, `type/state/all/make/` or `type/state/` as make and model are truthy |
| DriveUrl.ModelNeedsMake | src/car_agent/scraping/drive_url.py:17-23 | without a truthy make the model does not affect the URL |
| DriveUrl.HashParams | src/car_agent/scraping/drive_url.py:46-49 | the fragment always has a parameter, and the last is `sortBy=recommended` |
| DriveUrl.HashParamsFacts | src/car_agent/scraping/drive_url.py:27-46 | the year range is present iff a year bound is truthy; the price range iff price_min or price_max is; `transmission=auto` iff the transmission lower-cases to auto/automatic; the km range iff mileage_max is; parameters keep the fixed order year, price, transmission, kms, sort |
| DriveUrl.ManualAddsNothing | src/car_agent/scraping/drive_url.py:38-40 | a manual transmission gives the same URL as none |
| DriveUrl.LocationCaseInsensitive | src/car_agent/scraping/drive_url.py:9-10 | locations equal up to case give the same URL |
| DriveUrl.UnknownLocationIsVictoria | src/car_agent/scraping/drive_url.py:9-10 | a location missing from the state map searches Victoria |
| DriveUrl.FragmentRoundTrip | src/car_agent/scraping/drive_url.py:48-49 | splitting the text after the last `#` on `&` gives back the joined parameters |
| DriveUrl.BuildDriveUrlShape | src/car_agent/scraping/drive_url.py:8-51 | the URL begins with the search base and the path, and its fragment splits back into exactly the rendered parameters |
| DriveUrl.EmptyCriteriaUrl | src/car_agent/scraping/drive_url.py:8-51 | empty criteria give the path `all/vic/` and only the sort directive |
| Scans.YearTokensDisjoint | src/car_agent/scraping/filters.py:17 | two year tokens never overlap, so findall returns every token position |
| Scans.YearPositionsFrom | src/car_agent/scraping/filters.py:17 | exactly the positions of standalone 19xx and 20xx tokens, in increasing order |
| Scans.FirstYearFrom | src/car_agent/scraping/filters.py:10 | `re.search` finds the leftmost year token, or reports that there is none |
| Scans.DollarPositionsFrom | src/car_agent/scraping/filters.py:26 | exactly the positions of `$` amounts, in order |
| Scans.DollarGroup | src/car_agent/scraping/filters.py:26 | a captured amount is a non-empty run of digits and commas |
| Scans.NumberPositionsFrom | src/car_agent/scraping/filters.py:28 | exactly the positions of standalone 4-6 digit numbers |
| Scans.GroupsEnd | src/car_agent/scraping/drive_scraper.py:132 | the greedy `(?:,\d{3})*` ends where no further group follows |
| Scans.FirstDigitFrom | src/car_agent/scraping/drive_scraper.py:132 | the mileage search starts at the first digit |
| Scans.FirstKmFrom | src/car_agent/scraping/drive_scraper.py:138 | the leftmost number followed by optional spaces and `km` (either case) |
| Scans.FirstAmountFrom | src/car_agent/scraping/drive_scraper.py:110 | the price capture starts at the first digit or comma |
| SnippetFilter.ExtractYear | src/car_agent/scraping/filters.py:7-11 | empty text gives none; a found year lies in 1900-2099 |
| SnippetFilter.ExtractYearFirstToken | src/car_agent/scraping/filters.py:10-11 | a year is found iff the text has a token, and it is the leftmost token's value |
| SnippetFilter.YearsAtLeast | src/car_agent/scraping/filters.py:17-21 | some found year reaches the bound iff some token's value does |
| SnippetFilter.AmountValue | src/car_agent/scraping/filters.py:30 | reading an amount raises iff it is all commas, and is otherwise non-negative |
| SnippetFilter.AmountValues | src/car_agent/scraping/filters.py:30 | the list comprehension raises iff some amount does, and otherwise reads each amount in place |
| SnippetFilter.NumberValues | src/car_agent/scraping/filters.py:28-30 | one value per standalone number, in order |
| SnippetFilter.DollarCheck | src/car_agent/scraping/filters.py:26-32 | without a comma-only amount, the `$` amounts are not all above the bound iff some `$` amount is at most it |
| SnippetFilter.NumberCheck | src/car_agent/scraping/filters.py:28-32 | the fallback finds numbers iff there are tokens, and not all are above the bound iff some is at most it |
| SnippetFilter.DollarsPresent | src/car_agent/scraping/filters.py:26-27 | the `$` search finds something iff the snippet has a `$` amount |
| SnippetFilter.YearStageSpec | src/car_agent/scraping/filters.py:15-22 | the year stage rejects iff year_min is truthy and no year token reaches it |
| SnippetFilter.PriceStageBad | src/car_agent/scraping/filters.py:26-30 | a comma-only `$` amount makes the price stage raise |
| SnippetFilter.PriceStageDollars | src/car_agent/scraping/filters.py:26-32 | with `$` amounts, the stage accepts iff one is at most the bound |
| SnippetFilter.PriceStageNumbers | src/car_agent/scraping/filters.py:27-32 | without `$` amounts, it accepts iff there is no standalone number or one is at most the bound |
| SnippetFilter.PriceStageSpec | src/car_agent/scraping/filters.py:24-32 | the price stage raises iff there is a comma-only `$` amount, and otherwise accepts iff the price check holds |
| SnippetFilter.FilterSnippetSpec | src/car_agent/scraping/filters.py:14-34 | the filter raises iff the year check passes, price_max is truthy and a `$` amount is all commas; otherwise it accepts iff both checks pass |
| SnippetFilter.NoLimitsAcceptAll | src/car_agent/scraping/filters.py:14-34 | with neither bound truthy every snippet passes |
| DetailPage.FirstHit | src/car_agent/scraping/drive_scraper.py:86-90 | the first selector in list order that selects an element, none before it |
| DetailPage.ParsePrice | src/car_agent/scraping/drive_scraper.py:107-111 | a price that parses is non-negative |
| DetailPage.ParsePriceNone | src/car_agent/scraping/drive_scraper.py:110-111 | text without digits, commas or `k` reads 0 |
| DetailPage.ParsePriceExpandsK | src/car_agent/scraping/drive_scraper.py:110 | the `k` to `000` rewrite is applied before matching |
| DetailPage.ParsePriceWithCommas | src/car_agent/scraping/drive_scraper.py:107-111 | `$` with a comma-grouped number reads back as that number |
| DetailPage.ParsePriceThousands | src/car_agent/scraping/drive_scraper.py:110-111 | `Nk` reads as N times 1000 |
| DetailPage.ParsePriceDecimalRaises | src/car_agent/scraping/drive_scraper.py:110-111 | an amount with a decimal point raises |
| DetailPage.ParsePriceCommasRaise | src/car_agent/scraping/drive_scraper.py:110-111 | `$` followed by commas alone raises |
| DetailPage.ExtractYearFromTitle | src/car_agent/scraping/drive_scraper.py:113-117 | the title year is 0 or lies in 1900-2099 |
| DetailPage.TitleYearAgreesWithSnippetYear | src/car_agent/scraping/drive_scraper.py:113-117 | the title parser agrees with `extract_year`, with 0 for none |
| DetailPage.TitleYearRoundTrip | src/car_agent/scraping/drive_scraper.py:113-117 | a title opening with a year, then a non-word character, reads that year |
| DetailPage.MileageEndWithCommas | src/car_agent/scraping/drive_scraper.py:132 | on a comma-grouped number the greedy match ends exactly at the number's end |
| DetailPage.MileageRoundTrip | src/car_agent/scraping/drive_scraper.py:136-139 | a page whose text opens with a comma-grouped `N km` and has no mileage element reads N |
| DetailPage.SelectedMileageWins | src/car_agent/scraping/drive_scraper.py:124-134 | an element of the first mileage selector opening with a number gives that number, whatever the page text says |
| DetailPage.ScrapeDetailPage | src/car_agent/scraping/drive_scraper.py:71-105 | raises iff the fetch or the price parse does; otherwise echoes the URL and names the source; name, price, year and mileage are the parsers' results on the page, the location is the location parser's, or "VIC" when that is empty; the location is never empty and price and mileage are never negative; the year is 0 or a 19xx/20xx year of the name |
| DetailPage.ParseLocationSpec | src/car_agent/scraping/drive_scraper.py:141-150 | no location element gives "VIC"; otherwise the first selecting element's stripped text, upper-cased |
| DetailPage.ScrapedLocation | src/car_agent/scraping/drive_scraper.py:95-102 | the record's location is the first location element's stripped text upper-cased, and "VIC" when that text is empty or no element is found |
| DetailPage.BarePageDefaults | src/car_agent/scraping/drive_scraper.py:77-105 | a page with no elements and no digits gives "Unknown", 0, 0, 0 and "VIC" |
| DetailPage.UnknownYearFailsYearMin | src/car_agent/scraping/drive_scraper.py:154-155 | an unknown year fails every positive year_min |
| DetailPage.MatchesOnlyYearAndPrice | src/car_agent/scraping/drive_scraper.py:152-158 | only truthy year_min and price_max affect the check |
| DetailPage.MatchesMonotone | src/car_agent/scraping/drive_scraper.py:152-158 | loosening either bound never rejects a record that matched |
| DriveScraper.CleanListingUrl | src/car_agent/scraping/drive_scraper.py:66 | a cleaned URL is the site base followed by text without `?` |
| DriveScraper.CardUrls | src/car_agent/scraping/drive_scraper.py:63-67 | a URL is collected iff some card's link holds the listing marker and cleans to it |
| DriveScraper.PagesFrom | src/car_agent/scraping/drive_scraper.py:53-67 | the harvest raises iff some page's request does, and otherwise collects exactly the listing URLs of the pages |
| DriveScraper.DedupAvoiding | src/car_agent/scraping/drive_scraper.py:50-69 | keeps each unseen URL once and nothing else |
| DriveScraper.Harvest | src/car_agent/scraping/drive_scraper.py:50-69 | for any search URL: raises iff a page request does; otherwise distinct URLs, exactly those on pages 1 to max_page |
| DriveScraper.GetUniqueListingUrls | src/car_agent/scraping/drive_scraper.py:48-69 | raises iff a page request does; otherwise returns distinct URLs, exactly those on pages 1 to max_page |
| DriveScraper.HarvestedUrlsClean | src/car_agent/scraping/drive_scraper.py:65-66 | every harvested URL is the site base plus a link path without a query |
| DriveScraper.SliceTo | src/car_agent/scraping/drive_scraper.py:27 | `urls[:n]` is a prefix of length min(n, len) for n >= 0, counting from the end for negative n |
| DriveScraper.Verdict | src/car_agent/scraping/drive_scraper.py:31-43 | a URL yields a record iff its page scrapes and matches, and the record is that page's |
| DriveScraper.DetailLoop | src/car_agent/scraping/drive_scraper.py:24-43 | every kept record is its URL's matching record; no URL is kept twice; a URL is requested iff it is in the input and not already kept |
| DriveScraper.ScrapeDrive | src/car_agent/scraping/drive_scraper.py:16-46 | raises iff the harvest does; otherwise returns at most max_results records, all matching |
| DriveScraper.ScrapeRun | src/car_agent/scraping/drive_scraper.py:27-43 | the loop keeps at most one record per requested URL, and every record it keeps matches the criteria |
| DriveScraper.LoopKeepsOrder | src/car_agent/scraping/drive_scraper.py:27-37 | records come out in input order |
| DriveScraper.LoopFetchesEach | src/car_agent/scraping/drive_scraper.py:27-33 | over distinct URLs, each is requested once, in order |
| DriveScraper.LoopComplete | src/car_agent/scraping/drive_scraper.py:27-37 | over distinct URLs, a URL is kept iff its page yields a matching record |
| DriveScraper.LoopAppend | src/car_agent/scraping/drive_scraper.py:24-43 | the loop over `a + b` is the loop over `a`, then over `b` with `a`'s kept URLs as seen |
| DriveScraper.FailureSkipped | src/car_agent/scraping/drive_scraper.py:41-43 | a URL whose page raises or does not match leaves the records as if it were absent |
| DriveScraper.ScrapeRunSpec | src/car_agent/scraping/drive_scraper.py:16-46 | over harvested URLs, exactly the first max_results are requested; records are their URLs' matching records, distinct, in order; a URL is kept iff it is among them and matches |
| Agent.FormatCriteriaReadsShownFields | src/car_agent/agent.py:56-79 | the summary depends only on truthy make, model, year bounds, price and mileage ceilings and location |
| Agent.FormatCriteriaEmpty | src/car_agent/agent.py:56-79 | the summary is empty iff none of those fields is truthy |
| Agent.FormatCriteriaMentions | src/car_agent/agent.py:58-77 | each truthy field appears in the summary in its phrase |
| Agent.FormatCriteriaInOrder | src/car_agent/agent.py:56-79 | with every shown field truthy, the summary is make, model, years, price, mileage and location in that order, separated by single spaces |
| Agent.FormatResultsHeader | src/car_agent/agent.py:81-85 | "No listings..." iff there are no results; otherwise the digest opens with the count |
| Agent.FormatResultsShowsFirstTen | src/car_agent/agent.py:85-98 | each of the first ten results is written out, numbered from 1, and the overflow line appears when there are more than ten |
| Agent.FormatResultsOnlyFirstTen | src/car_agent/agent.py:85-99 | results after the tenth affect only the count |
| Agent.EntryPriceReadsBack | src/car_agent/agent.py:87-91 | the price written in an entry reads back through the price parser |
| Agent.TurnCriteriaMerges | src/car_agent/agent.py:107-114 | as a dict, the turn's criteria are the session's overridden key by key by the fresh extraction, also when that is empty |
| Agent.ScrapeCars | src/car_agent/agent.py:42-45 | raises iff the harvest of page 1 does; otherwise at most three records, all matching |
| Agent.Respond | src/car_agent/agent.py:101-176 | for any scraper: a reply that does not continue clears the session; only a completing reply calls storage or the scheduler; it raises only for a session without criteria, or a one-time search |
| Agent.MissingStateIsInitial | src/car_agent/agent.py:105 | a session without a state is handled as `INITIAL` |
| Agent.FirstTurn | src/car_agent/agent.py:117-135 | in `INITIAL`, or whenever the merged criteria are empty, a non-empty extraction is merged, stored and acknowledged with the summary before the one-time-or-regular question; an empty one leaves the session unchanged; nothing is scraped or stored |
| Agent.LaterExtractionIgnored | src/car_agent/agent.py:108-176 | past the first turn, with criteria stored, the fresh extraction has no effect |
| Agent.OneTimeSearch | src/car_agent/agent.py:137-145 | a one-time answer scrapes the stored criteria; it raises iff the scraper does, and otherwise shows the digest, completes, and stores the search iff storage is on |
| Agent.ChooseRegularOrAgain | src/car_agent/agent.py:147-161 | a regular answer moves to the schedule question; any other answer asks again; criteria are kept |
| Agent.ScheduleAnswer | src/car_agent/agent.py:163-174 | without both email and frequency it asks again; with both it confirms and completes, stores the query iff storage is on, and schedules iff a truthy id came back |
| Agent.UnknownStateRestarts | src/car_agent/agent.py:176 | an unknown state with criteria restarts with an empty session |
| Agent.OneTimeSearchShowsMatches | src/car_agent/agent.py:42-45 | with the agent's own scraper, a one-time search raises iff the page-1 harvest does and otherwise shows at most three records, all matching |
| Agent.RegularUpdatesConversation | src/car_agent/agent.py:101-174 | three turns from an empty session (criteria, "2", schedule) complete, and the first turn's criteria survive to the last |

## Left out

- Network and HTML parsing. HTTP requests, BeautifulSoup and CSS selector
  matching are not modelled. Fetches are oracle maps. A parsed page is the
  abstract `Document`: `get_text()` and `get_text(strip=True)` are fields
  of an element, not computed from markup.
- Python's set iteration order. `get_unique_listing_urls` returns
  `list(set(...))`, whose order is arbitrary. The model fixes it to
  first-discovery order (`DriveScraper.Dedup`).
- The extraction service, storage, scheduler and e-mail are not modelled.
  The language-model calls, DynamoDB, EventBridge and SES become inputs
  (`Agent.Services`) or recorded calls (`Agent.Call`). A scheduler call
  that raises is not modelled.
- `llm_parser.py` is not part of this model. `scrape_drive` takes the
  language model as a parameter but never uses it.
- Logging and delays. `print` logging, `time.sleep`, request headers and
  timeouts, and `MAX_SNIPPET_CHARS` have no effect on results.
- Digits, word characters and case mapping are ASCII only. `\d`, `\w`,
  `.lower()` and `.upper()` are modelled on ASCII characters. Python's
  Unicode digits and letters, and case mapping beyond ASCII, are not
  modelled. The exception is the Kelvin sign, which `re.I` matches as `k`.
  Whitespace is not restricted this way: `\s` and `str.strip()` use
  Python's full Unicode whitespace set (`Text.IsSpace`), no-break space
  included.
- DetailPage.ScrapeDetailPage: Python's `int()` refuses to convert a digit
  string longer than 4300 characters (the interpreter's default
  `sys.int_max_str_digits`, which a program can change) and raises
  `ValueError`. The model reads such a string like any other, so a page whose
  price text carries a longer number would raise in Python but not in the
  model, and the contract's "raises iff" does not cover that case.
- DetailPage.ParsePrice: does not model the 4300-digit `int()` limit.
- DetailPage.ParseMileage: does not model the 4300-digit `int()` limit.
- SnippetFilter.AmountValue: does not model the 4300-digit `int()` limit.
- `format_results`' `N/A` fallbacks are not modelled. They cannot occur for
  records that `scrape_detail_page` builds, because every key is present and
  the price is an `int`.
- Session dict keys other than `state` and `criteria` are not modelled.
  The schedule's end date is carried in `Criteria.Schedule` and stored with
  the recurring query, but nothing in the modelled code reads it.
- `ask_update_preference` (agent.py:48-54) is not modelled separately.
  Its text is `Agent.UpdatePrompt`, which `process_conversation` inlines.
- Criteria values are modelled as `int` and `str` only, the types the
  extraction schema declares.
