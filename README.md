# eBay scraper: a verified model of its extraction and search pipeline

`Ebay-Scraper-main/script.py` is a command-line scraper for eBay search
results. An interactive dialogue asks which of eight fields to collect, a
search term, optional price bounds, a condition filter, a sort order, a page
count and an export format. The `EbayScraper` object then requests up to five
result pages. For every listing on a page it builds a record holding the
selected fields and a `scraped_at` timestamp. It can filter the records by
condition and prints a price summary.

This project models the deterministic core beneath that I/O in Dafny:

- **Record extraction** (`_extract_product_data`): which selector wins for
  each field, which titles reject a listing, what a missing field holds, and
  which keys end up in a record.
- **Page assembly** (`_scrape_page`): the primary and alternative listing
  nodes, records kept in node order, and a failed page giving no records.
- **The search** (`search`): the query parameters, the `_pgn` update, how
  pages are concatenated, and the single early exit.
- **Post-processing**: the condition filter (`filter_by_condition`) and the
  price collection and statistics of `display_summary`.
- **The configuration dialogue** (`get_user_preferences`): field selection,
  the page-count clamp, the menus and the price bounds.

Several inputs are abstracted:

- The network and the HTML parser are replaced by an oracle `fetch` from
  URLs to page outcomes.
- A listing node is a datatype holding, for every selector the extractor
  queries, what that selector finds.
- The clock is a function `clock(page)`.
- Python's `float()` is a partial function passed in as a parameter.

The files:

- `wrappers.dfy`: `Option`/`Result`, and ordered key/value lists that model
  Python's insertion-ordered dicts.
- `seqs.dfy`: order-preserving filtering and subsequences.
- `text.dfy`: Python's `strip`, `lower`, `split`, `join`, the substring test
  and `isdigit`.
- `fields.dfy`: the eight fields, their record keys and their menu numbers.
- `preferences.dfy`: the pure mappings of the dialogue.
- `listing.dfy`: listing nodes and the extraction specification.
- `page.dfy`: one results page.
- `query.dfy`: the query parameters and page URLs.
- `pagination.dfy`: the page loop's specification, meaning which URLs it
  requests, when it pauses, and what it gathers.
- `postprocess.dfy`: the condition filter and the price figures.
- `scraper.dfy`: the class `EbayScraper`. Its fields `selectedFields` and
  `debugMode` are those that `get_user_preferences` assigns. Its methods
  carry the loops of the source, each proved equal to its specification
  function.

Where the code and its written description disagree, the model follows the
code:

- A selector chain `a or b or c` stops at the first element FOUND, even
  when that element's text is empty, because a parsed tag is always truthy.
  It does not stop at the first non-empty text. So an empty heading span
  makes the title `''`, and the listing is rejected.
- `search` never stops on a failed page after page 1. `_scrape_page` catches
  every error and returns `[]`. The loop breaks only when page 1 yields no
  records, for whatever reason. No failure is classified or reported to the
  caller.

## Model

| member | source | states |
|---|---|---|
| Fields.MenuNumbering | Ebay-Scraper-main/script.py:39-48 | menu numbers "1".."8" and the eight fields correspond one to one, and the menu lists them in this order |
| Preferences.SelectMembers | Ebay-Scraper-main/script.py:66-67 | a field is selected exactly when some comma-separated piece is its menu number; unknown pieces are dropped |
| Preferences.SelectAppend | Ebay-Scraper-main/script.py:67 | selection works piece by piece in input order: selecting from a concatenation concatenates the selections, so order and repeats are kept |
| Preferences.ParseFieldSelection | Ebay-Scraper-main/script.py:61-67 | "0" selects all eight fields in menu order; otherwise no more fields than comma-separated pieces |
| Preferences.SelectionRoundTrip | Ebay-Scraper-main/script.py:59-67 | typing the menu numbers of any field list, comma-separated, selects exactly that list back, order and repeats included |
| Preferences.FirstValidIndex | Ebay-Scraper-main/script.py:58-73 | the answer the menu loop stops at is the first one that selects something; every earlier answer selects nothing |
| Preferences.FirstValidIndexIs | Ebay-Scraper-main/script.py:58-73 | that stopping index is determined by the earlier answers all being rejected and the answer at it being accepted |
| Preferences.PromptFields | Ebay-Scraper-main/script.py:58-73 | the re-prompt loop returns the first non-empty selection after asking one more than its index, or asks every answer and returns None |
| Preferences.ParseMaxPages | Ebay-Scraper-main/script.py:129-130 | the count always lies in 1..5: a digit string with value in 1..5 gives that value, any other answer 2 |
| Preferences.LeadingZerosIgnored | Ebay-Scraper-main/script.py:130 | a leading zero does not change the page count |
| Preferences.SingleDigitPages | Ebay-Scraper-main/script.py:130 | each digit 1..5 asks for that many pages, 0 and 6..9 for 2 |
| Preferences.ConditionChoice | Ebay-Scraper-main/script.py:102-106 | 2 filters for "new", 3 for "used", any other answer means no filter |
| Preferences.SortChoice | Ebay-Scraper-main/script.py:118-123 | the result is one of the four sort keys, and not best match exactly for 2, 3 and 4 |
| Preferences.SortMenuCodes | Ebay-Scraper-main/script.py:118-123 | the sort menu and the search agree: menu 2, 3 and 4 send codes 15, 16 and 10, anything else 12 |
| Preferences.ExportChoice | Ebay-Scraper-main/script.py:141-145 | "2" gives json, "3" gives both, and every other answer gives csv |
| Preferences.ParsePriceBound | Ebay-Scraper-main/script.py:87-91 | an empty answer means no bound; a non-empty one is an error exactly when it does not parse, else its parsed value |
| Preferences.ConfigureSpec | Ebay-Scraper-main/script.py:58-164 | the dialogue fails exactly when no answer selects a field or a non-empty bound does not parse, the minimum checked first; a configuration always has 1..5 pages and known condition, sort and export choices |
| Scraper.EbayScraper.constructor | Ebay-Scraper-main/script.py:29-30 | a new scraper selects no field and has debug mode off |
| Scraper.EbayScraper.GetUserPreferences | Ebay-Scraper-main/script.py:32-164 | returns the configuration of the answers; the selection is stored as soon as it is valid, each rejected answer leaves the empty selection, and debug mode is stored only when the dialogue completes |
| Listing.FirstFound | Ebay-Scraper-main/script.py:290-292 | a selector chain finds nothing exactly when every selector finds nothing, and otherwise gives the first selector's find |
| Listing.TitleSelectorOrder | Ebay-Scraper-main/script.py:290-292 | the title comes from the heading span, else the title div, else the h3, the first found winning |
| Listing.ExtractRejects | Ebay-Scraper-main/script.py:289-303 | a node gives no record exactly when the title is selected and missing or a placeholder, or when no field is selected |
| Listing.ExtractedTitle | Ebay-Scraper-main/script.py:294-299 | an accepted record's title is the first title element found and none of the placeholder titles |
| Listing.ExtractedKeys | Ebay-Scraper-main/script.py:286-348 | an accepted record's keys are exactly the selected fields' keys plus `scraped_at`, which is last, each key once |
| Listing.ExtractedValues | Ebay-Scraper-main/script.py:305-344 | each selected field holds what its selectors found or its sentinel, and no unselected field is present |
| Listing.ExtractSelectionAsSet | Ebay-Scraper-main/script.py:289-344 | only which fields are selected matters, not the order typed or repeats |
| Listing.EmptyNodeExtraction | Ebay-Scraper-main/script.py:300-344 | a node matching no selector is rejected if the title is selected; otherwise every selected field holds its sentinel, 'N/A' or '0' for sold count |
| Listing.AcceptedShape | Ebay-Scraper-main/script.py:346-348 | an accepted record is the selected entries in extraction order followed by the timestamp, with distinct keys |
| Scraper.EbayScraper.FieldText | Ebay-Scraper-main/script.py:305-344 | for each non-title field: the first found element, the link's href, the image's src else data-src, or the field's sentinel |
| Scraper.EbayScraper.ExtractProductData | Ebay-Scraper-main/script.py:283-353 | the record built block by block equals the extraction specification |
| Scraper.EbayScraper.AddField | Ebay-Scraper-main/script.py:305-344 | one field block appends the field's entry exactly when it is selected |
| Page.AcceptedMembers | Ebay-Scraper-main/script.py:264-267 | every record kept comes from a node, and every node that is not rejected gives its record |
| Page.AcceptedAppend | Ebay-Scraper-main/script.py:264-267 | records keep node order: the records of concatenated nodes are the concatenated records |
| Page.AcceptedSingle | Ebay-Scraper-main/script.py:265-267 | a single node gives its record, or nothing when rejected |
| Page.PageFallback | Ebay-Scraper-main/script.py:255-259 | the wrapper nodes are used only when there are no `li.s-item` nodes, and a page yields no more records than nodes |
| Scraper.EbayScraper.ScrapePage | Ebay-Scraper-main/script.py:245-281 | a failed page gives no records; otherwise the accepted records of the chosen nodes, in order |
| Query.SortCode | Ebay-Scraper-main/script.py:168-177 | best_match 12, price_low 15, price_high 16, newest 10, anything else 12 |
| Query.SearchParamsKeys | Ebay-Scraper-main/script.py:175-185 | the initial keys are `_nkw`, `_sop`, `_ipg`, then `_udlo` and `_udhi` only for truthy bounds (not for 0 or None) |
| Query.SearchParamsValues | Ebay-Scraper-main/script.py:175-185 | the initial values are the query, the sort code, 60 and the truthy bounds |
| Query.SetParamLookup | Ebay-Scraper-main/script.py:190 | after assigning a key, looking it up gives the assigned value |
| Query.SetParamOthers | Ebay-Scraper-main/script.py:190 | assigning a key changes no other key's value |
| Query.SetParamTwice | Ebay-Scraper-main/script.py:190 | assigning `_pgn` again keeps only the latest value |
| Query.PageUrlParams | Ebay-Scraper-main/script.py:189-191 | every page URL carries the search parameters and `_pgn` = page last, with the keys in insertion order |
| Pagination.SearchAttempts | Ebay-Scraper-main/script.py:189-214 | a search requests page 1 only when page 1 is empty, otherwise pages 1..maxPages in order with `_pgn` = page, and pauses after every page but an empty first one |
| Pagination.LaterPagesAlwaysRequested | Ebay-Scraper-main/script.py:201-214 | after a non-empty first page every page up to maxPages is requested, however the pages after it turn out |
| Pagination.RoundsRequests | Ebay-Scraper-main/script.py:189-214 | full rounds request pages 1..n in order and pause once after each, the last one included |
| Pagination.RoundsLayout | Ebay-Scraper-main/script.py:189-214 | in full rounds, the request for page i + 1 is directly followed by a pause |
| Pagination.GatheredPrefix | Ebay-Scraper-main/script.py:198 | later pages only append: the records of the first m pages stay first and unchanged |
| Pagination.FailedPageAddsNothing | Ebay-Scraper-main/script.py:273-281 | a failed page contributes no records to what has been gathered |
| Pagination.GatheredFromListings | Ebay-Scraper-main/script.py:187-216 | every gathered record was extracted, with its page's timestamp, from a node of a page that was fetched and parsed |
| Scraper.EbayScraper.Search | Ebay-Scraper-main/script.py:166-216 | returns the concatenated records of the pages it attempts (one if page 1 is empty, else all maxPages), and its requests and pauses are those of the search log |
| PostProcess.FilteredByCondition | Ebay-Scraper-main/script.py:355-366 | no filter (None or '') returns the records unchanged; otherwise exactly the records whose lower-cased condition contains the lower-cased filter, each with as many copies as in the input, as an order-preserving subsequence |
| PostProcess.FilteredByConditionIdempotent | Ebay-Scraper-main/script.py:355-366 | filtering twice with the same condition is filtering once |
| PostProcess.MissingConditionDropped | Ebay-Scraper-main/script.py:362-363 | with a non-empty filter, a record without a condition key is dropped |
| PostProcess.ConditionCaseInsensitive | Ebay-Scraper-main/script.py:362-363 | matching ignores the case of the filter |
| Scraper.EbayScraper.FilterByCondition | Ebay-Scraper-main/script.py:355-366 | the filtering loop computes the condition filter |
| PostProcess.Normalize | Ebay-Scraper-main/script.py:401 | normalisation keeps exactly the characters other than `$`, `,`, `£` and `€` |
| PostProcess.NormalizeIdempotent | Ebay-Scraper-main/script.py:401 | normalising twice is normalising once |
| PostProcess.NormalizeAppend | Ebay-Scraper-main/script.py:401 | normalisation works character by character: it distributes over concatenation |
| PostProcess.PriceTextOfRange | Ebay-Scraper-main/script.py:402-405 | for a range "low to high", the stripped text before the first "to" is parsed |
| PostProcess.PricesMembers | Ebay-Scraper-main/script.py:399-408 | every collected price is some record's parsed price, and every price that parses is collected; others are skipped, not counted as zero |
| PostProcess.PricesAppend | Ebay-Scraper-main/script.py:399-408 | prices are collected record by record in order: one parsed price or nothing |
| PostProcess.Statistics | Ebay-Scraper-main/script.py:410-412 | low and high are collected prices bounding all of them, and low <= average <= high, the average times the count being the sum |
| PostProcess.Summary | Ebay-Scraper-main/script.py:397-412 | figures exist exactly when the price field is selected and some price parses, and then bound every parsed price |
| Scraper.EbayScraper.CollectPrices | Ebay-Scraper-main/script.py:398-408 | the try/continue loop collects exactly the parsed prices in record order |
| Scraper.EbayScraper.DisplaySummary | Ebay-Scraper-main/script.py:390-414 | reports the record count and the price figures of the summary specification |
| Text.JoinSplit | Ebay-Scraper-main/script.py:66 | joining the pieces of `split(',')` with commas gives back the answer |

## Left out

- Network access is not modelled: the `requests.Session`, its headers, timeouts and `raise_for_status`. A page's outcome is the oracle `fetch`, and every exception `_scrape_page` catches is one `Failed` outcome.
- BeautifulSoup is not modelled, including its `find`, `find_all` and `get_text(strip=True)`. A listing node holds the stripped text each selector finds, or the attributes of the link and image.
- `urlencode` percent-encoding is not modelled. A URL is its base and its ordered parameter list.
- `time.sleep(random.uniform(2, 4))` is not modelled as a duration. Only the fact that a pause happens is recorded, as `Sleep` in the ghost log.
- Scraper.EbayScraper.Search: records of one page share one timestamp `clock(page)`. The source reads `datetime.now()` once per record, and its value and format (`%Y-%m-%d %H:%M:%S`) are not modelled.
- Scraper.EbayScraper.Search: the default arguments of `search` (`max_pages=3`, `sort_by='best_match'`, no price bounds) are not modelled. Every argument is passed explicitly; `main` passes all of them.
- Floating point is not modelled. Prices and bounds are reals and `float()` is an abstract partial function `parse`, so which texts parse (and that `''` does not) is the caller's choice. Average, minimum and maximum are exact real arithmetic, and `.2f` formatting is left out.
- `lower()` and `isdigit()`/`int()` cover ASCII only. Python also lower-cases other letters, and `isdigit()` accepts other Unicode digits.
- Debug output is left out: all `print`/`input` interaction, the debug messages and `_diagnose_issue`. The dialogue's answers are given as a list of texts, and the field menu may be answered several times.
- `save_to_csv`, `save_to_json` and `main` are left out; they are file and console I/O.
- The `KeyError`/`ValueError` handler around the field comprehension is not modelled, because the comprehension cannot raise on string pieces.
- A `float()` error on a price bound ends the dialogue with `BadPrice`. In the source it propagates to the caller.
