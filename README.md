# Letterboxd listing scraper — verified model of its core

The scraper walks the numbered pages of a Letterboxd language listing. On each page it finds the
`li.poster-container` items and reads four `data-film-*` attributes from each item's
`div.film-poster` child. It normalises them into a movie row and upserts the rows one at a time
into a remote table, counting successes and failures. This project models the logic of the
`LetterboxdScraper` class in Dafny and proves what it promises:

- **Field normalisation** (`Records`). `data-film-id` and `data-film-release-year` become a number
  only when the raw string is present, non-empty and all digits, and `None` otherwise. The slug
  defaults to `""`. The link is `https://letterboxd.com/film/<slug>` exactly when the raw slug is
  non-empty. The name is copied as it is. Decimal parsing and printing live in `Decimal`, with round
  trips proved in both directions: `int(str(n)) == n`, and `str(int(s))` is `s` without its leading
  zeros.
- **Extraction** (`Extraction`). Each item that has a poster yields exactly one record, in document
  order. Items without a poster yield nothing and raise nothing. A page whose loading fails yields no
  records.
- **Batch write** (`Sync`). An empty batch returns early and makes no store call. Otherwise there is
  one upsert per record, in order. A failed call does not stop the batch. Successes plus failures
  equal the batch size, and the error log names exactly the failed records.
- **Page loop** (`Pages`). Every page from `start_page` to `end_page` inclusive is visited, in
  increasing order, at `https://letterboxd.com/films/language/tamil/page/<n>/`. The URLs are
  pairwise distinct. No page is visited when `start_page > end_page`. An exception that the page-level
  handler catches does not stop the loop. The model assumes the handler itself does not raise (see
  "Left out").
- **Scenarios** (`Scenarios`). Two worked cases. The first is a three-item page: a complete poster,
  a poster with a non-numeric id and no slug, and an item without a poster. The second is a single
  page whose loading fails.

The browser, the HTML parser and the database client are external. They enter the model as
oracles passed to the methods:

- `fetch: string -> FetchOutcome` is the loaded page for a URL: its list items, or a failure.
- `store: (int, nat) -> UpsertOutcome` is the store's answer to the j-th upsert of page n.
- `fault: int -> bool` says whether an exception escaped a page's body to the page-level handler.

The scraper object's fields (the driver and the client) are never reassigned by these
operations. So the loops are methods over values with these oracles as parameters, not methods of
a class. The extraction and write loops are proved equal to recursive specification functions
(`Extract`, and the counting functions of `Sync`). The page loop is proved equal, entry by entry,
to `PageStep`, the specification of one iteration. The properties above are proved about those
functions.

The loop accepts any range and visits no page when `start_page > end_page`; the model does the same.

## Model

| member | source | states |
|---|---|---|
| Decimal.NatToDecimal | all-page-scrap-ca-v1-copy.py:118 | `str(n)` of a natural number is a canonical numeral: non-empty, digits only, no leading zero unless it is "0" |
| Decimal.IntToString | all-page-scrap-ca-v1-copy.py:118 | `str(i)` starts with a minus sign exactly when i is negative; the rest (all of it for i >= 0) is the canonical numeral whose value is the magnitude of i |
| Decimal.DigitsValue | all-page-scrap-ca-v1-copy.py:61-64 | `int(s)` of a non-empty digit string (the only kind line 61 passes it) is 0 exactly when every digit is '0'; `DecimalRoundTrip`, `CanonicalRoundTrip` and `ParseThenPrint` pin its value as the inverse of `str` |
| Decimal.DecimalRoundTrip | all-page-scrap-ca-v1-copy.py:61 | parsing the printed form of any number gives the number back (`int(str(n)) == n`) |
| Decimal.CanonicalRoundTrip | all-page-scrap-ca-v1-copy.py:61 | printing the parsed value of a canonical numeral gives the numeral back |
| Decimal.LeadingZeroValue | all-page-scrap-ca-v1-copy.py:61 | a leading zero does not change what `int` gives |
| Decimal.StripLeadingZerosValue | all-page-scrap-ca-v1-copy.py:61 | removing leading zeros leaves a canonical numeral with the same value |
| Decimal.ParseThenPrint | all-page-scrap-ca-v1-copy.py:61 | for every non-empty digit string, `str(int(s))` is `s` without its leading zeros |
| Decimal.NatToDecimalInjective | all-page-scrap-ca-v1-copy.py:118 | different natural numbers print differently |
| Decimal.IntToStringInjective | all-page-scrap-ca-v1-copy.py:118 | different integers print differently, sign included |
| Records.ParseDigits | all-page-scrap-ca-v1-copy.py:61-64 | gives a number exactly when the raw value is present, non-empty and all digits; the number's decimal form is the raw string without leading zeros |
| Records.Normalise | all-page-scrap-ca-v1-copy.py:54-67 | id and release year are numbers exactly when their raw attributes are non-empty digit strings, else None, never a string; name is the raw name (None included); slug is the raw slug or ""; link is present exactly when the raw slug is non-empty, and then equals the film base URL plus the slug, which is non-empty |
| Records.PosterOf | all-page-scrap-ca-v1-copy.py:54-57 | the attributes a poster shows for a record carry an id exactly when the record has one, and carry the record's slug |
| Records.NormalisePosterOf | all-page-scrap-ca-v1-copy.py:54-67 | normalising the attributes shown for any record whose link is derived from its slug gives that record back |
| Records.IdRoundTrip | all-page-scrap-ca-v1-copy.py:54-61 | an id attribute printed from a number normalises to that number |
| Records.NonDigitIdIsNone | all-page-scrap-ca-v1-copy.py:61 | an id attribute with any non-digit character normalises to None |
| Extraction.ExtractLength | all-page-scrap-ca-v1-copy.py:47-71 | the number of extracted records is the number of items that have a poster |
| Extraction.ExtractAt | all-page-scrap-ca-v1-copy.py:47-71 | the item at position k, when it has a poster, gives the record at the position equal to the number of posters before it (document order) |
| Extraction.ExtractAppend | all-page-scrap-ca-v1-copy.py:48-69 | extracting a concatenation of items gives the concatenation of the extractions |
| Extraction.SkipItemWithoutPoster | all-page-scrap-ca-v1-copy.py:49-51 | an item without a poster contributes nothing, wherever it stands |
| Extraction.ExtractMovies | all-page-scrap-ca-v1-copy.py:47-71 | the extraction loop returns the extraction of the items, one record per item with a poster |
| Extraction.ScrapeSinglePage | all-page-scrap-ca-v1-copy.py:36-75 | a page that fails to load gives no records; a loaded page gives the extraction of its items |
| Sync.Report | all-page-scrap-ca-v1-copy.py:81-107 | the write step gives a summary exactly when the batch is non-empty (the early return otherwise), and its counts sum to the number of upsert calls |
| Sync.CountsCover | all-page-scrap-ca-v1-copy.py:86-99 | successes plus failures equal the number of upsert calls |
| Sync.RaisedRecordsCounted | all-page-scrap-ca-v1-copy.py:98-100 | the records logged as failed are as many as the failures counted |
| Sync.AllStored | all-page-scrap-ca-v1-copy.py:89-97 | when no call raises, every record counts as inserted and none as failed |
| Sync.PushToStore | all-page-scrap-ca-v1-copy.py:77-107 | an empty batch makes no call and reports nothing to insert; otherwise one upsert per record, in order; the counts are the successes and failures among the calls, summing to the batch size; the failed records are logged in order |
| Pages.PageUrl | all-page-scrap-ca-v1-copy.py:113-118 | the URL is the listing base, then `str(n)`, then a slash: between base and slash stands the canonical numeral of n, preceded by a minus sign when n is negative; `PageUrlInjective` shows different pages give different URLs |
| Pages.VisitsExactlyRange | all-page-scrap-ca-v1-copy.py:115 | a log of consecutive pages from `start` whose length is that of `range(start, end + 1)` holds a page number if and only if it lies between start and end inclusive |
| Pages.PageUrlInjective | all-page-scrap-ca-v1-copy.py:113-118 | different page numbers give different page URLs |
| Pages.PageStep | all-page-scrap-ca-v1-copy.py:116-130 | one iteration records its page number, its URL and whether it reached its confirmation; when it writes a summary, the counts sum to the number of upsert calls; `PageStepWrites` ties its calls to the page's extracted records |
| Pages.PageStepWrites | all-page-scrap-ca-v1-copy.py:119-124 | a page upserts exactly the records extracted from it, and reports nothing to insert exactly when there are none |
| Pages.ProcessPage | all-page-scrap-ca-v1-copy.py:116-130 | the body of one iteration (URL, scrape, write) produces exactly the entry `PageStep` specifies |
| Pages.FailedFetchWritesNothing | all-page-scrap-ca-v1-copy.py:119-124 | a page that fails to load makes no upsert and takes the early return |
| Pages.ScrapeMultiplePages | all-page-scrap-ca-v1-copy.py:109-133 | the loop visits every page from start to end inclusive (none when start > end), the k-th being page start + k with its URL, calls and report, whether or not earlier pages raised; page numbers increase and URLs are pairwise distinct |
| Pages.VisitOrder | all-page-scrap-ca-v1-copy.py:115-118 | a log of consecutive pages has increasing page numbers and pairwise distinct URLs |
| Scenarios.NormaliseItemA | all-page-scrap-ca-v1-copy.py:54-67 | a poster with id "101", name "Foo", slug "foo" and year "2020" gives (101, "Foo", "foo", 2020, `https://letterboxd.com/film/foo`) |
| Scenarios.NormaliseItemB | all-page-scrap-ca-v1-copy.py:54-67 | a poster with id "abc", name "Bar" and no slug or year gives (None, "Bar", "", None, None) |
| Scenarios.ThreeItemPage | all-page-scrap-ca-v1-copy.py:47-71 | a complete poster, a poster with id "abc" and no slug, and an item without a poster give two records: (101, "Foo", "foo", 2020, link) and (None, "Bar", "", None, None) |
| Scenarios.ThreeItemPageWrites | all-page-scrap-ca-v1-copy.py:119-124 | a page that loads as those three items makes exactly two upsert calls and reports a summary whose counts sum to two, whatever the store answers |
| Scenarios.FailingPageFive | all-page-scrap-ca-v1-copy.py:113-124 | for the range 5..5 with a failing fetch: one page, at `.../page/5/`, no upsert, early return |

## Left out

- Browser driving: the driver setup, `driver.get` and the 10-second wait for `poster-container`
  elements (lines 26-30, 38-41). These are browser I/O and timing. A page is either its list items
  or `FetchFailed`.
- HTML parsing with BeautifulSoup (line 44, 48-49). The parsed page is given as a sequence of list
  items, each with an optional map of poster attributes.
- The Supabase client and upsert-on-conflict (lines 23, 92-96). These are remote store behaviour.
  Each call is modelled only as the oracle's answer (stored or raised). Nothing is claimed about rows
  in the table, idempotence of repeated upserts, or rows whose id is None.
- Logging, `print` and `time.sleep(1)` (lines 18-20, 74, 82, 100-107, 127, 130, 133). The log lines'
  contents enter the model only as the report, the records logged as failed, and the per-page
  `confirmed` flag.
- `__del__` and `main` (lines 135-160): best-effort cleanup and a hard-coded credential and page
  range.
- Records.ParseDigits: the model accepts only the ASCII digits '0'..'9', and it has no length limit.
  In the source, `str.isdigit()` accepts every Unicode digit character. For decimal digits of other
  scripts, such as '٣' or the fullwidth '３', both `isdigit()` and `int()` accept, so the source
  stores a number where the model gives None. For digit characters that are not decimal, such as
  superscripts, `isdigit()` accepts but `int()` raises, and the handler at lines 73-75 drops the
  whole page. Recent Python versions also limit `int()` to 4300 digits by default: a longer digit
  string raises in the source, and the page is dropped, while the model returns its value.
- Pages.ScrapeMultiplePages: an exception caught by the handler at line 132 is modelled as arising
  after the page's upserts, at the confirmation `print` or the `sleep`. The building of the URL at
  line 118 is also outside any inner handler: for a page number of more than 4300 digits, recent
  Python versions raise there, where `PageUrl` returns a URL. The handler's own `print` at line 133
  is assumed not to raise. When it does raise, for such a page number or for a stdout that fails
  again after failing at line 127, the exception leaves the loop. The remaining pages are then not
  visited, while the model visits every page of the range. An exception partway through a batch is
  not modelled.
