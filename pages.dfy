/**
  `scrape_multiple_pages`: visits every page number of an inclusive range in
  increasing order, scrapes the page and writes its records, and goes on to the
  next page whatever happened on this one.
 */
module Pages {

  import opened Decimal
  import opened Records
  import opened Extraction
  import opened Sync

  const ListingBase := "https://letterboxd.com/films/language/tamil/page/"

  /** The listing URL of a page: the base, the page number in decimal, a slash. */
  function PageUrl(n: int): (url: string)
    ensures |url| > |ListingBase| + 1
    ensures url[..|ListingBase|] == ListingBase && url[|url| - 1] == '/'
    ensures var middle := url[|ListingBase|..|url| - 1];
      && (n >= 0 ==> Canonical(middle) && DigitsValue(middle) == n)
      && (n < 0 ==> middle[0] == '-' && Canonical(middle[1..]) && DigitsValue(middle[1..]) == -n)
  {
    var url := ListingBase + IntToString(n) + "/";
    assert url[|ListingBase|..|url| - 1] == IntToString(n);
    url
  }

  /**
    What one iteration of the page loop did: its page number and URL, the upsert
    calls it made, the write step's report, and whether the page reached its
    confirmation message (false when an exception escaped to the page-level handler).
   */
  datatype PageRecord = PageRecord(
    number: int,
    url: string,
    calls: seq<Movie>,
    report: PushReport,
    confirmed: bool)

  /** The store's answers to the upserts of page n, call by call. */
  function PageOutcomes(n: int, count: nat, store: (int, nat) -> UpsertOutcome): (o: seq<UpsertOutcome>)
    ensures |o| == count
  {
    if count == 0 then [] else PageOutcomes(n, count - 1, store) + [store(n, count - 1)]
  }

  /**
    One iteration of the page loop, with the browser (`fetch`), the store (`store`)
    and an exception escaping the iteration's body (`fault`) as oracles.
   */
  function PageStep(n: int, fetch: string -> FetchOutcome, store: (int, nat) -> UpsertOutcome,
                    fault: int -> bool): (r: PageRecord)
    ensures r.number == n && r.url == PageUrl(n) && r.confirmed == !fault(n)
    ensures r.report.Summary? ==> r.report.successful + r.report.failed == |r.calls|
  {
    var movies := ScrapeResult(fetch(PageUrl(n)));
    PageRecord(n, PageUrl(n), movies, Report(movies, PageOutcomes(n, |movies|, store)), !fault(n))
  }

  /** How many page numbers `range(start, end + 1)` holds. */
  function RangeSize(start: int, end: int): nat {
    if start <= end then end - start + 1 else 0
  }

  /**
    A log of consecutive pages as long as the range visits exactly the page numbers
    from start to end inclusive: a page number appears in it if and only if it lies in the range.
   */
  lemma VisitsExactlyRange(start: int, end: int, log: seq<PageRecord>, p: int)
    requires |log| == RangeSize(start, end)
    requires forall k :: 0 <= k < |log| ==> log[k].number == start + k
    ensures (exists k :: 0 <= k < |log| && log[k].number == p) <==> start <= p <= end
  {
    if start <= p <= end {
      assert log[p - start].number == p;
    }
  }

  /** Different page numbers give different URLs, so no page is fetched twice. */
  lemma PageUrlInjective(a: int, b: int)
    requires PageUrl(a) == PageUrl(b)
    ensures a == b
  {
    var u := PageUrl(a);
    var sa, sb := IntToString(a), IntToString(b);
    assert |sa| == |sb|;
    assert sa == u[|ListingBase|..|u| - 1];
    assert sb == u[|ListingBase|..|u| - 1];
    IntToStringInjective(a, b);
  }

  /** The written records of a page are exactly the records extracted from it, each upserted once. */
  lemma PageStepWrites(n: int, fetch: string -> FetchOutcome, store: (int, nat) -> UpsertOutcome,
                       fault: int -> bool)
    ensures var r := PageStep(n, fetch, store, fault);
      && r.calls == ScrapeResult(fetch(PageUrl(n)))
      && (r.calls == [] <==> r.report == NothingToInsert)
  {
  }

  /** A page whose loading fails makes no upsert call and takes the early "no movies" return. */
  lemma FailedFetchWritesNothing(n: int, fetch: string -> FetchOutcome,
                                 store: (int, nat) -> UpsertOutcome, fault: int -> bool)
    requires fetch(PageUrl(n)) == FetchFailed
    ensures PageStep(n, fetch, store, fault).calls == []
    ensures PageStep(n, fetch, store, fault).report == NothingToInsert
  {
  }

  /** The body of one iteration: build the URL, scrape the page, write its records. */
  method ProcessPage(page: int, fetch: string -> FetchOutcome,
                     store: (int, nat) -> UpsertOutcome, fault: int -> bool)
    returns (entry: PageRecord)
    ensures entry == PageStep(page, fetch, store, fault)
  {
    var url := PageUrl(page);
    var movies := ScrapeSinglePage(fetch(url));
    var calls, report, _ := PushToStore(movies, PageOutcomes(page, |movies|, store));
    entry := PageRecord(page, url, calls, report, !fault(page));
  }

  /** The k-th entry of the log is the iteration for page start + k. */
  ghost predicate StepsFrom(start: int, log: seq<PageRecord>, fetch: string -> FetchOutcome,
                            store: (int, nat) -> UpsertOutcome, fault: int -> bool)
  {
    forall k :: 0 <= k < |log| ==> log[k] == PageStep(start + k, fetch, store, fault)
  }

  /** The page loop. The returned log has one entry per page, in visiting order. */
  method ScrapeMultiplePages(start: int, end: int, fetch: string -> FetchOutcome,
                             store: (int, nat) -> UpsertOutcome, fault: int -> bool)
    returns (log: seq<PageRecord>)
    ensures |log| == RangeSize(start, end)
    ensures forall k :: 0 <= k < |log| ==> log[k] == PageStep(start + k, fetch, store, fault)
    ensures forall i, j :: 0 <= i < j < |log| ==> log[i].number < log[j].number && log[i].url != log[j].url
  {
    log := [];
    var page := start;
    while page <= end
      invariant |log| == page - start
      invariant start <= end + 1 ==> page <= end + 1
      invariant end < start ==> page == start
      invariant StepsFrom(start, log, fetch, store, fault)
      decreases end - page
    {
      var entry := ProcessPage(page, fetch, store, fault);
      assert StepsFrom(start, log + [entry], fetch, store, fault) by {
        forall k | 0 <= k < |log| + 1
          ensures (log + [entry])[k] == PageStep(start + k, fetch, store, fault)
        {
          if k < |log| { assert (log + [entry])[k] == log[k]; }
        }
      }
      log := log + [entry];
      page := page + 1;
    }
    VisitOrder(start, log, fetch, store, fault);
  }

  /** A log of consecutive pages visits increasing page numbers at pairwise different URLs. */
  lemma VisitOrder(start: int, log: seq<PageRecord>, fetch: string -> FetchOutcome,
                   store: (int, nat) -> UpsertOutcome, fault: int -> bool)
    requires forall k :: 0 <= k < |log| ==> log[k] == PageStep(start + k, fetch, store, fault)
    ensures forall i, j :: 0 <= i < j < |log| ==> log[i].number < log[j].number && log[i].url != log[j].url
  {
    forall i, j | 0 <= i < j < |log|
      ensures log[i].number < log[j].number && log[i].url != log[j].url
    {
      assert log[i].number == start + i && log[j].number == start + j;
      if log[i].url == log[j].url {
        PageUrlInjective(start + i, start + j);
      }
    }
  }
}
