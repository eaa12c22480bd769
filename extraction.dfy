/**
  The extraction loop of `scrape_single_page`: one record per `poster-container`
  list item that has a `film-poster` child, in document order.
 */
module Extraction {

  import opened Wrappers
  import opened Records

  /** One `li.poster-container` of the parsed page, with its `div.film-poster` child if it has one. */
  datatype ListItem = ListItem(poster: Option<Attributes>)

  /** What loading a listing page gives: its list items, or a failure (navigation error, wait timeout). */
  datatype FetchOutcome = Loaded(items: seq<ListItem>) | FetchFailed

  /** The records extracted from a sequence of list items. */
  function Extract(items: seq<ListItem>): seq<Movie>
  {
    if items == [] then []
    else
      var last := items[|items| - 1];
      Extract(items[..|items| - 1]) + (if last.poster.Some? then [Normalise(last.poster.value)] else [])
  }

  /** How many of the items have a poster. */
  function CountPosters(items: seq<ListItem>): nat
  {
    if items == [] then 0
    else CountPosters(items[..|items| - 1]) + (if items[|items| - 1].poster.Some? then 1 else 0)
  }

  /** The records of a page: none when loading it failed. */
  function ScrapeResult(page: FetchOutcome): seq<Movie>
  {
    match page
    case Loaded(items) => Extract(items)
    case FetchFailed => []
  }

  /** Exactly one record per item with a poster. */
  lemma {:induction false} ExtractLength(items: seq<ListItem>)
    ensures |Extract(items)| == CountPosters(items)
  {
    if items != [] {
      ExtractLength(items[..|items| - 1]);
    }
  }

  /**
    The item at position k, when it has a poster, yields the record at the position
    given by the number of posters before it: records come in document order.
   */
  lemma {:induction false} ExtractAt(items: seq<ListItem>, k: nat)
    requires k < |items| && items[k].poster.Some?
    ensures CountPosters(items[..k]) < |Extract(items)|
    ensures Extract(items)[CountPosters(items[..k])] == Normalise(items[k].poster.value)
  {
    var n := |items| - 1;
    var init := items[..n];
    ExtractLength(init);
    if k < n {
      assert init[..k] == items[..k];
      ExtractAt(init, k);
    } else {
      assert init == items[..k];
    }
  }

  /** Extraction of a concatenation is the concatenation of the extractions. */
  lemma {:induction false} ExtractAppend(a: seq<ListItem>, b: seq<ListItem>)
    ensures Extract(a + b) == Extract(a) + Extract(b)
  {
    if b != [] {
      var n := |b| - 1;
      assert (a + b)[..|a + b| - 1] == a + b[..n];
      ExtractAppend(a, b[..n]);
    } else {
      assert a + b == a;
    }
  }

  /** Items without a poster contribute nothing, wherever they stand. */
  lemma SkipItemWithoutPoster(before: seq<ListItem>, after: seq<ListItem>)
    ensures Extract(before + [ListItem(None)] + after) == Extract(before + after)
  {
    ExtractAppend(before + [ListItem(None)], after);
    ExtractAppend(before, [ListItem(None)]);
    ExtractAppend(before, after);
    assert Extract([ListItem(None)]) == [];
  }

  /** The extraction loop: appends a record for each item that has a poster. */
  method ExtractMovies(items: seq<ListItem>) returns (movies: seq<Movie>)
    ensures movies == Extract(items)
    ensures |movies| == CountPosters(items)
  {
    movies := [];
    var i := 0;
    while i < |items|
      invariant 0 <= i <= |items|
      invariant movies == Extract(items[..i])
    {
      var poster := items[i].poster;
      assert items[..i + 1][..i] == items[..i];
      if poster.Some? {
        movies := movies + [Normalise(poster.value)];
      }
      i := i + 1;
    }
    assert items[..i] == items;
    ExtractLength(items);
  }

  /** `scrape_single_page` after navigation: the page's records, or none when loading failed. */
  method ScrapeSinglePage(page: FetchOutcome) returns (movies: seq<Movie>)
    ensures page.FetchFailed? ==> movies == []
    ensures page.Loaded? ==> movies == Extract(page.items)
  {
    match page {
      case Loaded(items) =>
        movies := ExtractMovies(items);
      case FetchFailed =>
        movies := [];
    }
  }
}
