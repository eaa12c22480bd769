/** Concrete pages: a three-item listing and a single page whose loading fails. */
module Scenarios {

  import opened Wrappers
  import opened Decimal
  import opened Records
  import opened Extraction
  import opened Sync
  import opened Pages

  /** A complete poster. */
  const ItemA := ListItem(Some(map[IdKey := "101", NameKey := "Foo", SlugKey := "foo", YearKey := "2020"]))
  /** A poster with a non-numeric id and no slug. */
  const ItemB := ListItem(Some(map[IdKey := "abc", NameKey := "Bar"]))
  /** A list item without a poster. */
  const ItemC := ListItem(None)

  /** The complete poster gives a record with every field set. */
  lemma NormaliseItemA()
    ensures Normalise(ItemA.poster.value)
      == Movie(Some(101), Some("Foo"), "foo", Some(2020), Some("https://letterboxd.com/film/foo"))
  {
    var pa := ItemA.poster.value;
    assert "101"[..2] == "10" && "10"[..1] == "1";
    assert DigitsValue("101") == 101;
    assert "2020"[..3] == "202" && "202"[..2] == "20" && "20"[..1] == "2";
    assert DigitsValue("2020") == 2020;
    assert Attr(pa, IdKey) == Some("101") && Attr(pa, YearKey) == Some("2020");
    assert Attr(pa, SlugKey) == Some("foo") && Attr(pa, NameKey) == Some("Foo");
    assert FilmLinkBase + "foo" == "https://letterboxd.com/film/foo";
  }

  /** A non-numeric id and a missing slug give no id, an empty slug and no link. */
  lemma NormaliseItemB()
    ensures Normalise(ItemB.poster.value) == Movie(None, Some("Bar"), "", None, None)
  {
    var pb := ItemB.poster.value;
    assert !IsDigit("abc"[0]);
    assert Attr(pb, IdKey) == Some("abc") && Attr(pb, YearKey) == None && Attr(pb, SlugKey) == None;
  }

  /** Two records come out of the three items; only the first has an id, a year and a link. */
  lemma ThreeItemPage()
    ensures Extract([ItemA, ItemB, ItemC]) == [
      Movie(Some(101), Some("Foo"), "foo", Some(2020), Some("https://letterboxd.com/film/foo")),
      Movie(None, Some("Bar"), "", None, None)]
  {
    NormaliseItemA();
    NormaliseItemB();
    assert [ItemA, ItemB, ItemC][..2] == [ItemA, ItemB];
    assert [ItemA, ItemB][..1] == [ItemA];
    assert [ItemA][..0] == [];
    assert Extract([ItemA]) == [Normalise(ItemA.poster.value)];
    assert Extract([ItemA, ItemB]) == [Normalise(ItemA.poster.value), Normalise(ItemB.poster.value)];
  }

  /** A page that loads as those three items makes two upsert calls, whatever the store answers. */
  lemma ThreeItemPageWrites(n: int, fetch: string -> FetchOutcome, store: (int, nat) -> UpsertOutcome,
                            fault: int -> bool)
    requires fetch(PageUrl(n)) == Loaded([ItemA, ItemB, ItemC])
    ensures var r := PageStep(n, fetch, store, fault);
      && |r.calls| == 2
      && r.report.Summary?
      && r.report.successful + r.report.failed == 2
  {
    ThreeItemPage();
  }

  /** Page 5 alone, with a browser that fails on it: one page visited, nothing written. */
  lemma FailingPageFive(fetch: string -> FetchOutcome, store: (int, nat) -> UpsertOutcome, fault: int -> bool)
    requires fetch("https://letterboxd.com/films/language/tamil/page/5/") == FetchFailed
    ensures RangeSize(5, 5) == 1
    ensures PageStep(5, fetch, store, fault).url == "https://letterboxd.com/films/language/tamil/page/5/"
    ensures PageStep(5, fetch, store, fault).calls == []
    ensures PageStep(5, fetch, store, fault).report == NothingToInsert
  {
    assert IntToString(5) == "5";
  }
}
