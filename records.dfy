/**
  Normalisation of one film poster into a movie record: the dictionary built
  from the poster's `data-film-*` attributes in `scrape_single_page`.
 */
module Records {

  import opened Wrappers
  import opened Decimal

  /** The attributes of one `film-poster` element, by attribute name. */
  type Attributes = map<string, string>

  const IdKey := "data-film-id"
  const NameKey := "data-film-name"
  const SlugKey := "data-film-slug"
  const YearKey := "data-film-release-year"

  const FilmLinkBase := "https://letterboxd.com/film/"

  /** One row of the movie table; the field names follow the table's columns. */
  datatype Movie = Movie(
    id: Option<nat>,
    name: Option<string>,
    slug: string,
    releaseYear: Option<nat>,
    link: Option<string>)

  /** `element.get(key)`: the attribute's value, or None when the element lacks it. */
  function Attr(poster: Attributes, key: string): Option<string> {
    if key in poster then Some(poster[key]) else None
  }

  /** Python truthiness of an optional string: present and non-empty. */
  predicate Truthy(s: Option<string>) {
    s.Some? && s.value != ""
  }

  /** `int(s) if s and s.isdigit() else None`. */
  function ParseDigits(raw: Option<string>): (r: Option<nat>)
    ensures r.Some? <==> Truthy(raw) && AllDigits(raw.value)
    ensures r.Some? ==> NatToDecimal(r.value) == StripLeadingZeros(raw.value)
  {
    if Truthy(raw) && AllDigits(raw.value) then
      ParseThenPrint(raw.value);
      Some(DigitsValue(raw.value))
    else
      None
  }

  /** The record built from one poster's attributes. */
  function Normalise(poster: Attributes): (m: Movie)
    ensures m.id.Some? <==> Truthy(Attr(poster, IdKey)) && AllDigits(poster[IdKey])
    ensures m.id.Some? ==> NatToDecimal(m.id.value) == StripLeadingZeros(poster[IdKey])
    ensures m.releaseYear.Some? <==> Truthy(Attr(poster, YearKey)) && AllDigits(poster[YearKey])
    ensures m.releaseYear.Some? ==> NatToDecimal(m.releaseYear.value) == StripLeadingZeros(poster[YearKey])
    ensures m.name == Attr(poster, NameKey)
    ensures m.slug == if Truthy(Attr(poster, SlugKey)) then poster[SlugKey] else ""
    ensures m.link.Some? <==> Truthy(Attr(poster, SlugKey))
    ensures m.link.Some? ==> m.link.value == FilmLinkBase + m.slug && m.slug != ""
    ensures LinkDerived(m)
  {
    var slug := Attr(poster, SlugKey);
    Movie(
      ParseDigits(Attr(poster, IdKey)),
      Attr(poster, NameKey),
      if Truthy(slug) then slug.value else "",
      ParseDigits(Attr(poster, YearKey)),
      if Truthy(slug) then Some(FilmLinkBase + slug.value) else None)
  }

  /** The record invariant: a link exactly when the slug is non-empty, derived from it. */
  predicate LinkDerived(m: Movie) {
    m.link == if m.slug != "" then Some(FilmLinkBase + m.slug) else None
  }

  /** The attributes a listing page shows for a record: numbers printed in decimal, absent fields omitted. */
  function PosterOf(m: Movie): (poster: Attributes)
    ensures IdKey in poster <==> m.id.Some?
    ensures SlugKey in poster ==> poster[SlugKey] == m.slug
  {
    var withId := if m.id.Some? then map[IdKey := NatToDecimal(m.id.value)] else map[];
    var withName := if m.name.Some? then withId[NameKey := m.name.value] else withId;
    var withSlug := if m.slug != "" then withName[SlugKey := m.slug] else withName;
    if m.releaseYear.Some? then withSlug[YearKey := NatToDecimal(m.releaseYear.value)] else withSlug
  }

  /** Normalising the attributes of a record that keeps the link invariant gives the record back. */
  lemma {:induction false} NormalisePosterOf(m: Movie)
    requires LinkDerived(m)
    ensures Normalise(PosterOf(m)) == m
  {
    var p := PosterOf(m);
    var r := Normalise(p);
    if m.id.Some? {
      DecimalRoundTrip(m.id.value);
      assert Attr(p, IdKey) == Some(NatToDecimal(m.id.value));
    }
    if m.releaseYear.Some? {
      DecimalRoundTrip(m.releaseYear.value);
      assert Attr(p, YearKey) == Some(NatToDecimal(m.releaseYear.value));
    }
    assert r.id == m.id;
    assert r.releaseYear == m.releaseYear;
    assert r.name == m.name;
    assert r.slug == m.slug;
  }

  /** An id attribute printed from a number normalises to that number. */
  lemma IdRoundTrip(poster: Attributes, n: nat)
    requires Attr(poster, IdKey) == Some(NatToDecimal(n))
    ensures Normalise(poster).id == Some(n)
  {
    DecimalRoundTrip(n);
  }

  /** A raw id with any character outside '0'..'9' normalises to None, never to a string. */
  lemma NonDigitIdIsNone(poster: Attributes, i: nat)
    requires IdKey in poster && i < |poster[IdKey]| && !IsDigit(poster[IdKey][i])
    ensures Normalise(poster).id == None
  {
  }
}
