/** The Goodreads entities of package `gr` (pkg/gr/book.go, series.go,
  * shelf.go, feed.go) as values. Go's float64 fields are exact reals
  * here, and `date.Date` is a calendar triple. */
module GrTypes {
  import opened Numbers

  /** A calendar date as `date.New(year, month, day)` builds it. */
  datatype Date = Date(year: int, month: int, day: int)

  /** The zero value of `date.Date`: the date library counts days from
    * 1 January 1970, and its zero value is that day. */
  const ZeroDate: Date := Date(1970, 1, 1)

  predicate IsZeroDate(d: Date)
  {
    d == ZeroDate
  }

  /** `d.Format("2006")`: the absolute year zero-padded to four digits,
    * after a '-' for a year before year 0. */
  function YearText(d: Date): (s: string)
    ensures d.year >= 0 ==> |s| >= 4 && AllDigits(s)
    ensures d.year < 0 ==> |s| >= 5 && s[0] == '-' && AllDigits(s[1..])
  {
    var digits := PadDigits(NatToDec(if d.year < 0 then -d.year else d.year), 4);
    if d.year < 0 then "-" + digits else digits
  }

  /** The year text reads back as the year: a '-' exactly for a negative
    * year, then the digits of its absolute value. */
  lemma YearTextValue(d: Date)
    ensures var s := YearText(d);
      |s| >= 4 && (s[0] == '-' <==> d.year < 0) &&
      (d.year >= 0 ==> DecValue(s) == d.year) &&
      (d.year < 0 ==> DecValue(s[1..]) == -d.year)
  {
    var n: nat := if d.year < 0 then -d.year else d.year;
    PadDigitsValue(NatToDec(n), 4);
    DecValueOfNatToDec(n);
    var s := YearText(d);
    if d.year < 0 {
      assert s[1..] == PadDigits(NatToDec(n), 4);
    }
  }

  /** Year -725 is written "-0725", as Go formats years before year 0. */
  lemma NegativeYearExample()
    ensures YearText(Date(-725, 1, 1)) == "-0725"
  {
    assert NatToDec(7) == ['7'];
    assert NatToDec(72) == NatToDec(7) + ['2'];
    assert NatToDec(725) == NatToDec(72) + ['5'];
    var t := NatToDec(725);
    assert t == ['7', '2', '5'];
    assert PadDigits(t, 4) == PadDigits(['0'] + t, 4);
    assert PadDigits(['0'] + t, 4) == ['0'] + t;
    assert YearText(Date(-725, 1, 1)) == ['-'] + PadDigits(t, 4);
  }

  datatype Author = Author(id: Int64, name: string, url: string)

  const ZeroAuthor: Author := Author(0, "", "")

  datatype Series = Series(title: string, position: real, id: Int64, books: seq<Book>)

  const ZeroSeries: Series := Series("", 0.0, 0, [])

  datatype Book = Book(
    id: Int64,
    workID: Int64,
    isbn: string,
    isbn13: string,
    title: string,
    titleNoSeries: string,
    series: Series,
    author: Author,
    pubDate: Date,
    rating: real,
    description: string,
    url: string,
    imageURL: string)

  const ZeroBook: Book := Book(0, 0, "", "", "", "", ZeroSeries, ZeroAuthor, ZeroDate, 0.0, "", "", "")

  /** The paging attributes of a list response. */
  datatype PageData = PageData(start: int, end: int, total: int)

  const ZeroPage: PageData := PageData(0, 0, 0)

  datatype Shelf = Shelf(id: Int64, name: string, url: string, size: int, books: seq<Book>, selected: bool)

  /** An RSS feed: its books carry only an ID and a cover URL. */
  datatype Feed = Feed(name: string, books: seq<Book>)

  /** A book's page on goodreads.com. */
  function BookURL(id: int): string
  {
    "https://www.goodreads.com/book/show/" + IntToDec(id)
  }

  /** An author's page on goodreads.com. */
  function AuthorURL(id: int): string
  {
    "https://www.goodreads.com/author/show/" + IntToDec(id)
  }

  /** The page URL names the book: different IDs give different URLs. */
  lemma BookURLInjective(a: int, b: int)
    requires BookURL(a) == BookURL(b)
    ensures a == b
  {
    var p := "https://www.goodreads.com/book/show/";
    assert IntToDec(a) == BookURL(a)[|p|..];
    assert IntToDec(b) == BookURL(b)[|p|..];
    IntToDecInjective(a, b);
  }

  /** The page URL names the author. */
  lemma AuthorURLInjective(a: int, b: int)
    requires AuthorURL(a) == AuthorURL(b)
    ensures a == b
  {
    var p := "https://www.goodreads.com/author/show/";
    assert IntToDec(a) == AuthorURL(a)[|p|..];
    assert IntToDec(b) == AuthorURL(b)[|p|..];
    IntToDecInjective(a, b);
  }

  /** A decoded `url.Values`: each key with its list of values. */
  type Query = map<string, seq<string>>

  /** A URL as url.Parse splits it: scheme and host, path, and decoded
    * query. */
  datatype ParsedURL = ParsedURL(origin: string, path: string, query: Query)

  /** `url.Values.Get`: the first value, or "". */
  function QueryGet(q: Query, key: string): string
  {
    if key in q && |q[key]| > 0 then q[key][0] else ""
  }

  /** `url.Values.Set`: the key's values become exactly `[value]`; other
    * keys keep theirs. */
  function QuerySet(q: Query, key: string, value: string): (r: Query)
    ensures QueryGet(r, key) == value
    ensures forall k :: k != key ==> (k in r <==> k in q) && (k in q ==> r[k] == q[k])
  {
    q[key := [value]]
  }
}
