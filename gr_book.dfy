/** Books (pkg/gr/book.go): the template data of a book, the request URLs,
  * and the clean-up applied to decoded API records.
  *
  * XML decoding is not modelled: each `unmarshal*` function here starts
  * from the records `encoding/xml` would have filled in. */
module GrBook {
  import opened Wrappers
  import opened Strings
  import opened Numbers
  import opened GrTypes
  import opened GrTitle
  import opened GrText
  import opened Seqs

  /** `Book.HasSeries`. */
  predicate HasSeries(b: Book)
  {
    b.series.title != ""
  }

  /** A title without series information gives a book without a series. */
  lemma NoSeriesWithoutMatch(s: string)
    requires Match(HashPattern, s).None? && Match(SeriesBookPattern, s).None?
    ensures !HasSeries(Book(0, 0, "", "", s, ParseTitle(s).0, ParseTitle(s).1, ZeroAuthor, ZeroDate, 0.0, "", "", ""))
  {
    ParseTitleNoMatch(s);
  }

  /* ---------- publication dates ---------- */

  /** The date patching of every `unmarshal*` loop: a month or day of 0
    * becomes 1, and the date is set only when the year is not 0. */
  function PublicationDate(year: int, month: int, day: int): Date
  {
    if year == 0 then ZeroDate
    else Date(year, if month == 0 then 1 else month, if day == 0 then 1 else day)
  }

  /** Without a year there is no date; with one, the year is kept, a
    * given month and day are kept, and a missing one reads as the first. */
  lemma PublicationDateDefaults(year: int, month: int, day: int)
    ensures year == 0 ==> IsZeroDate(PublicationDate(year, month, day))
    ensures year != 0 ==> PublicationDate(year, month, day).year == year
    ensures year != 0 && month != 0 ==> PublicationDate(year, month, day).month == month
    ensures year != 0 && day != 0 ==> PublicationDate(year, month, day).day == day
    ensures year != 0 && month >= 0 && day >= 0 ==>
      PublicationDate(year, month, day).month >= 1 && PublicationDate(year, month, day).day >= 1
  {
  }

  /** A book published on 1 January 1970, or only dated "1970", gets the
    * zero date, like a book without a date: the date library cannot tell
    * them apart. */
  lemma PublicationDateEpoch(month: int, day: int)
    requires month == 0 || month == 1
    requires day == 0 || day == 1
    ensures IsZeroDate(PublicationDate(1970, month, day))
  {
  }

  /* ---------- template data ---------- */

  /** The two bluemonday policies of pkg/gr/text.go, as functions. */
  datatype Policies = Policies(text: string -> string, markdown: string -> string)

  /** `Book.DescriptionText`. */
  function DescriptionText(pol: Policies, b: Book): string
  {
    HTML2Text(pol.text, b.description)
  }

  /** `Book.DescriptionMarkdown`. */
  function DescriptionMarkdown(pol: Policies, b: Book): string
  {
    HTML2Markdown(pol.markdown, b.description)
  }

  /** The keys of the template data. */
  datatype DataKey =
    | Title | TitleNoSeries | SeriesName | SeriesID | BookID | ISBN | WorkID
    | Description | DescriptionHTML | DescriptionMarkdown | AuthorName | AuthorID
    | AuthorURLKey | Year | Rating | BookURLKey | ImageURL

  /** The variable name of each key. */
  function KeyName(k: DataKey): string
  {
    match k
    case Title => "TITLE"
    case TitleNoSeries => "TITLE_NO_SERIES"
    case SeriesName => "SERIES"
    case SeriesID => "SERIES_ID"
    case BookID => "BOOK_ID"
    case ISBN => "ISBN"
    case WorkID => "WORK_ID"
    case Description => "DESCRIPTION"
    case DescriptionHTML => "DESCRIPTION_HTML"
    case DescriptionMarkdown => "DESCRIPTION_MARKDOWN"
    case AuthorName => "AUTHOR"
    case AuthorID => "AUTHOR_ID"
    case AuthorURLKey => "AUTHOR_URL"
    case Year => "YEAR"
    case Rating => "RATING"
    case BookURLKey => "BOOK_URL"
    case ImageURL => "IMAGE_URL"
  }

  /** The value of each key before filtering. */
  function RawValue(pol: Policies, b: Book, k: DataKey): string
  {
    match k
    case Title => b.title
    case TitleNoSeries => b.titleNoSeries
    case SeriesName => b.series.title
    case SeriesID => IntToDec(b.series.id)
    case BookID => IntToDec(b.id)
    case ISBN => b.isbn
    case WorkID => IntToDec(b.workID)
    case Description => DescriptionText(pol, b)
    case DescriptionHTML => b.description
    case DescriptionMarkdown => DescriptionMarkdown(pol, b)
    case AuthorName => b.author.name
    case AuthorID => IntToDec(b.author.id)
    case AuthorURLKey => b.author.url
    case Year => YearText(b.pubDate)
    case Rating => FormatFixed(b.rating, 6)
    case BookURLKey => b.url
    case ImageURL => b.imageURL
  }

  /** The map `Data` builds before filtering: every key with its value. */
  function RawData(pol: Policies, b: Book): (m: map<DataKey, string>)
    ensures forall k :: k in m && m[k] == RawValue(pol, b, k)
  {
    map k: DataKey | true :: RawValue(pol, b, k)
  }

  /** A value `Data` keeps: neither empty nor "0". */
  predicate Meaningful(v: string)
  {
    v != "" && v != "0"
  }

  /** The entries of `m` whose values are meaningful. */
  function KeptData(m: map<DataKey, string>): map<DataKey, string>
  {
    map k | k in m && Meaningful(m[k]) :: m[k]
  }

  /** `Book.Data`: the loop over the map, keeping meaningful values. */
  method Data(pol: Policies, b: Book) returns (out: map<DataKey, string>)
    ensures out == KeptData(RawData(pol, b))
    ensures forall k :: k in out <==> k in RawData(pol, b) && Meaningful(RawData(pol, b)[k])
    ensures forall k :: k in out ==> out[k] == RawData(pol, b)[k]
  {
    var data := RawData(pol, b);
    var todo := data.Keys;
    out := map[];
    while todo != {}
      invariant todo <= data.Keys
      invariant forall k :: k in out <==> k in data && k !in todo && Meaningful(data[k])
      invariant forall k :: k in out ==> out[k] == data[k]
      decreases |todo|
    {
      var k :| k in todo;
      var v := data[k];
      if !(v == "" || v == "0") {
        out := out[k := v];
      }
      todo := todo - {k};
    }
  }

  /** An ID is printed as "0" exactly when it is 0. */
  lemma IntToDecZero(x: int)
    ensures IntToDec(x) == "0" <==> x == 0
    ensures IntToDec(x) != ""
  {
    if x < 0 {
      assert IntToDec(x)[0] == '-';
    }
  }

  /** The ID entries are present exactly when the IDs are set. */
  lemma DataIDs(pol: Policies, b: Book)
    ensures BookID in KeptData(RawData(pol, b)) <==> b.id != 0
    ensures WorkID in KeptData(RawData(pol, b)) <==> b.workID != 0
    ensures SeriesID in KeptData(RawData(pol, b)) <==> b.series.id != 0
    ensures AuthorID in KeptData(RawData(pol, b)) <==> b.author.id != 0
  {
    IntToDecZero(b.id);
    IntToDecZero(b.workID);
    IntToDecZero(b.series.id);
    IntToDecZero(b.author.id);
  }

  /** The text entries are present exactly when the text is neither empty
    * nor "0". */
  lemma DataTexts(pol: Policies, b: Book)
    ensures Title in KeptData(RawData(pol, b)) <==> Meaningful(b.title)
    ensures SeriesName in KeptData(RawData(pol, b)) <==> Meaningful(b.series.title)
    ensures AuthorName in KeptData(RawData(pol, b)) <==> Meaningful(b.author.name)
    ensures BookURLKey in KeptData(RawData(pol, b)) <==> Meaningful(b.url)
  {
  }

  lemma DotMeaningful(s: string)
    requires '.' in s
    ensures Meaningful(s)
  {
    if |s| == 1 {
      assert s[0] == '.';
    }
  }

  /** "%f" always has a decimal point and the year text always has at
    * least four characters, so RATING and YEAR are never dropped: a book without a date
    * gets the year of the zero date. */
  lemma DataYearAndRating(pol: Policies, b: Book)
    ensures Rating in KeptData(RawData(pol, b))
    ensures Year in KeptData(RawData(pol, b))
  {
    var m := RawData(pol, b);
    var r := FormatFixed(b.rating, 6);
    assert m[Rating] == r;
    DotMeaningful(r);
    var y := YearText(b.pubDate);
    assert m[Year] == y;
    assert |y| >= 4;
  }

  /* ---------- URLs and guards ---------- */

  /** pkg/gr/book.go `urlForQuery`, on the already escaped query. */
  function URLForQuery(query: string): (u: string)
    ensures u == "" <==> query == ""
    ensures u != "" ==> (HasPrefix(u, "https://www.goodreads.com/search/index.xml?q=")
      && u[|"https://www.goodreads.com/search/index.xml?q="|..] == query)
  {
    if query == "" then "" else "https://www.goodreads.com/search/index.xml?q=" + query
  }

  /** Page 0 stands for the first page. */
  function PageOrFirst(page: int): (p: int)
    ensures page != 0 ==> p == page
    ensures p != 0
  {
    if page == 0 then 1 else page
  }

  /** pkg/gr/book.go `urlForAuthor`. */
  function URLForAuthor(id: int, page: int): (u: string)
    ensures u != ""
  {
    "https://www.goodreads.com/author/list.xml?id=" + IntToDec(id) + "&page=" + IntToDec(PageOrFirst(page))
  }

  /** Asking for page 0 and for page 1 is the same request. */
  lemma URLForAuthorFirstPage(id: int)
    ensures URLForAuthor(id, 0) == URLForAuthor(id, 1)
  {
  }

  /* ---------- decoded records ---------- */

  /** One `search>results>work` record. */
  datatype SearchWork = SearchWork(
    id: Int64, workID: Int64, title: string, author: Author,
    year: int, month: int, day: int, rating: real, imageURL: string)

  /** One search result: title and series from the title, the author's
    * URL rebuilt from its ID. */
  function SearchBook(w: SearchWork): (b: Book)
    ensures b.id == w.id && b.workID == w.workID && b.title == w.title
    ensures b.url == BookURL(w.id) && b.author.url == AuthorURL(w.author.id)
  {
    var parsed := ParseTitle(w.title);
    Book(w.id, w.workID, "", "", w.title, parsed.0, parsed.1,
         Author(w.author.id, w.author.name, AuthorURL(w.author.id)),
         PublicationDate(w.year, w.month, w.day), w.rating, "", BookURL(w.id), w.imageURL)
  }

  /** pkg/gr/book.go `unmarshalSearchResults`: the append loop, one book
    * per record, in order. */
  method UnmarshalSearchResults(works: seq<SearchWork>) returns (books: seq<Book>)
    ensures books == Map(SearchBook, works)
    ensures |books| == |works|
    ensures forall i :: 0 <= i < |works| ==> books[i] == SearchBook(works[i])
  {
    books := MapLoop(SearchBook, works);
  }

  /** One `book` record of an author list or a shelf page (the two
    * responses have the same fields). */
  datatype ListRecord = ListRecord(
    id: Int64, isbn: string, isbn13: string, title: string, titleNoSeries: string,
    description: string, year: int, month: int, day: int, authors: seq<Author>,
    rating: real, imageURL: string)

  /** The first listed author with its URL rebuilt, or no author. */
  function FirstAuthor(authors: seq<Author>): (a: Author)
    ensures authors == [] ==> a == ZeroAuthor
    ensures authors != [] ==> a.id == authors[0].id && a.name == authors[0].name && a.url == AuthorURL(a.id)
  {
    if authors == [] then ZeroAuthor
    else authors[0].(url := AuthorURL(authors[0].id))
  }

  /** One listed book: the series comes from the title, but the title
    * without series is the one the record carries. */
  function ListBook(r: ListRecord): (b: Book)
    ensures b.id == r.id && b.title == r.title && b.titleNoSeries == r.titleNoSeries
    ensures b.series == ParseTitle(r.title).1 && b.url == BookURL(r.id)
    ensures b.author == FirstAuthor(r.authors)
  {
    Book(r.id, 0, r.isbn, r.isbn13, r.title, r.titleNoSeries, ParseTitle(r.title).1,
         FirstAuthor(r.authors), PublicationDate(r.year, r.month, r.day), r.rating,
         r.description, BookURL(r.id), r.imageURL)
  }

  /** The start, end and total attributes of a list. */
  datatype ListAttrs = ListAttrs(start: int, end: int, total: int)

  /** The append loop shared by `unmarshalAuthorBooks` and
    * `unmarshalShelf`: the page attributes are copied and there is one
    * book per record, in order. */
  method UnmarshalList(attrs: ListAttrs, records: seq<ListRecord>) returns (books: seq<Book>, meta: PageData)
    ensures meta == PageData(attrs.start, attrs.end, attrs.total)
    ensures books == Map(ListBook, records)
    ensures |books| == |records|
    ensures forall i :: 0 <= i < |records| ==> books[i] == ListBook(records[i])
  {
    meta := PageData(attrs.start, attrs.end, attrs.total);
    books := MapLoop(ListBook, records);
  }

  /** The `book` record of a book-details response. */
  datatype DetailRecord = DetailRecord(
    id: Int64, workID: Int64, isbn: string, isbn13: string, title: string,
    titleNoSeries: string, seriesName: string, seriesPosition: real, seriesID: Int64,
    authors: seq<Author>, year: int, month: int, day: int, rating: real,
    description: string, imageURL: string)

  /** pkg/gr/book.go `unmarshalBookDetails` after decoding: the title
    * without series is the work's original title, or the parsed title
    * when the work has none; the series name is trimmed. */
  function BookDetails(r: DetailRecord): (b: Book)
    ensures r.titleNoSeries != "" ==> b.titleNoSeries == r.titleNoSeries
    ensures r.titleNoSeries == "" ==> b.titleNoSeries == ParseTitle(r.title).0
    ensures b.series == Series(TrimSpace(r.seriesName), r.seriesPosition, r.seriesID, [])
    ensures b.author == FirstAuthor(r.authors)
  {
    var title := if r.titleNoSeries != "" then r.titleNoSeries else ParseTitle(r.title).0;
    Book(r.id, r.workID, r.isbn, r.isbn13, r.title, title,
         Series(TrimSpace(r.seriesName), r.seriesPosition, r.seriesID, []),
         FirstAuthor(r.authors), PublicationDate(r.year, r.month, r.day), r.rating,
         r.description, BookURL(r.id), r.imageURL)
  }

  /** Without an original title, a title with no series information is
    * used as it is. */
  lemma BookDetailsPlainTitle(r: DetailRecord)
    requires r.titleNoSeries == ""
    requires Match(HashPattern, r.title).None? && Match(SeriesBookPattern, r.title).None?
    ensures BookDetails(r).titleNoSeries == r.title
  {
    ParseTitleNoMatch(r.title);
  }
}
