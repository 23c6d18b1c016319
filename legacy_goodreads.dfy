/** The Goodreads client of the first version of the workflow
  * (goodreads.go): its book and author records, their comparison, the
  * template data of a book, the two request URLs, the search and
  * author-list requests with the HTTP exchange as a parameter, and the
  * post-processing of the decoded XML records. */
module LegacyGoodreads {
  import opened Wrappers
  import opened Strings
  import opened Numbers
  import opened Seqs
  import GrTypes
  import GrBook
  import GrTitle

  type Author = GrTypes.Author
  type Date = GrTypes.Date

  /** A book of the first version: no series, ISBN or description. */
  datatype Book = Book(id: Int64, title: string, author: Author, pubDate: Date, rating: real,
                       url: string, imageURL: string)

  /* ---------- comparison ---------- */

  /** `Author.Eq`: the fields compared one after the other, stopping at
    * the first that differs. It is exactly equality. */
  function AuthorEq(a: Author, other: Author): (r: bool)
    ensures r <==> a == other
  {
    if a.id != other.id then false
    else if a.name != other.name then false
    else if a.url != other.url then false
    else true
  }

  /** `Book.Eq`: the ID, title, author, publication date, rating and the
    * two URLs compared in turn. A zero date differs from every set date,
    * and two set dates are compared as dates; two zero dates agree, so
    * the comparison is exactly equality. */
  function BookEq(b: Book, other: Book): (r: bool)
    ensures r <==> b == other
  {
    var zero, otherZero := GrTypes.IsZeroDate(b.pubDate), GrTypes.IsZeroDate(other.pubDate);
    if b.id != other.id then false
    else if b.title != other.title then false
    else if !AuthorEq(b.author, other.author) then false
    else if (zero && !otherZero) || (!zero && otherZero) then false
    else if !zero && b.pubDate != other.pubDate then false
    else if b.rating != other.rating then false
    else if b.url != other.url then false
    else if b.imageURL != other.imageURL then false
    else true
  }

  /** A book compares equal to another only if both or neither have a
    * publication date. */
  lemma BookEqZeroDate(b: Book, other: Book)
    requires GrTypes.IsZeroDate(b.pubDate) != GrTypes.IsZeroDate(other.pubDate)
    ensures !BookEq(b, other)
  {
  }

  /* ---------- template data ---------- */

  /** The names `Book.Data` gives a book's fields. */
  datatype Field =
    | Title | TitleNoSeries | AuthorName | AuthorID | AuthorURL | AuthorTitle | AuthorTitleNoSeries
    | Year | Rating | URL | ImageURL

  function FieldName(f: Field): string
  {
    match f
    case Title => "Title"
    case TitleNoSeries => "TitleNoSeries"
    case AuthorName => "Author"
    case AuthorID => "AuthorID"
    case AuthorURL => "AuthorURL"
    case AuthorTitle => "AuthorTitle"
    case AuthorTitleNoSeries => "AuthorTitleNoSeries"
    case Year => "Year"
    case Rating => "Rating"
    case URL => "URL"
    case ImageURL => "ImageURL"
  }

  /** Different fields have different names. */
  lemma FieldNameInjective(a: Field, b: Field)
    requires FieldName(a) == FieldName(b)
    ensures a == b
  {
  }

  const AllFields: set<Field> :=
    {Title, TitleNoSeries, AuthorName, AuthorID, AuthorURL, AuthorTitle, AuthorTitleNoSeries, Year, Rating, URL,
     ImageURL}

  /** Every field is among the eleven. */
  lemma AllFieldsComplete(f: Field)
    ensures f in AllFields
  {
    match f
    case Title =>
    case TitleNoSeries =>
    case AuthorName =>
    case AuthorID =>
    case AuthorURL =>
    case AuthorTitle =>
    case AuthorTitleNoSeries =>
    case Year =>
    case Rating =>
    case URL =>
    case ImageURL =>
  }

  /** The value `Book.Data` gives a field: the title without its series,
    * the author followed by the title with and without it, the year, and
    * the rating formatted by `%f`. */
  function FieldValue(b: Book, f: Field): string
  {
    match f
    case Title => b.title
    case TitleNoSeries => GrTitle.TrimSeries(b.title)
    case AuthorName => b.author.name
    case AuthorID => IntToDec(b.author.id)
    case AuthorURL => b.author.url
    case AuthorTitle => b.author.name + " " + b.title
    case AuthorTitleNoSeries => b.author.name + " " + GrTitle.TrimSeries(b.title)
    case Year => GrTypes.YearText(b.pubDate)
    case Rating => FormatFixed(b.rating, 6)
    case URL => b.url
    case ImageURL => b.imageURL
  }

  /** `Book.Data`: the map of all eleven fields. */
  function Data(b: Book): map<Field, string>
  {
    map f | f in AllFields :: FieldValue(b, f)
  }

  /** `trimSeries` only ever cuts the end off a title. */
  lemma TrimSeriesPrefix(title: string)
    ensures HasPrefix(title, GrTitle.TrimSeries(title))
  {
  }

  /** The data has every field. The title without series is a beginning
    * of the title, and is the whole title when it names no series; the
    * combined fields are the author's name, a space, and the title
    * (without series). */
  lemma DataFields(b: Book)
    ensures forall f: Field :: f in Data(b)
    ensures HasPrefix(Data(b)[Title], Data(b)[TitleNoSeries])
    ensures GrTitle.Match(GrTitle.LegacyPattern, b.title).None? ==> Data(b)[TitleNoSeries] == b.title
    ensures Data(b)[AuthorTitle] == Data(b)[AuthorName] + " " + Data(b)[Title]
    ensures Data(b)[AuthorTitleNoSeries] == Data(b)[AuthorName] + " " + Data(b)[TitleNoSeries]
    ensures HasPrefix(Data(b)[AuthorTitle], Data(b)[AuthorTitleNoSeries])
  {
    forall f: Field ensures f in Data(b) {
      AllFieldsComplete(f);
    }
    TrimSeriesPrefix(b.title);
    var t, n := b.title, GrTitle.TrimSeries(b.title);
    var p := b.author.name + " ";
    assert (p + t)[..|p + n|] == p + t[..|n|];
  }

  /* ---------- URLs ---------- */

  const SearchURL: string := "https://www.goodreads.com/search/index.xml?key="
  const AuthorListURL: string := "https://www.goodreads.com/author/list.xml?key="

  /** `urlForQuery` on the escaped query and key: no URL for an empty
    * query. */
  function URLForQuery(query: string, apiKey: string): (u: string)
    ensures u == "" <==> query == ""
    ensures u != "" ==> HasPrefix(u, SearchURL + apiKey + "&q=")
  {
    if query == "" then "" else SearchURL + apiKey + "&q=" + query
  }

  /** With the same key, different queries ask for different URLs. */
  lemma URLForQueryInjective(q1: string, q2: string, apiKey: string)
    requires URLForQuery(q1, apiKey) == URLForQuery(q2, apiKey)
    ensures q1 == q2
  {
    if q1 != "" {
      var p := SearchURL + apiKey + "&q=";
      assert URLForQuery(q1, apiKey)[|p|..] == q1;
      assert URLForQuery(q2, apiKey)[|p|..] == q2;
    }
  }

  /** `urlForAuthor` on the escaped ID and key: page 0 is read as page 1,
    * and the URL is never empty. */
  function URLForAuthor(id: string, apiKey: string, page: int): (u: string)
    ensures u != ""
  {
    AuthorListURL + apiKey + "&id=" + id + "&page=" + IntToDec(GrBook.PageOrFirst(page))
  }

  /** Page 0 and page 1 are the same request; other page numbers are kept
    * and name different requests. */
  lemma URLForAuthorPages(id: string, apiKey: string, p1: int, p2: int)
    ensures URLForAuthor(id, apiKey, 0) == URLForAuthor(id, apiKey, 1)
    ensures p1 != 0 && p2 != 0 && URLForAuthor(id, apiKey, p1) == URLForAuthor(id, apiKey, p2) ==> p1 == p2
  {
    if p1 != 0 && p2 != 0 && URLForAuthor(id, apiKey, p1) == URLForAuthor(id, apiKey, p2) {
      var prefix := AuthorListURL + apiKey + "&id=" + id + "&page=";
      assert URLForAuthor(id, apiKey, p1)[|prefix|..] == IntToDec(p1);
      assert URLForAuthor(id, apiKey, p2)[|prefix|..] == IntToDec(p2);
      IntToDecInjective(p1, p2);
    }
  }

  /* ---------- decoded records ---------- */

  /** One `search>results>work` record. */
  datatype Work = Work(id: Int64, title: string, author: Author, year: int, month: int, day: int,
                       rating: real, imageURL: string)

  /** One search result: the book URL made from the ID, the author's URL
    * from the author's ID, and the date patched as in every `unmarshal*`
    * loop. */
  function WorkBook(w: Work): (b: Book)
    ensures b.id == w.id && b.title == w.title && b.rating == w.rating && b.imageURL == w.imageURL
    ensures b.url == GrTypes.BookURL(w.id)
    ensures b.author.id == w.author.id && b.author.name == w.author.name
    ensures b.author.url == GrTypes.AuthorURL(w.author.id)
  {
    Book(w.id, w.title, GrTypes.Author(w.author.id, w.author.name, GrTypes.AuthorURL(w.author.id)),
         GrBook.PublicationDate(w.year, w.month, w.day), w.rating, GrTypes.BookURL(w.id), w.imageURL)
  }

  /** The first version reads a search result as the current one does:
    * every field both versions have agrees. */
  lemma WorkBookAsCurrent(w: Work, workID: Int64)
    ensures var b := WorkBook(w);
      var c := GrBook.SearchBook(GrBook.SearchWork(w.id, workID, w.title, w.author, w.year, w.month, w.day,
                                                   w.rating, w.imageURL));
      c.id == b.id && c.title == b.title && c.author == b.author && c.pubDate == b.pubDate &&
      c.rating == b.rating && c.url == b.url && c.imageURL == b.imageURL
  {
  }

  /** `unmarshalSearchResults`, after decoding: one book per record, in
    * order. */
  method UnmarshalSearchResults(works: seq<Work>) returns (books: seq<Book>)
    ensures books == Map(WorkBook, works)
    ensures |books| == |works| && forall i :: 0 <= i < |works| ==> books[i] == WorkBook(works[i])
  {
    books := MapLoop(WorkBook, works);
  }

  /** One `author>books>book` record. */
  datatype ListedRecord = ListedRecord(id: Int64, title: string, year: int, month: int, day: int,
                                       authors: seq<Author>, rating: real, imageURL: string)

  /** One book of an author's list: the first listed author, with the
    * URL made from its ID, or the zero author when none is listed. */
  function ListedBook(r: ListedRecord): (b: Book)
    ensures b.id == r.id && b.title == r.title && b.url == GrTypes.BookURL(r.id)
    ensures r.authors == [] ==> b.author == GrTypes.ZeroAuthor
    ensures r.authors != [] ==>
      b.author.id == r.authors[0].id && b.author.name == r.authors[0].name &&
      b.author.url == GrTypes.AuthorURL(r.authors[0].id)
  {
    Book(r.id, r.title, GrBook.FirstAuthor(r.authors), GrBook.PublicationDate(r.year, r.month, r.day), r.rating,
         GrTypes.BookURL(r.id), r.imageURL)
  }

  /** `unmarshalAuthorBooks`, after decoding: the list's paging attributes
    * and one book per record, in order. */
  method UnmarshalAuthorBooks(start: int, end: int, total: int, records: seq<ListedRecord>)
    returns (books: seq<Book>, meta: GrTypes.PageData)
    ensures meta == GrTypes.PageData(start, end, total)
    ensures books == Map(ListedBook, records)
    ensures |books| == |records| && forall i :: 0 <= i < |records| ==> books[i] == ListedBook(records[i])
  {
    meta := GrTypes.PageData(start, end, total);
    books := MapLoop(ListedBook, records);
  }

  /* ---------- requests ---------- */

  /** The answer to a GET request: the status and, when the body could be
    * read and decoded, the decoded records; or a transport error. */
  datatype Response<T> = Response(status: int, statusText: string, decoded: Result<T>) | RequestFailed(error: string)

  /** The decoded author list: its start, end and total attributes and
    * its records. */
  datatype AuthorList = AuthorList(start: int, end: int, total: int, records: seq<ListedRecord>)

  /** The result of a response: a transport error, a status above 299 (its
    * text), or a read or decode error end the request. */
  function Answer<T, U>(resp: Response<T>, read: T -> U): (r: Result<U>)
    ensures resp.RequestFailed? ==> r == Err(resp.error)
    ensures resp.Response? && resp.status > 299 ==> r == Err(resp.statusText)
    ensures resp.Response? && resp.status <= 299 && resp.decoded.Err? ==> r == Err(resp.decoded.error)
    ensures resp.Response? && resp.status <= 299 && resp.decoded.Ok? ==> r == Ok(read(resp.decoded.value))
  {
    match resp
    case RequestFailed(e) => Err(e)
    case Response(status, text, decoded) =>
      if status > 299 then Err(text)
      else match decoded
        case Err(e) => Err(e)
        case Ok(v) => Ok(read(v))
  }

  const ErrEmptyQuery: string := "empty query"

  /** `search`: the query and key are query-escaped (`queryEscape`) into
    * the URL. An empty escaped query is `errEmptyQuery` and sends no
    * request; otherwise the single request's answer is read into books.
    * Returns the URL requested, if any. */
  function Search(query: string, apiKey: string, queryEscape: string -> string,
                  get: string -> Response<seq<Work>>): (r: (Result<seq<Book>>, Option<string>))
    ensures queryEscape(query) == "" <==> r.1.None?
    ensures r.1.None? ==> r.0 == Err(ErrEmptyQuery)
    ensures r.1.Some? ==>
      r.1.value == URLForQuery(queryEscape(query), queryEscape(apiKey)) &&
      r.0 == Answer(get(r.1.value), (works: seq<Work>) => Map(WorkBook, works))
  {
    var u := URLForQuery(queryEscape(query), queryEscape(apiKey));
    if u == "" then (Err(ErrEmptyQuery), None)
    else (Answer(get(u), (works: seq<Work>) => Map(WorkBook, works)), Some(u))
  }

  /** The books and paging attributes of a decoded author list. */
  function ListPage(l: AuthorList): (seq<Book>, GrTypes.PageData)
  {
    (Map(ListedBook, l.records), GrTypes.PageData(l.start, l.end, l.total))
  }

  /** `authorBooks`: page 0 is read as page 1, and the one request for the
    * page's URL is always sent: unlike `search`, the empty-URL guard
    * cannot fire. */
  function AuthorBooks(id: string, apiKey: string, page: int, queryEscape: string -> string,
                       get: string -> Response<AuthorList>): Result<(seq<Book>, GrTypes.PageData)>
  {
    var p := GrBook.PageOrFirst(page);
    Answer(get(URLForAuthor(queryEscape(id), queryEscape(apiKey), p)), ListPage)
  }

  /** Asking for page 0 is asking for page 1, and an author list is never
    * refused as an empty query: a transport error or a status above 299
    * is the only way a request fails before decoding. */
  lemma AuthorBooksPages(id: string, apiKey: string, page: int, queryEscape: string -> string,
                         get: string -> Response<AuthorList>)
    ensures AuthorBooks(id, apiKey, 0, queryEscape, get) == AuthorBooks(id, apiKey, 1, queryEscape, get)
    ensures var resp := get(URLForAuthor(queryEscape(id), queryEscape(apiKey), GrBook.PageOrFirst(page)));
      AuthorBooks(id, apiKey, page, queryEscape, get).Err? <==>
        resp.RequestFailed? || resp.status > 299 || resp.decoded.Err?
    ensures var resp := get(URLForAuthor(queryEscape(id), queryEscape(apiKey), GrBook.PageOrFirst(page)));
      AuthorBooks(id, apiKey, page, queryEscape, get).Ok? ==>
        AuthorBooks(id, apiKey, page, queryEscape, get).value ==
          (Map(ListedBook, resp.decoded.value.records),
           GrTypes.PageData(resp.decoded.value.start, resp.decoded.value.end, resp.decoded.value.total))
  {
  }
}
