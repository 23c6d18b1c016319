/** The Goodreads API client (pkg/gr/goodreads.go, pkg/gr/http.go): its
  * construction, the one-request-per-second throttle of `apiRequest`, the
  * method and status handling of `httpRequest`, and the request guards
  * of the API calls built on them.
  *
  * The network is the parameter `net`: the outcome of sending a request
  * with a given method to a given URL. The clock is read through the
  * parameters `now` (before the request) and `finish` (after it); OAuth
  * is the outcome `authed` of `AuthedClient`. */
module GrClient {
  import opened Wrappers
  import opened Strings
  import opened Numbers
  import opened GrTypes
  import opened GrBook
  import opened GrShelf
  import opened GrFeed
  import opened GrSeries
  import opened Seqs

  /** An OAuth access token and its secret. */
  datatype Token = Token(token: string, secret: string)

  /** The errors of the client. `Wrapped` is errors.Wrap: a context
    * put in front of a cause. */
  datatype Error =
    | EmptyQuery                          // errEmptyQuery
    | NoAPIClient                         // AuthedClient failed
    | BuildRequest                        // http.NewRequest failed
    | Retrieve                            // client.Do failed
    | BadStatus(url: string, status: int) // status above 299
    | ReadBody                            // reading the body failed
    | DecodeFailed                        // xml.Unmarshal failed
    | LoadCredentials                     // TokenStore.Load failed
    | Wrapped(context: string, cause: Error)

  /** The body of a response, or why there is none. */
  datatype Fetch = Fetched(data: string) | Failed(error: Error)

  /** What one request meets on the wire: http.NewRequest refusing it,
    * client.Do failing, or a response whose body can (Some) or cannot
    * (None) be read. */
  datatype Outcome = BuildFailed | TransportFailed | Response(status: int, body: Option<string>)

  /** The network: the outcome of a request with a method and a URL. */
  type Network = (string, string) -> Outcome

  /** The method of `httpRequest`: the first optional argument, else GET,
    * upper-cased. */
  function RequestMethod(meth: seq<string>): (m: string)
    ensures meth == [] ==> m == "GET"
    ensures meth != [] ==> m == ToUpper(meth[0])
  {
    ToUpper(if |meth| > 0 then meth[0] else "GET")
  }

  /** `httpRequest`: a status above 299 is an error naming the URL and the
    * status; otherwise the whole body is the result. */
  function HttpRequest(net: Network, url: string, meth: seq<string>): (r: Fetch)
    ensures r.Fetched? <==> net(RequestMethod(meth), url).Response?
                            && net(RequestMethod(meth), url).status <= 299
                            && net(RequestMethod(meth), url).body.Some?
    ensures r.Fetched? ==> r.data == net(RequestMethod(meth), url).body.value
    ensures net(RequestMethod(meth), url).Response? && net(RequestMethod(meth), url).status > 299 ==>
      r == Failed(Wrapped("retrieve URL", BadStatus(url, net(RequestMethod(meth), url).status)))
    ensures r.Failed? ==> r.error != EmptyQuery && r.error != NoAPIClient
  {
    match net(RequestMethod(meth), url)
    case BuildFailed => Failed(Wrapped("build HTTP request", BuildRequest))
    case TransportFailed => Failed(Wrapped("retrieve URL", Retrieve))
    case Response(status, body) =>
      if status > 299 then Failed(Wrapped("retrieve URL", BadStatus(url, status)))
      else if body.None? then Failed(Wrapped("read HTTP response", ReadBody))
      else Fetched(body.value)
  }

  /** A GET and a "get" are the same request. */
  lemma MethodCase(net: Network, url: string)
    ensures HttpRequest(net, url, ["get"]) == HttpRequest(net, url, [])
  {
    assert RequestMethod(["get"]) == "GET";
  }

  /** The pause `apiRequest` takes before a request at time `now`: the
    * rest of the second since the last successful request. The zero time
    * (no request yet) lies a saturated Duration ago, so it never pauses. */
  function Pause(lastRequest: Option<int>, now: int): (d: int)
    ensures d >= 0
    ensures lastRequest.None? ==> d == 0
    ensures lastRequest.Some? && now - lastRequest.value >= Second ==> d == 0
    ensures lastRequest.Some? && now >= lastRequest.value ==> d <= Second
  {
    match lastRequest
    case None => 0
    case Some(t) => if now - t < Second then Second - (now - t) else 0
  }

  /** The request goes out no earlier than one second after the last, and
    * no later than needed. */
  lemma PauseSpacing(lastRequest: Option<int>, now: int)
    ensures lastRequest.Some? ==> now + Pause(lastRequest, now) >= lastRequest.value + Second
    ensures lastRequest.Some? && now - lastRequest.value < Second ==>
      now + Pause(lastRequest, now) == lastRequest.value + Second
  {
  }

  /** `url.Parse`, then `Query().Get("key")`, `Set("key", "xxx")` and
    * `String()`, given as `parse` and `render`: only a URL that parses
    * and carries a key is rewritten, with the key hidden. */
  function CleanURL(parse: string -> Option<ParsedURL>, render: ParsedURL -> string, u: string): (r: string)
    ensures r != u ==> parse(u).Some? && QueryGet(parse(u).value.query, "key") != ""
    ensures parse(u).Some? && QueryGet(parse(u).value.query, "key") != "" ==>
      r == render(parse(u).value.(query := QuerySet(parse(u).value.query, "key", "xxx")))
  {
    match parse(u)
    case None => u
    case Some(p) =>
      if QueryGet(p.query, "key") != "" then render(p.(query := QuerySet(p.query, "key", "xxx"))) else u
  }

  /** When rendering and parsing agree, a cleaned URL carries no key but
    * "xxx". */
  lemma CleanURLHidesKey(parse: string -> Option<ParsedURL>, render: ParsedURL -> string, u: string)
    requires forall p :: parse(render(p)) == Some(p)
    ensures var c := CleanURL(parse, render, u);
      parse(c).Some? ==> QueryGet(parse(c).value.query, "key") in {"", "xxx"}
  {
    var c := CleanURL(parse, render, u);
    if parse(u).Some? && QueryGet(parse(u).value.query, "key") != "" {
      var p := parse(u).value;
      assert parse(c) == Some(p.(query := QuerySet(p.query, "key", "xxx")));
    }
  }

  /** The book details request `BookDetails` sends, with the API key. */
  function BookDetailsURL(id: int, apiKey: string): (u: string)
    ensures HasPrefix(u, "https://www.goodreads.com/book/show/") && HasSuffix(u, apiKey)
  {
    "https://www.goodreads.com/book/show/" + IntToDec(id) + ".xml?key=" + apiKey
  }

  /** The series request `Series` sends, with the API key. */
  function SeriesURL(id: int, apiKey: string): (u: string)
    ensures HasPrefix(u, "https://www.goodreads.com/series/") && HasSuffix(u, apiKey)
  {
    "https://www.goodreads.com/series/" + IntToDec(id) + "?format=xml&key=" + apiKey
  }

  /** The POST that adds a book to several shelves. */
  function AddToShelvesURL(encode: Query -> string, bookID: int, names: seq<string>): string
  {
    "https://www.goodreads.com/shelf/add_books_to_shelves.xml?" + encode(AddToShelvesQuery(bookID, names))
  }

  /** The POST that adds a book to, or removes it from, one shelf. */
  function AddRemoveShelfURL(encode: Query -> string, bookID: int, shelf: string, remove: bool): string
  {
    "https://www.goodreads.com/shelf/add_to_shelf.xml?" + encode(AddRemoveShelfQuery(bookID, shelf, remove))
  }

  class Client {
    var apiKey: string
    var apiSecret: string
    /** The OAuth token, set only when both parts were stored. */
    var token: Option<Token>
    /** When the last successful API request finished; None is Go's zero
      * time. */
    var lastRequest: Option<int>

    /** The struct literal of `New`. */
    constructor (apiKey: string, apiSecret: string)
      ensures this.apiKey == apiKey && this.apiSecret == apiSecret
      ensures token.None? && lastRequest.None?
    {
      this.apiKey := apiKey;
      this.apiSecret := apiSecret;
      token := None;
      lastRequest := None;
    }

    /** `New`: the stored credentials `loaded` (TokenStore.Load, None when
      * it fails) become the token when both are non-empty; a load error
      * is passed on with no client. */
    static method New(apiKey: string, apiSecret: string, loaded: Option<(string, string)>)
      returns (c: Client?, err: Option<Error>)
      ensures loaded.None? ==> c == null && err == Some(Wrapped("load OAuth credentials from store", LoadCredentials))
      ensures loaded.Some? ==> err.None? && c != null && fresh(c)
      ensures loaded.Some? ==> c.apiKey == apiKey && c.apiSecret == apiSecret && c.lastRequest.None?
      ensures loaded.Some? ==>
        (c.token.Some? <==> loaded.value.0 != "" && loaded.value.1 != "")
        && (c.token.Some? ==> c.token.value == Token(loaded.value.0, loaded.value.1))
    {
      var client := new Client(apiKey, apiSecret);
      if loaded.None? {
        return null, Some(Wrapped("load OAuth credentials from store", LoadCredentials));
      }
      var (t, s) := loaded.value;
      if t != "" && s != "" {
        client.token := Some(Token(t, s));
      }
      return client, None;
    }

    /** `apiRequest`: fails before anything else when there is no
      * authorised client; otherwise pauses for `Pause(lastRequest, now)`,
      * sends the request, and records the time `finish` only when the
      * request succeeded. Returns the result and the pause taken. */
    method ApiRequest(authed: bool, net: Network, url: string, meth: seq<string>, now: int, finish: int)
      returns (r: Fetch, pause: int)
      modifies this
      ensures apiKey == old(apiKey) && apiSecret == old(apiSecret) && token == old(token)
      ensures !authed ==> r == Failed(Wrapped("get API client", NoAPIClient)) && pause == 0
      ensures authed ==> pause == Pause(old(lastRequest), now) && r == HttpRequest(net, url, meth)
      ensures r.Fetched? ==> lastRequest == Some(finish)
      ensures r.Failed? ==> lastRequest == old(lastRequest)
    {
      if !authed {
        return Failed(Wrapped("get API client", NoAPIClient)), 0;
      }
      pause := Pause(lastRequest, now);
      r := HttpRequest(net, url, meth);
      if r.Fetched? {
        lastRequest := Some(finish);
      }
    }

    /** `httpGet`: the plain client, with no pause and no record. */
    method HttpGet(net: Network, url: string) returns (r: Fetch)
      ensures r == HttpRequest(net, url, [])
    {
      r := HttpRequest(net, url, []);
    }

    /** `Search`: an empty (escaped) query is refused before any request;
      * otherwise the results page is fetched and decoded by `decode`
      * (encoding/xml). */
    method Search(escape: string -> string, query: string, authed: bool, net: Network, now: int, finish: int,
                  decode: string -> Option<seq<SearchWork>>)
      returns (books: seq<Book>, err: Option<Error>)
      modifies this
      ensures escape(query) == "" <==> err == Some(EmptyQuery)
      ensures escape(query) == "" ==> books == [] && lastRequest == old(lastRequest)
      ensures err.None? ==> escape(query) != "" && authed
      ensures err.None? ==> var d := HttpRequest(net, URLForQuery(escape(query)), []);
        d.Fetched? && decode(d.data).Some? && books == Map(SearchBook, decode(d.data).value)
      ensures escape(query) != "" ==>
        lastRequest == if authed && HttpRequest(net, URLForQuery(escape(query)), []).Fetched? then Some(finish) else old(lastRequest)
      ensures apiKey == old(apiKey) && apiSecret == old(apiSecret) && token == old(token)
    {
      var u := URLForQuery(escape(query));
      if u == "" {
        return [], Some(EmptyQuery);
      }
      var data, _ := ApiRequest(authed, net, u, [], now, finish);
      if data.Failed? {
        return [], Some(data.error);
      }
      var works := decode(data.data);
      if works.None? {
        return [], Some(DecodeFailed);
      }
      books := UnmarshalSearchResults(works.value);
      err := None;
    }

    /** `BookDetails`: the book's details page, with the API key. */
    method BookDetails(id: Int64, authed: bool, net: Network, now: int, finish: int,
                       decode: string -> Option<DetailRecord>)
      returns (book: Book, err: Option<Error>)
      modifies this
      ensures err.None? <==> authed && HttpRequest(net, BookDetailsURL(id, apiKey), []).Fetched?
                              && decode(HttpRequest(net, BookDetailsURL(id, apiKey), []).data).Some?
      ensures err.None? ==> book == GrBook.BookDetails(decode(HttpRequest(net, BookDetailsURL(id, apiKey), []).data).value)
      ensures err.Some? ==> book == ZeroBook
      ensures lastRequest == if authed && HttpRequest(net, BookDetailsURL(id, apiKey), []).Fetched? then Some(finish) else old(lastRequest)
      ensures apiKey == old(apiKey) && apiSecret == old(apiSecret) && token == old(token)
    {
      var data, _ := ApiRequest(authed, net, BookDetailsURL(id, apiKey), [], now, finish);
      if data.Failed? {
        return ZeroBook, Some(Wrapped("fetch book details", data.error));
      }
      var decoded := decode(data.data);
      if decoded.None? {
        return ZeroBook, Some(DecodeFailed);
      }
      book := GrBook.BookDetails(decoded.value);
      err := None;
    }

    /** `Series`: the series page, with the API key. */
    method Series(id: Int64, authed: bool, net: Network, now: int, finish: int,
                  decode: string -> Option<SeriesRecord>)
      returns (series: GrTypes.Series, err: Option<Error>)
      modifies this
      ensures err.None? <==> authed && HttpRequest(net, SeriesURL(id, apiKey), []).Fetched?
                              && decode(HttpRequest(net, SeriesURL(id, apiKey), []).data).Some?
      ensures err.None? ==> var r := decode(HttpRequest(net, SeriesURL(id, apiKey), []).data).value;
        series.id == r.id && series.books == Map(SeriesBookOf(r.id, TrimSpace(r.title)), r.works)
      ensures err.Some? ==> series == ZeroSeries
      ensures lastRequest == if authed && HttpRequest(net, SeriesURL(id, apiKey), []).Fetched? then Some(finish) else old(lastRequest)
      ensures apiKey == old(apiKey) && apiSecret == old(apiSecret) && token == old(token)
    {
      var data, _ := ApiRequest(authed, net, SeriesURL(id, apiKey), [], now, finish);
      if data.Failed? {
        return ZeroSeries, Some(Wrapped("fetch series", data.error));
      }
      var decoded := decode(data.data);
      if decoded.None? {
        return ZeroSeries, Some(DecodeFailed);
      }
      series := UnmarshalSeries(decoded.value);
      err := None;
    }

    /** `AuthorBooks`: page 0 asks for page 1; the URL is never empty, so
      * this call never reports an empty query. */
    method AuthorBooks(id: Int64, page: int, authed: bool, net: Network, now: int, finish: int,
                       decode: string -> Option<(ListAttrs, seq<ListRecord>)>)
      returns (books: seq<Book>, meta: PageData, err: Option<Error>)
      modifies this
      ensures err != Some(EmptyQuery)
      ensures err.None? <==> authed && HttpRequest(net, URLForAuthor(id, page), []).Fetched?
                              && decode(HttpRequest(net, URLForAuthor(id, page), []).data).Some?
      ensures err.None? ==> var r := decode(HttpRequest(net, URLForAuthor(id, page), []).data).value;
        books == Map(ListBook, r.1) && meta == PageData(r.0.start, r.0.end, r.0.total)
      ensures err.Some? ==> books == [] && meta == ZeroPage
      ensures lastRequest == if authed && HttpRequest(net, URLForAuthor(id, page), []).Fetched? then Some(finish) else old(lastRequest)
      ensures apiKey == old(apiKey) && apiSecret == old(apiSecret) && token == old(token)
    {
      var p := PageOrFirst(page);
      var u := URLForAuthor(id, p);
      assert u == URLForAuthor(id, page);
      if u == "" {
        return [], ZeroPage, Some(EmptyQuery);
      }
      var data, _ := ApiRequest(authed, net, u, [], now, finish);
      if data.Failed? {
        return [], ZeroPage, Some(data.error);
      }
      var decoded := decode(data.data);
      if decoded.None? {
        return [], ZeroPage, Some(DecodeFailed);
      }
      books, meta := UnmarshalList(decoded.value.0, decoded.value.1);
      err := None;
    }

    /** `UserShelf`: one page of the books on a shelf. */
    method UserShelf(userID: Int64, name: string, page: int, authed: bool, net: Network, now: int, finish: int,
                     decode: string -> Option<(ListAttrs, seq<ListRecord>)>)
      returns (books: seq<Book>, meta: PageData, err: Option<Error>)
      modifies this
      ensures err.None? <==> authed && HttpRequest(net, UserShelfURL(userID, name, page), []).Fetched?
                              && decode(HttpRequest(net, UserShelfURL(userID, name, page), []).data).Some?
      ensures err.None? ==> var r := decode(HttpRequest(net, UserShelfURL(userID, name, page), []).data).value;
        books == Map(ListBook, r.1) && meta == PageData(r.0.start, r.0.end, r.0.total)
      ensures err.Some? ==> books == [] && meta == ZeroPage
      ensures lastRequest == if authed && HttpRequest(net, UserShelfURL(userID, name, page), []).Fetched? then Some(finish) else old(lastRequest)
      ensures apiKey == old(apiKey) && apiSecret == old(apiSecret) && token == old(token)
    {
      var data, _ := ApiRequest(authed, net, UserShelfURL(userID, name, page), [], now, finish);
      if data.Failed? {
        return [], ZeroPage, Some(Wrapped("fetch shelf", data.error));
      }
      var decoded := decode(data.data);
      if decoded.None? {
        return [], ZeroPage, Some(Wrapped("unmarshal shelf", DecodeFailed));
      }
      books, meta := UnmarshalShelf(decoded.value.0, decoded.value.1);
      err := None;
    }

    /** `UserShelves`: one page of the user's shelves, each given its web
      * page; an error leaves no shelves. */
    method UserShelves(escape: string -> string, userID: Int64, page: int, authed: bool, net: Network,
                       now: int, finish: int, decode: string -> Option<(ListAttrs, seq<ShelfRecord>)>)
      returns (shelves: seq<Shelf>, meta: PageData, err: Option<Error>)
      modifies this
      ensures err.None? <==> authed && HttpRequest(net, UserShelvesURL(userID, page), []).Fetched?
                              && decode(HttpRequest(net, UserShelvesURL(userID, page), []).data).Some?
      ensures err.None? ==> var r := decode(HttpRequest(net, UserShelvesURL(userID, page), []).data).value;
        shelves == Map(WithWebURL(escape, userID), Map(ListedShelf, r.1))
        && meta == PageData(r.0.start, r.0.end, r.0.total)
      ensures err.Some? ==> shelves == []
      ensures lastRequest == if authed && HttpRequest(net, UserShelvesURL(userID, page), []).Fetched? then Some(finish) else old(lastRequest)
      ensures apiKey == old(apiKey) && apiSecret == old(apiSecret) && token == old(token)
    {
      var data, _ := ApiRequest(authed, net, UserShelvesURL(userID, page), [], now, finish);
      if data.Failed? {
        return [], ZeroPage, Some(data.error);
      }
      var decoded := decode(data.data);
      if decoded.None? {
        return [], ZeroPage, Some(Wrapped("parse shelves data", DecodeFailed));
      }
      var listed;
      listed, meta := UnmarshalShelves(decoded.value.0, decoded.value.1);
      var a := new Shelf[|listed|](i requires 0 <= i < |listed| => listed[i]);
      assert a[..] == listed;
      SetShelfURLs(escape, userID, a);
      shelves := a[..];
      err := None;
    }

    /** `AddToShelves`: one POST with the shelf names comma-joined. */
    method AddToShelves(encode: Query -> string, bookID: Int64, names: seq<string>, authed: bool, net: Network,
                        now: int, finish: int)
      returns (err: Option<Error>)
      modifies this
      ensures err.None? <==> authed && HttpRequest(net, AddToShelvesURL(encode, bookID, names), ["POST"]).Fetched?
      ensures lastRequest == if err.None? then Some(finish) else old(lastRequest)
      ensures apiKey == old(apiKey) && apiSecret == old(apiSecret) && token == old(token)
    {
      var data, _ := ApiRequest(authed, net, AddToShelvesURL(encode, bookID, names), ["POST"], now, finish);
      err := if data.Failed? then Some(data.error) else None;
    }

    /** `addRemoveShelf`: one POST that adds the book to the shelf, or
      * removes it when `remove` is set. */
    method AddRemoveShelf(encode: Query -> string, bookID: Int64, shelf: string, remove: bool, authed: bool,
                          net: Network, now: int, finish: int)
      returns (err: Option<Error>)
      modifies this
      ensures err.None? <==> authed && HttpRequest(net, AddRemoveShelfURL(encode, bookID, shelf, remove), ["POST"]).Fetched?
      ensures lastRequest == if err.None? then Some(finish) else old(lastRequest)
      ensures apiKey == old(apiKey) && apiSecret == old(apiSecret) && token == old(token)
    {
      var data, _ := ApiRequest(authed, net, AddRemoveShelfURL(encode, bookID, shelf, remove), ["POST"], now, finish);
      err := if data.Failed? then Some(data.error) else None;
    }

    /** `AddToShelf`: `addRemoveShelf` without removal, its error wrapped. */
    method AddToShelf(encode: Query -> string, bookID: Int64, shelf: string, authed: bool,
                      net: Network, now: int, finish: int)
      returns (err: Option<Error>)
      modifies this
      ensures err.None? <==> authed && HttpRequest(net, AddRemoveShelfURL(encode, bookID, shelf, false), ["POST"]).Fetched?
      ensures err.Some? ==> err.value.Wrapped? && err.value.context == "add to shelf"
      ensures lastRequest == if err.None? then Some(finish) else old(lastRequest)
      ensures apiKey == old(apiKey) && apiSecret == old(apiSecret) && token == old(token)
    {
      var e := AddRemoveShelf(encode, bookID, shelf, false, authed, net, now, finish);
      err := if e.Some? then Some(Wrapped("add to shelf", e.value)) else None;
    }

    /** `RemoveFromShelf`: `addRemoveShelf` with removal, its error wrapped. */
    method RemoveFromShelf(encode: Query -> string, bookID: Int64, shelf: string, authed: bool,
                           net: Network, now: int, finish: int)
      returns (err: Option<Error>)
      modifies this
      ensures err.None? <==> authed && HttpRequest(net, AddRemoveShelfURL(encode, bookID, shelf, true), ["POST"]).Fetched?
      ensures err.Some? ==> err.value.Wrapped? && err.value.context == "remove from shelf"
      ensures lastRequest == if err.None? then Some(finish) else old(lastRequest)
      ensures apiKey == old(apiKey) && apiSecret == old(apiSecret) && token == old(token)
    {
      var e := AddRemoveShelf(encode, bookID, shelf, true, authed, net, now, finish);
      err := if e.Some? then Some(Wrapped("remove from shelf", e.value)) else None;
    }

    /** `FetchFeed`: the RSS feed is fetched with the plain client, so it
      * neither waits for nor counts as an API request. */
    method FetchFeed(escape: string -> string, userID: Int64, shelf: string, net: Network,
                     decode: string -> Option<(string, seq<FeedItem>)>)
      returns (feed: Feed, err: Option<Error>)
      ensures err.None? <==> HttpRequest(net, FeedURL(escape, userID, shelf), []).Fetched?
                             && decode(HttpRequest(net, FeedURL(escape, userID, shelf), []).data).Some?
      ensures err.None? ==> var r := decode(HttpRequest(net, FeedURL(escape, userID, shelf), []).data).value;
        feed.name == ParseFeedTitle(r.0) && feed.books == Map(FeedBook, r.1)
      ensures err.Some? ==> feed == Feed("", [])
    {
      var data := HttpGet(net, FeedURL(escape, userID, shelf));
      if data.Failed? {
        return Feed("", []), Some(Wrapped("retrive feed", data.error));
      }
      var decoded := decode(data.data);
      if decoded.None? {
        return Feed("", []), Some(Wrapped("unmarshal feed", DecodeFailed));
      }
      feed := UnmarshalFeed(decoded.value.0, decoded.value.1);
      err := None;
    }
  }

  /** A fresh client's first API request does not wait. */
  lemma FirstRequestNoPause(now: int)
    ensures Pause(None, now) == 0
  {
  }

  /** `AuthorBooks` and the legacy author query never see an empty URL. */
  lemma AuthorURLNeverEmpty(id: int, page: int)
    ensures URLForAuthor(id, page) != ""
  {
  }
}
