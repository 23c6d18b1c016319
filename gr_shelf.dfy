/** Shelves (pkg/gr/shelf.go): display titles, ordering, the request
  * URLs and parameters, and the clean-up applied to decoded shelf
  * responses. */
module GrShelf {
  import opened Strings
  import opened Numbers
  import opened GrTypes
  import opened GrBook
  import opened Seqs

  /** `Shelf.Title`: the three built-in shelves get their display names;
    * any other shelf is shown by its own name. */
  function ShelfTitle(s: Shelf): (t: string)
    ensures s.name == "read" ==> t == "Read"
    ensures s.name == "currently-reading" ==> t == "Currently Reading"
    ensures s.name == "to-read" ==> t == "Want to Read"
    ensures s.name !in {"read", "currently-reading", "to-read"} ==> t == s.name
  {
    match s.name
    case "read" => "Read"
    case "currently-reading" => "Currently Reading"
    case "to-read" => "Want to Read"
    case _ => s.name
  }

  /** The built-in shelves keep distinct titles, and a title is empty only
    * for a shelf without a name. */
  lemma ShelfTitleDistinct(a: Shelf, b: Shelf)
    requires a.name in {"read", "currently-reading", "to-read"}
    requires b.name in {"read", "currently-reading", "to-read"}
    ensures ShelfTitle(a) == ShelfTitle(b) <==> a.name == b.name
    ensures ShelfTitle(a) != ""
  {
  }

  /** `ShelvesByName.Less`. */
  predicate ShelfLess(a: Shelf, b: Shelf)
  {
    Less(a.name, b.name)
  }

  /** ShelvesByName is a strict order on names: irreflexive, transitive,
    * and shelves with different names are always ordered. */
  lemma ShelfLessStrict(a: Shelf, b: Shelf, c: Shelf)
    ensures !ShelfLess(a, a)
    ensures ShelfLess(a, b) && ShelfLess(b, c) ==> ShelfLess(a, c)
    ensures a.name != b.name ==> ShelfLess(a, b) || ShelfLess(b, a)
  {
    LessIrreflexive(a.name);
    if ShelfLess(a, b) && ShelfLess(b, c) {
      LessTransitive(a.name, b.name, c.name);
    }
    if a.name != b.name {
      LessTotal(a.name, b.name);
    }
  }

  /** The page of a shelf's books that `UserShelf` requests; the shelf
    * name goes into the URL as it is. */
  function UserShelfURL(userID: int, name: string, page: int): (u: string)
    ensures HasPrefix(u, "https://www.goodreads.com/review/list.xml?v=2&id=")
    ensures HasSuffix(u, "&per_page=50&sort=position")
  {
    "https://www.goodreads.com/review/list.xml?v=2&id=" + IntToDec(userID) + "&shelf=" + name
      + "&page=" + IntToDec(PageOrFirst(page)) + "&per_page=50&sort=position"
  }

  /** The page of a user's shelf list that `UserShelves` requests. */
  function UserShelvesURL(userID: int, page: int): (u: string)
    ensures HasPrefix(u, "https://www.goodreads.com/shelf/list.xml?user_id=")
  {
    "https://www.goodreads.com/shelf/list.xml?user_id=" + IntToDec(userID) + "&page=" + IntToDec(PageOrFirst(page))
  }

  /** The shelf-list URL determines the user and the page asked for. */
  lemma UserShelvesURLInjective(userID: int, page: int, userID2: int, page2: int)
    requires UserShelvesURL(userID, page) == UserShelvesURL(userID2, page2)
    ensures userID == userID2 && PageOrFirst(page) == PageOrFirst(page2)
  {
    var p := "https://www.goodreads.com/shelf/list.xml?user_id=";
    var u := UserShelvesURL(userID, page);
    var a1, b1 := IntToDec(userID), IntToDec(PageOrFirst(page));
    var a2, b2 := IntToDec(userID2), IntToDec(PageOrFirst(page2));
    assert u[|p|..] == a1 + "&page=" + b1;
    assert u[|p|..] == a2 + "&page=" + b2;
    assert '&' !in a1 && '&' !in a2;
    SplitAtMark(a1, b1, a2, b2, "&page=");
    IntToDecInjective(userID, userID2);
    IntToDecInjective(PageOrFirst(page), PageOrFirst(page2));
  }

  /** Page 0 asks for the first page. */
  lemma ShelfPageZero(userID: int, name: string)
    ensures UserShelfURL(userID, name, 0) == UserShelfURL(userID, name, 1)
    ensures UserShelvesURL(userID, 0) == UserShelvesURL(userID, 1)
  {
  }

  /** `unmarshalShelf`: a shelf page has the author-list layout. */
  method UnmarshalShelf(attrs: ListAttrs, reviews: seq<ListRecord>) returns (books: seq<Book>, meta: PageData)
    ensures meta == PageData(attrs.start, attrs.end, attrs.total)
    ensures books == Map(ListBook, reviews)
    ensures forall i :: 0 <= i < |reviews| ==> books[i].id == reviews[i].id && books[i].title == reviews[i].title
  {
    books, meta := UnmarshalList(attrs, reviews);
  }

  /** One `user_shelf` record. */
  datatype ShelfRecord = ShelfRecord(id: Int64, name: string, bookCount: int)

  /** A listed shelf: its ID, name and book count, nothing else yet. */
  function ListedShelf(r: ShelfRecord): (s: Shelf)
    ensures s.id == r.id && s.name == r.name && s.size == r.bookCount
    ensures s.url == "" && s.books == [] && !s.selected
  {
    Shelf(r.id, r.name, "", r.bookCount, [], false)
  }

  /** `unmarshalShelves`: the page attributes and one shelf per record,
    * in order, each with `Size` set to its book count. */
  method UnmarshalShelves(attrs: ListAttrs, records: seq<ShelfRecord>) returns (shelves: seq<Shelf>, meta: PageData)
    ensures meta == PageData(attrs.start, attrs.end, attrs.total)
    ensures shelves == Map(ListedShelf, records)
    ensures |shelves| == |records|
    ensures forall i :: 0 <= i < |records| ==>
      shelves[i].id == records[i].id && shelves[i].name == records[i].name && shelves[i].size == records[i].bookCount
  {
    meta := PageData(attrs.start, attrs.end, attrs.total);
    shelves := MapLoop(ListedShelf, records);
  }

  /** The web page of one of the user's shelves: the user's review list
    * with the query `shelf=<name>`, encoded by `escape`
    * (url.QueryEscape). */
  function ShelfWebURL(escape: string -> string, userID: int, name: string): string
  {
    "https://www.goodreads.com/review/list/" + IntToDec(userID) + "?shelf=" + escape(name)
  }

  /** A shelf given its web page. */
  function WithWebURL(escape: string -> string, userID: int): Shelf -> Shelf
  {
    (s: Shelf) => s.(url := ShelfWebURL(escape, userID, s.name))
  }

  /** The URL loop of `UserShelves`, in place: every listed shelf gets its
    * web page, and nothing else about it changes. */
  method SetShelfURLs(escape: string -> string, userID: int, shelves: array<Shelf>)
    modifies shelves
    ensures shelves[..] == Map(WithWebURL(escape, userID), old(shelves[..]))
  {
    MapInPlace(WithWebURL(escape, userID), shelves);
  }

  /** Every shelf keeps its ID, name, size and books and gets its user's
    * web page for its name. */
  lemma WithWebURLEach(escape: string -> string, userID: int, shelves: seq<Shelf>)
    ensures forall i :: 0 <= i < |shelves| ==>
      var s := Map(WithWebURL(escape, userID), shelves)[i];
      s == shelves[i].(url := ShelfWebURL(escape, userID, shelves[i].name))
  {
    MapEach(WithWebURL(escape, userID), shelves);
  }

  /** Different users' shelf pages differ whatever the shelf names. */
  lemma ShelfWebURLNamesUser(escape: string -> string, a: int, b: int, n: string, m: string)
    requires ShelfWebURL(escape, a, n) == ShelfWebURL(escape, b, m)
    ensures a == b
  {
    var p := "https://www.goodreads.com/review/list/";
    var u := ShelfWebURL(escape, a, n);
    var da := IntToDec(a);
    var db := IntToDec(b);
    assert u[|p|..] == da + "?shelf=" + escape(n);
    assert u[|p|..] == db + "?shelf=" + escape(m);
    QueryMarkSplits(da, db, escape(n), escape(m));
    IntToDecInjective(a, b);
  }

  /** Decimal numbers hold no '?', so the first '?' ends them. */
  lemma QueryMarkSplits(da: string, db: string, x: string, y: string)
    requires forall i :: 0 <= i < |da| ==> IsDigit(da[i]) || da[i] == '-'
    requires forall i :: 0 <= i < |db| ==> IsDigit(db[i]) || db[i] == '-'
    requires da + "?shelf=" + x == db + "?shelf=" + y
    ensures da == db
  {
    var s := da + "?shelf=" + x;
    assert '?' !in da && '?' !in db;
    assert s == da + ['?'] + ("shelf=" + x);
    assert s == db + ['?'] + ("shelf=" + y);
    FirstIndexOfConcat(da, '?', "shelf=" + x);
    FirstIndexOfConcat(db, '?', "shelf=" + y);
    assert da == s[..|da|] == db;
  }

  /** The parameters `AddToShelves` posts to add_books_to_shelves.xml:
    * the shelf names comma-joined and the book ID. */
  function AddToShelvesQuery(bookID: int, shelves: seq<string>): (q: Query)
    ensures q.Keys == {"shelves", "bookids"}
    ensures QueryGet(q, "shelves") == Join(shelves, ',')
    ensures QueryGet(q, "bookids") == IntToDec(bookID)
  {
    QuerySet(QuerySet(map[], "shelves", Join(shelves, ',')), "bookids", IntToDec(bookID))
  }

  /** The server gets back exactly the shelves named, when no name holds
    * a comma. */
  lemma AddToShelvesRoundTrip(bookID: int, shelves: seq<string>)
    requires |shelves| >= 1
    requires forall i :: 0 <= i < |shelves| ==> ',' !in shelves[i]
    ensures Split(QueryGet(AddToShelvesQuery(bookID, shelves), "shelves"), ',') == shelves
  {
    SplitJoin(shelves, ',');
  }

  /** The parameters `addRemoveShelf` posts to add_to_shelf.xml: the
    * shelf name, the book ID, and `a=remove` only for a removal. */
  function AddRemoveShelfQuery(bookID: int, shelf: string, remove: bool): (q: Query)
    ensures QueryGet(q, "name") == shelf && QueryGet(q, "book_id") == IntToDec(bookID)
    ensures "a" in q <==> remove
    ensures remove ==> q["a"] == ["remove"]
    ensures q.Keys == {"name", "book_id"} + (if remove then {"a"} else {})
  {
    var q := QuerySet(QuerySet(map[], "name", shelf), "book_id", IntToDec(bookID));
    if remove then QuerySet(q, "a", "remove") else q
  }

  /** Adding and removing differ only in the `a` parameter. */
  lemma AddRemoveShelfDiffer(bookID: int, shelf: string)
    ensures AddRemoveShelfQuery(bookID, shelf, true) - {"a"} == AddRemoveShelfQuery(bookID, shelf, false)
  {
  }
}
