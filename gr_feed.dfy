/** RSS feeds (pkg/gr/feed.go): the shelf name in a feed title, the cover
  * chosen for each item, and the user ID and key in a feed URL. */
module GrFeed {
  import opened Wrappers
  import opened Strings
  import opened Numbers
  import opened GrTypes
  import opened Seqs

  const BookshelfMarker: string := "bookshelf: "

  /** `parseFeedTitle`: the text after the first "bookshelf: ", or the
    * whole title when there is none. */
  function ParseFeedTitle(s: string): (r: string)
    ensures !Contains(s, BookshelfMarker) ==> r == s
    ensures Contains(s, BookshelfMarker) ==>
      var i := |s| - |r| - |BookshelfMarker|;
      0 <= i && HasSuffix(s, r) && OccursAt(s, BookshelfMarker, i)
      && forall j: nat :: j < i ==> !OccursAt(s, BookshelfMarker, j)
  {
    var i := Index(s, BookshelfMarker);
    if i < 0 then s else s[i + |BookshelfMarker|..]
  }

  /** A feed titled "<owner>'s bookshelf: <name>" names the shelf `name`,
    * whatever the name holds, when the owner part has no ':'. */
  lemma ParseFeedTitleNamed(owner: string, name: string)
    requires ':' !in owner
    ensures ParseFeedTitle(owner + BookshelfMarker + name) == name
  {
    var s := owner + BookshelfMarker + name;
    var m := BookshelfMarker;
    assert s[|owner|..|owner| + |m|] == m;
    assert OccursAt(s, m, |owner|);
    forall j: nat | j < |owner| ensures !OccursAt(s, m, j) {
      if j + |m| <= |s| {
        assert s[j + 9] != ':' by {
          if j + 9 < |owner| {
            assert s[j + 9] == owner[j + 9];
            assert owner[j + 9] in owner;
          } else {
            assert s[j + 9] == m[j + 9 - |owner|];
          }
        }
        assert s[j..j + |m|][9] == s[j + 9];
      }
    }
    var i := Index(s, m);
    assert i == |owner|;
  }

  /** One `item` of a feed. */
  datatype FeedItem = FeedItem(id: Int64, imageURL: string, imageURLMedium: string, imageURLLarge: string)

  /** The cover of an item: the large image if there is one, else the
    * medium one, else the plain one. */
  function FeedImage(r: FeedItem): (u: string)
    ensures u in {r.imageURLLarge, r.imageURLMedium, r.imageURL}
    ensures u == "" <==> r.imageURLLarge == "" && r.imageURLMedium == "" && r.imageURL == ""
    ensures r.imageURLLarge != "" ==> u == r.imageURLLarge
    ensures r.imageURLLarge == "" && r.imageURLMedium != "" ==> u == r.imageURLMedium
  {
    if r.imageURLLarge != "" then r.imageURLLarge
    else if r.imageURLMedium != "" then r.imageURLMedium
    else r.imageURL
  }

  /** The book of one item: only its ID and cover are set. */
  function FeedBook(r: FeedItem): (b: Book)
    ensures b.id == r.id && b.imageURL == FeedImage(r)
    ensures b.(id := 0, imageURL := "") == ZeroBook
  {
    ZeroBook.(id := r.id, imageURL := FeedImage(r))
  }

  /** `unmarshalFeed` after decoding: the shelf name from the channel
    * title and one book per item, in order. */
  method UnmarshalFeed(title: string, items: seq<FeedItem>) returns (feed: Feed)
    ensures feed.name == ParseFeedTitle(title)
    ensures feed.books == Map(FeedBook, items)
    ensures |feed.books| == |items|
    ensures forall i :: 0 <= i < |items| ==>
      feed.books[i].id == items[i].id && feed.books[i].imageURL == FeedImage(items[i])
  {
    var books := MapLoop(FeedBook, items);
    feed := Feed(ParseFeedTitle(title), books);
  }

  /** `FetchFeed`'s URL: the RSS list of the user with `shelf=<shelf>`,
    * encoded by `escape` (url.QueryEscape). */
  function FeedURL(escape: string -> string, userID: int, shelf: string): (u: string)
    ensures HasPrefix(u, "https://www.goodreads.com/review/list_rss/")
  {
    "https://www.goodreads.com/review/list_rss/" + IntToDec(userID) + "?shelf=" + escape(shelf)
  }

  /** The feed URL determines the user and the escaped shelf name. */
  lemma FeedURLInjective(escape: string -> string, userID: int, shelf: string, userID2: int, shelf2: string)
    requires FeedURL(escape, userID, shelf) == FeedURL(escape, userID2, shelf2)
    ensures userID == userID2 && escape(shelf) == escape(shelf2)
  {
    var prefix := "https://www.goodreads.com/review/list_rss/";
    var a1, a2 := IntToDec(userID), IntToDec(userID2);
    var u := FeedURL(escape, userID, shelf);
    assert u == prefix + (a1 + "?shelf=" + escape(shelf)) && u == prefix + (a2 + "?shelf=" + escape(shelf2));
    assert a1 + "?shelf=" + escape(shelf) == u[|prefix|..] == a2 + "?shelf=" + escape(shelf2);
    SplitAtMark(a1, escape(shelf), a2, escape(shelf2), "?shelf=");
    IntToDecInjective(userID, userID2);
  }

  /** `parseFeedURL` on the parts that url.Parse (the `parse` parameter)
    * gives: the last path element is the user ID, the `key` parameter the
    * feed key; a URL that does not parse is an error. */
  function ParseFeedURL(parse: string -> Option<ParsedURL>, u: string): (r: Result<(string, string)>)
    ensures parse(u).None? <==> r.Err?
    ensures r.Ok? ==> r.value.0 == Base(parse(u).value.path) && r.value.1 == QueryGet(parse(u).value.query, "key")
  {
    match parse(u)
    case None => Err("parse feed URL")
    case Some(p) => Ok((Base(p.path), QueryGet(p.query, "key")))
  }

  /** A feed URL of the user `id` gives back that user's ID. */
  lemma ParseFeedURLOfFeed(parse: string -> Option<ParsedURL>, u: string, id: int, q: Query)
    requires parse(u) == Some(ParsedURL("https://www.goodreads.com", "/review/list_rss/" + IntToDec(id), q))
    ensures ParseFeedURL(parse, u) == Ok((IntToDec(id), QueryGet(q, "key")))
  {
    assert "/review/list_rss/" + IntToDec(id) == "/review/list_rss" + "/" + IntToDec(id);
    BaseOf("/review/list_rss", IntToDec(id));
  }
}
