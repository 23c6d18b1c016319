/** The book search command (pkg/cli/search.go): the cached, throttled
  * search and the text of each result item. */
module SearchCommand {
  import opened Wrappers
  import opened Strings
  import opened Numbers
  import opened GrTypes
  import opened GrBook
  import opened CacheKeys
  import opened JsonCache
  import opened Options
  import opened Seqs

  /** The cache key of a query's results. `cachefile` hashes its key, so
    * the file is named by the digest of the query's digest. */
  function SearchKey(hash: Hasher, query: string): string
  {
    "queries/" + CacheFile(hash, hash(query), [".json"])
  }

  /** A digest has no '.', so it has no extension. */
  lemma DigestHasNoExt(d: Digest)
    ensures Ext(d) == ""
  {
  }

  /** The key is the doubly hashed query under two shard directories,
    * with the `.json` extension; queries share a key only if their
    * doubled digests agree. */
  lemma SearchKeyLayout(hash: Hasher, q1: string, q2: string)
    ensures var h := hash(hash(q1));
      SearchKey(hash, q1) == "queries/" + h[0..2] + "/" + h[2..4] + "/" + h + ".json"
    ensures SearchKey(hash, q1) == SearchKey(hash, q2) ==> hash(hash(q1)) == hash(hash(q2))
  {
    DigestHasNoExt(hash(q1));
    assert Concat([".json"]) == ".json" + Concat([]);
    if SearchKey(hash, q1) == SearchKey(hash, q2) {
      var k1, k2 := CacheFile(hash, hash(q1), [".json"]), CacheFile(hash, hash(q2), [".json"]);
      assert k1 == SearchKey(hash, q1)[8..] == SearchKey(hash, q2)[8..] == k2;
      CacheFileCollision(hash, hash(q1), hash(q2), [".json"]);
    }
  }

  /** `cachingSearch`: `LoadOrStoreJSON` under the query's key with the
    * search age limit; the reload waits out the one-second throttle and
    * calls the search API, whose answer is `search`. */
  method CachingSearch(hash: Hasher, query: string, cache: Cache<seq<Book>>, maxAge: int, now: int,
                       last: Option<int>, search: Result<seq<Book>>, written: int) returns (r: Loaded<seq<Book>>)
    ensures var key := SearchKey(hash, query);
      !Expired(cache, key, maxAge, now) ==> r == Loaded(cache[key].value, cache, None)
    ensures var key := SearchKey(hash, query);
      Expired(cache, key, maxAge, now) && search.Err? ==> r == LoadFailed(search.error)
    ensures var key := SearchKey(hash, query);
      Expired(cache, key, maxAge, now) && search.Ok? ==>
        r.Loaded? && r.value == search.value && r.lastRequest.Some? &&
        r.cache == cache[key := Entry(search.value, written)] &&
        r.lastRequest.value >= now && (last.Some? ==> r.lastRequest.value >= last.value + Second) &&
        r.lastRequest.value == SendTime(last, now)
  {
    r := LoadOrStore(cache, SearchKey(hash, query), maxAge, now, last, search, written);
  }

  /** The publication year in brackets, for a set date. */
  function DatePart(b: Book): string
  {
    if IsZeroDate(b.pubDate) then "" else " (" + YearText(b.pubDate) + ")"
  }

  /** The rating to two decimals, for a rated book. */
  function RatingPart(b: Book): string
  {
    if b.rating == 0.0 then "" else " ⭑ " + FormatFixed(b.rating, 2)
  }

  /** The subtitle of a result: the author, then the year, then the
    * rating. */
  function Subtitle(b: Book): string
  {
    b.author.name + DatePart(b) + RatingPart(b)
  }

  /** The subtitle starts with the author's name; the year follows it
    * exactly when the date is set, and the rating ends it exactly when
    * the book is rated; with neither it is the bare name. */
  lemma SubtitleParts(b: Book)
    ensures HasPrefix(Subtitle(b), b.author.name)
    ensures !IsZeroDate(b.pubDate) ==>
      HasPrefix(Subtitle(b), b.author.name + " (" + YearText(b.pubDate) + ")")
    ensures b.rating != 0.0 ==> HasSuffix(Subtitle(b), " ⭑ " + FormatFixed(b.rating, 2))
    ensures Subtitle(b) == b.author.name <==> IsZeroDate(b.pubDate) && b.rating == 0.0
  {
    Pieces(b.author.name, DatePart(b), RatingPart(b));
    PartsNonEmpty(b);
  }

  lemma PartsNonEmpty(b: Book)
    ensures DatePart(b) == "" <==> IsZeroDate(b.pubDate)
    ensures RatingPart(b) == "" <==> b.rating == 0.0
  {
    if !IsZeroDate(b.pubDate) {
      assert |DatePart(b)| >= 2;
    }
    if b.rating != 0.0 {
      assert |RatingPart(b)| >= 3;
    }
  }

  /** Where the pieces of a three-part string sit. */
  lemma Pieces(a: string, b: string, c: string)
    ensures HasPrefix(a + b + c, a) && HasPrefix(a + b + c, a + b)
    ensures HasSuffix(a + b + c, c) && HasSuffix(a + b, b)
    ensures a + b + c == a <==> b == "" && c == ""
  {
    var s := a + b + c;
    assert s[..|a|] == a;
    assert s[..|a + b|] == a + b;
    assert s[|s| - |c|..] == c;
    assert (a + b)[|a + b| - |b|..] == b;
    if s == a {
      assert |b| + |c| == 0;
    }
  }

  /** The text of a result item. */
  datatype BookItem = BookItem(title: string, subtitle: string, matchText: string, uid: string,
                               largetype: Option<string>)

  /** `bookItem`, the text fields: the title, the subtitle, the match text
    * `Title Author`, the ID as UID, and large type only for a book with a
    * description. */
  function ItemOf(pol: Policies): Book -> BookItem
  {
    (b: Book) => BookItem(b.title, Subtitle(b), b.title + " " + b.author.name, IntToDec(b.id),
                          if b.description == "" then None else Some(DescriptionText(pol, b)))
  }

  /** The match text begins with the title and ends with the author, and
    * large type is present exactly when there is a description. */
  lemma ItemFields(pol: Policies, b: Book)
    ensures HasPrefix(ItemOf(pol)(b).matchText, b.title + " ")
    ensures HasSuffix(ItemOf(pol)(b).matchText, " " + b.author.name)
    ensures ItemOf(pol)(b).largetype.Some? <==> b.description != ""
  {
    var m := b.title + " " + b.author.name;
    assert m[..|b.title + " "|] == b.title + " ";
    assert m[|m| - |" " + b.author.name|..] == " " + b.author.name;
    ItemOfText(pol, b);
  }

  /** The match text and large type of `ItemOf`, field by field. */
  lemma ItemOfText(pol: Policies, b: Book)
    ensures ItemOf(pol)(b).matchText == b.title + " " + b.author.name
    ensures ItemOf(pol)(b).largetype == if b.description == "" then None else Some(DescriptionText(pol, b))
  {
  }

  datatype SearchOutcome =
    | NeedsAuthorisation
    | QueryTooShortItem
    | Listed(items: seq<BookItem>, cache: Cache<seq<Book>>, lastRequest: Option<int>)
    | SearchPanicked(error: string)

  /** `runSearch`: unauthorised, only the authorise item; a query that is
    * too short gives only the "Query Too Short" item, with no search and
    * no cache write; otherwise one item per result, in order. A failed
    * search panics. */
  method RunSearch(opts: Settings, hash: Hasher, pol: Policies, cache: Cache<seq<Book>>, now: int,
                   search: Result<seq<Book>>, written: int) returns (r: SearchOutcome)
    ensures !opts.Authorised() ==> r == NeedsAuthorisation
    ensures opts.Authorised() && opts.QueryTooShort() ==> r == QueryTooShortItem
    ensures var key := SearchKey(hash, opts.query);
      opts.Authorised() && !opts.QueryTooShort() && !Expired(cache, key, opts.maxCache.search, now) ==>
        r == Listed(Map(ItemOf(pol), cache[key].value), cache, None)
    ensures var key := SearchKey(hash, opts.query);
      (opts.Authorised() && !opts.QueryTooShort() && Expired(cache, key, opts.maxCache.search, now) &&
       search.Err?) ==> r == SearchPanicked(search.error)
    ensures var key := SearchKey(hash, opts.query);
      (opts.Authorised() && !opts.QueryTooShort() && Expired(cache, key, opts.maxCache.search, now) &&
       search.Ok?) ==>
        r.Listed? && r.items == Map(ItemOf(pol), search.value) &&
        r.lastRequest.Some? && r.cache == cache[key := Entry(search.value, written)] &&
        r.lastRequest.value >= now &&
        (opts.lastRequestParsed.Some? ==> r.lastRequest.value >= opts.lastRequestParsed.value + Second) &&
        r.lastRequest.value == SendTime(opts.lastRequestParsed, now)
  {
    if !opts.Authorised() {
      return NeedsAuthorisation;
    }
    if opts.QueryTooShort() {
      return QueryTooShortItem;
    }
    var loaded := CachingSearch(hash, opts.query, cache, opts.maxCache.search, now, opts.lastRequestParsed, search, written);
    if loaded.LoadFailed? {
      return SearchPanicked(loaded.error);
    }
    var items := MapLoop(ItemOf(pol), loaded.value);
    return Listed(items, loaded.cache, loaded.lastRequest);
  }
}
