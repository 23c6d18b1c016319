/** Series (pkg/gr/series.go): the display string of a series and the
  * clean-up applied to a decoded series response. */
module GrSeries {
  import opened Wrappers
  import opened Strings
  import opened Numbers
  import opened GrTypes
  import opened GrTitle
  import opened GrBook
  import opened Seqs

  /** `Series.String`: the title and the position with one decimal,
    * or nothing for a book outside any series. */
  function SeriesString(s: Series): (r: string)
    ensures r == "" <==> s.title == ""
    ensures s.title != "" ==> |r| > |s.title| + 2 && r[..|s.title| + 2] == s.title + " #"
    ensures s.title != "" ==> '.' in r[|s.title| + 2..]
  {
    if s.title == "" then ""
    else
      var pos := FormatFixed(s.position, 1);
      assert (s.title + " #" + pos)[|s.title| + 2..] == pos;
      s.title + " #" + pos
  }

  /** One `series_work` record as decoded. */
  datatype SeriesWork = SeriesWork(
    workID: Int64, bookID: Int64, title: string, titleNoSeries: string,
    authorID: Int64, authorName: string, imageURL: string,
    year: int, month: int, day: int, rating: real, position: string)

  /** A decoded series response. */
  datatype SeriesRecord = SeriesRecord(id: Int64, title: string, works: seq<SeriesWork>)

  /** One book of the series `id` named `title`: trimmed titles, the
    * position read from `user_position` (0 when it does not parse), the
    * work's original title as the title without series, falling back to
    * the parsed title. */
  function SeriesBook(id: Int64, title: string, w: SeriesWork): (b: Book)
    ensures b.id == w.bookID && b.workID == w.workID && b.title == TrimSpace(w.title)
    ensures b.series.id == id && b.series.title == title && b.series.books == []
    ensures b.url == BookURL(w.bookID) && b.author == Author(w.authorID, w.authorName, AuthorURL(w.authorID))
    ensures b.pubDate == PublicationDate(w.year, w.month, w.day)
  {
    var t := TrimSpace(w.title);
    var original := TrimSpace(w.titleNoSeries);
    Book(w.bookID, w.workID, "", "", t, if original != "" then original else ParseTitle(t).0,
         Series(title, ParsePosition(w.position), id, []),
         Author(w.authorID, w.authorName, AuthorURL(w.authorID)),
         PublicationDate(w.year, w.month, w.day), w.rating, "", BookURL(w.bookID), w.imageURL)
  }

  /** The per-record step of the loop, for one series. */
  function SeriesBookOf(id: Int64, title: string): SeriesWork -> Book
  {
    w => SeriesBook(id, title, w)
  }

  /** pkg/gr/series.go `unmarshalSeries` after decoding: the series with
    * its trimmed title and one book per work, in order, each carrying the
    * series' ID and title. */
  method UnmarshalSeries(r: SeriesRecord) returns (s: Series)
    ensures s.id == r.id && s.title == TrimSpace(r.title) && s.position == 0.0
    ensures s.books == Map(SeriesBookOf(r.id, TrimSpace(r.title)), r.works)
    ensures |s.books| == |r.works|
  {
    var title := TrimSpace(r.title);
    var books := MapLoop(SeriesBookOf(r.id, title), r.works);
    s := Series(title, 0.0, r.id, books);
  }

  /** Every book of a series names the series and keeps its work's book
    * ID, in order. */
  lemma SeriesBooksCarrySeries(id: Int64, title: string, works: seq<SeriesWork>)
    ensures forall i :: 0 <= i < |works| ==>
      var b := Map(SeriesBookOf(id, title), works)[i];
      b.id == works[i].bookID && b.series.id == id && b.series.title == title
  {
    var f := SeriesBookOf(id, title);
    MapEach(f, works);
    forall i | 0 <= i < |works|
      ensures var b := Map(f, works)[i];
        b.id == works[i].bookID && b.series.id == id && b.series.title == title
    {
      var b := SeriesBook(id, title, works[i]);
      assert Map(f, works)[i] == f(works[i]) == b;
    }
  }

  /** A `user_position` that is not a decimal number reads as position 0. */
  lemma PositionFallback(id: Int64, title: string, w: SeriesWork)
    requires !IsDecimalSyntax(w.position)
    ensures SeriesBook(id, title, w).series.position == 0.0
  {
  }

  /** A work with an original title takes it, trimmed, as its title
    * without series; one without takes the title as it is when the title
    * holds no series. */
  lemma SeriesTitleNoSeries(id: Int64, title: string, w: SeriesWork)
    ensures TrimSpace(w.titleNoSeries) != "" ==> SeriesBook(id, title, w).titleNoSeries == TrimSpace(w.titleNoSeries)
    ensures TrimSpace(w.titleNoSeries) == "" && '(' !in TrimSpace(w.title) ==>
      SeriesBook(id, title, w).titleNoSeries == TrimSpace(w.title)
  {
    if '(' !in TrimSpace(w.title) {
      ParseTitleWithoutParen(TrimSpace(w.title));
    }
  }
}
