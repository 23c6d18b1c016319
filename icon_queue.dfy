/** The cover-icon download queue of pkg/cli/icons.go (`iconCache`): books
  * are queued for cover download while results are shown, the queue is
  * saved to a tab-separated file between runs, and a background job
  * drains it.
  *
  * The file system is a `Disk`; the download of an image (remoteImage)
  * is the parameter `fetch`, which gives the size of the downloaded
  * image or None when the download fails. The goroutine pool of
  * `ProcessQueue` is modelled as one sequential pass in queue order. */
module IconQueue {
  import opened Wrappers
  import opened Strings
  import opened Numbers
  import opened GrTypes
  import opened CacheKeys
  import opened Files

  /** One queued cover: the book and its image URL. */
  datatype CacheIcon = CacheIcon(id: Int64, url: string)

  const IconBook: string := "icons/book.png"

  /** `iconCache.cachefile`: the book's PNG path under the cache
    * directory. */
  function CoverPath(dir: string, id: int): string
  {
    dir + "/" + CacheFileID(id, ["png"])
  }

  /** Books whose cover URL ends in .png only have a placeholder cover. */
  predicate IsPlaceholder(b: Book)
  {
    Ext(b.imageURL) == ".png"
  }

  /** The IDs in a queue. */
  function IDs(q: seq<CacheIcon>): set<Int64>
  {
    set i | i in q :: i.id
  }

  // ---------------------------------------------------------------------
  // Add

  /** The queue and the IDs seen so far. */
  datatype Pending = Pending(queue: seq<CacheIcon>, seen: set<Int64>)

  /** One step of `Add`: a placeholder or an already seen book changes
    * nothing; any other book is marked seen, and queued when its cover
    * file does not exist. */
  function AddBook(p: Pending, files: map<string, Content>, dir: string, b: Book): Pending
  {
    if IsPlaceholder(b) || b.id in p.seen then p
    else
      Pending(if CoverPath(dir, b.id) in files then p.queue else p.queue + [CacheIcon(b.id, b.imageURL)],
              p.seen + {b.id})
  }

  /** `Add(books...)`: the steps in order. */
  function AddBooks(p: Pending, files: map<string, Content>, dir: string, books: seq<Book>): Pending
    decreases |books|
  {
    if books == [] then p else AddBooks(AddBook(p, files, dir, books[0]), files, dir, books[1..])
  }

  /** What `Add` may do to a queue: keep it as a prefix, and append only
    * non-placeholder covers, each without a cover file, each under an ID
    * newly marked seen, no ID twice. */
  predicate Added(p: Pending, r: Pending, files: map<string, Content>, dir: string)
  {
    |p.queue| <= |r.queue| && r.queue[..|p.queue|] == p.queue
    && p.seen <= r.seen
    && (forall j :: |p.queue| <= j < |r.queue| ==>
          Ext(r.queue[j].url) != ".png" && r.queue[j].id in r.seen && r.queue[j].id !in p.seen
          && CoverPath(dir, r.queue[j].id) !in files)
    && (forall j, k :: |p.queue| <= j < k < |r.queue| ==> r.queue[j].id != r.queue[k].id)
  }

  lemma AddedTrans(p: Pending, m: Pending, r: Pending, files: map<string, Content>, dir: string)
    requires Added(p, m, files, dir) && Added(m, r, files, dir)
    ensures Added(p, r, files, dir)
  {
    assert r.queue[..|p.queue|] == r.queue[..|m.queue|][..|p.queue|];
    forall j | |p.queue| <= j < |r.queue|
      ensures Ext(r.queue[j].url) != ".png" && r.queue[j].id in r.seen && r.queue[j].id !in p.seen
              && CoverPath(dir, r.queue[j].id) !in files
    {
      if j < |m.queue| {
        assert r.queue[j] == m.queue[j];
      }
    }
    forall j, k | |p.queue| <= j < k < |r.queue| ensures r.queue[j].id != r.queue[k].id {
      if k < |m.queue| {
        assert r.queue[j] == m.queue[j] && r.queue[k] == m.queue[k];
      } else if j < |m.queue| {
        assert r.queue[j] == m.queue[j];
        assert r.queue[k].id !in m.seen;
      }
    }
  }

  /** `Add` never queues a placeholder, never queues a book whose cover
    * is on disk or whose ID it has seen, and queues each ID at most
    * once. */
  lemma {:induction false} AddBooksAdded(p: Pending, files: map<string, Content>, dir: string, books: seq<Book>)
    ensures Added(p, AddBooks(p, files, dir, books), files, dir)
    decreases |books|
  {
    if books != [] {
      var m := AddBook(p, files, dir, books[0]);
      assert Added(p, m, files, dir);
      AddBooksAdded(m, files, dir, books[1..]);
      AddedTrans(p, m, AddBooks(m, files, dir, books[1..]), files, dir);
    } else {
      assert p.queue[..|p.queue|] == p.queue;
    }
  }

  /** The IDs of the non-placeholder books. */
  function CoverIDs(books: seq<Book>): set<Int64>
    decreases |books|
  {
    if books == [] then {}
    else (if IsPlaceholder(books[0]) then {} else {books[0].id}) + CoverIDs(books[1..])
  }

  /** Every non-placeholder book is marked seen, whether or not it was
    * queued, and nothing else is. */
  lemma {:induction false} AddBooksSeen(p: Pending, files: map<string, Content>, dir: string, books: seq<Book>)
    ensures AddBooks(p, files, dir, books).seen == p.seen + CoverIDs(books)
    decreases |books|
  {
    if books != [] {
      var m := AddBook(p, files, dir, books[0]);
      AddBooksSeen(m, files, dir, books[1..]);
    }
  }

  /** Every non-placeholder book that is neither seen nor on disk gets
    * its ID queued. */
  lemma {:induction false} AddBooksQueues(p: Pending, files: map<string, Content>, dir: string, books: seq<Book>, b: Book)
    requires b in books && !IsPlaceholder(b) && b.id !in p.seen && CoverPath(dir, b.id) !in files
    ensures b.id in IDs(AddBooks(p, files, dir, books).queue)
    decreases |books|
  {
    var m := AddBook(p, files, dir, books[0]);
    var r := AddBooks(m, files, dir, books[1..]);
    AddBooksAdded(m, files, dir, books[1..]);
    if b.id in m.seen {
      // books[0] carried the same ID, so it was appended to m's queue.
      assert books[0].id == b.id;
      assert m.queue[|m.queue| - 1].id == b.id;
      assert r.queue[|m.queue| - 1] == r.queue[..|m.queue|][|m.queue| - 1];
      assert r.queue[|m.queue| - 1] in r.queue;
    } else {
      assert b != books[0];
      assert b in books[1..];
      AddBooksQueues(m, files, dir, books[1..], b);
    }
  }

  // ---------------------------------------------------------------------
  // The queue file

  /** One row of the queue file: the ID and the URL, tab-separated. */
  function Row(i: CacheIcon): string
  {
    IntToDec(i.id) + "\t" + i.url
  }

  /** What the TSV writer of `Close` produces: one row per icon, each
    * ended by a newline. */
  function EncodeQueue(q: seq<CacheIcon>): string
    decreases |q|
  {
    if q == [] then "" else Row(q[0]) + "\n" + EncodeQueue(q[1..])
  }

  /** The TSV reader with two fields per record: empty lines are skipped,
    * and any other line without exactly two tab-separated fields is an
    * error. */
  function ReadRecords(lines: seq<string>): Option<seq<(string, string)>>
    decreases |lines|
  {
    if lines == [] then Some([])
    else
      match ReadRecords(lines[1..])
      case None => None
      case Some(rest) =>
        if lines[0] == "" then Some(rest)
        else
          var f := Split(lines[0], '\t');
          if |f| != 2 then None else Some([(f[0], f[1])] + rest)
  }

  function ReadTSV(text: string): Option<seq<(string, string)>>
  {
    ReadRecords(Split(text, '\n'))
  }

  /** The icons of the records: the ID is parsed as strconv.ParseInt
    * does, its error ignored. */
  function RowIcons(rows: seq<(string, string)>): (q: seq<CacheIcon>)
    ensures |q| == |rows|
    decreases |rows|
  {
    if rows == [] then [] else [CacheIcon(ParseInt64(rows[0].0).0, rows[0].1)] + RowIcons(rows[1..])
  }

  /** The icons in order, each ID kept at its first occurrence only, and
    * none of the IDs in `seen`. */
  function Dedup(q: seq<CacheIcon>, seen: set<Int64>): (r: seq<CacheIcon>)
    ensures |r| <= |q|
    decreases |q|
  {
    if q == [] then []
    else if q[0].id in seen then Dedup(q[1..], seen)
    else [q[0]] + Dedup(q[1..], seen + {q[0].id})
  }

  /** The queue `loadQueue` restores from a file's text, or None when the
    * text does not parse. */
  function LoadedQueue(text: string): Option<seq<CacheIcon>>
  {
    match ReadTSV(text)
    case None => None
    case Some(rows) => Some(Dedup(RowIcons(rows), {}))
  }

  predicate DistinctIDs(q: seq<CacheIcon>)
  {
    forall j, k :: 0 <= j < k < |q| ==> q[j].id != q[k].id
  }

  /** A deduplicated queue holds each ID once, none from `seen`, and only
    * icons of the input. */
  lemma {:induction false} DedupDistinct(q: seq<CacheIcon>, seen: set<Int64>)
    ensures DistinctIDs(Dedup(q, seen))
    ensures forall i :: i in Dedup(q, seen) ==> i in q && i.id !in seen
    decreases |q|
  {
    if q != [] {
      if q[0].id in seen {
        DedupDistinct(q[1..], seen);
      } else {
        var rest := Dedup(q[1..], seen + {q[0].id});
        DedupDistinct(q[1..], seen + {q[0].id});
        var r := [q[0]] + rest;
        forall j, k | 0 <= j < k < |r| ensures r[j].id != r[k].id {
          assert r[k] == rest[k - 1];
          assert rest[k - 1] in rest;
          if j > 0 {
            assert r[j] == rest[j - 1];
          }
        }
      }
    }
  }

  /** Deduplication keeps a queue that already has distinct IDs. */
  lemma {:induction false} DedupKeepsDistinct(q: seq<CacheIcon>, seen: set<Int64>)
    requires DistinctIDs(q)
    requires forall i :: 0 <= i < |q| ==> q[i].id !in seen
    ensures Dedup(q, seen) == q
    decreases |q|
  {
    if q != [] {
      forall i | 0 <= i < |q[1..]| ensures q[1..][i].id !in seen + {q[0].id} {
        assert q[1..][i] == q[i + 1];
      }
      DedupKeepsDistinct(q[1..], seen + {q[0].id});
    }
  }

  /** The records written for a queue. */
  function Fields(q: seq<CacheIcon>): (rows: seq<(string, string)>)
    ensures |rows| == |q|
    decreases |q|
  {
    if q == [] then [] else [(IntToDec(q[0].id), q[0].url)] + Fields(q[1..])
  }

  predicate Writable(q: seq<CacheIcon>)
  {
    forall i :: 0 <= i < |q| ==> '\t' !in q[i].url && '\n' !in q[i].url
  }

  /** The first line of a written queue is the first row, and that row
    * splits into the ID and the URL. */
  lemma EncodedLines(q: seq<CacheIcon>)
    requires q != [] && '\t' !in q[0].url && '\n' !in q[0].url
    ensures Split(EncodeQueue(q), '\n') == [Row(q[0])] + Split(EncodeQueue(q[1..]), '\n')
    ensures Split(Row(q[0]), '\t') == [IntToDec(q[0].id), q[0].url]
    ensures Row(q[0]) != ""
  {
    var d := IntToDec(q[0].id);
    assert '\n' !in d && '\t' !in d;
    var row := Row(q[0]);
    assert row == d + ['\t'] + q[0].url;
    assert '\n' !in row;
    SplitAfter(row, '\n', EncodeQueue(q[1..]));
    SplitAfter(d, '\t', q[0].url);
  }

  /** A non-empty line of two fields puts its record in front. */
  lemma ReadRecordsRow(line: string, rest: seq<string>, a: string, b: string)
    requires line != "" && Split(line, '\t') == [a, b]
    ensures ReadRecords([line] + rest) ==
      if ReadRecords(rest).Some? then Some([(a, b)] + ReadRecords(rest).value) else None
  {
    assert ([line] + rest)[1..] == rest;
  }

  /** The reader gives back the records the writer wrote. */
  lemma {:induction false} ReadEncoded(q: seq<CacheIcon>)
    requires Writable(q)
    ensures ReadTSV(EncodeQueue(q)) == Some(Fields(q))
    decreases |q|
  {
    if q == [] {
      assert Split("", '\n') == [""];
    } else {
      EncodedLines(q);
      assert Writable(q[1..]) by {
        forall i | 0 <= i < |q[1..]| ensures '\t' !in q[1..][i].url && '\n' !in q[1..][i].url {
          assert q[1..][i] == q[i + 1];
        }
      }
      ReadEncoded(q[1..]);
      ReadRecordsRow(Row(q[0]), Split(EncodeQueue(q[1..]), '\n'), IntToDec(q[0].id), q[0].url);
    }
  }

  /** Parsing the written IDs gives back the icons. */
  lemma {:induction false} RowIconsOfFields(q: seq<CacheIcon>)
    ensures RowIcons(Fields(q)) == q
    decreases |q|
  {
    if q != [] {
      ParseFormatInt64(q[0].id);
      assert Fields(q)[1..] == Fields(q[1..]);
      RowIconsOfFields(q[1..]);
    }
  }

  /** Close, then loadQueue: the closed queue comes back deduplicated by
    * ID, for URLs without tabs and newlines. */
  lemma CloseLoadRoundTrip(q: seq<CacheIcon>)
    requires Writable(q)
    ensures LoadedQueue(EncodeQueue(q)) == Some(Dedup(q, {}))
  {
    ReadEncoded(q);
    RowIconsOfFields(q);
  }

  /** A queue with distinct IDs comes back as it was. */
  lemma CloseLoadDistinct(q: seq<CacheIcon>)
    requires Writable(q) && DistinctIDs(q)
    ensures LoadedQueue(EncodeQueue(q)) == Some(q)
  {
    CloseLoadRoundTrip(q);
    DedupKeepsDistinct(q, {});
  }

  // ---------------------------------------------------------------------
  // ProcessQueue

  /** `squareImage`: a square canvas whose side is the larger of the
    * image's width and height. */
  function Square(width: int, height: int): (c: Content)
    ensures c.Picture? && c.width == c.height
    ensures c.width >= width && c.width >= height && (c.width == width || c.width == height)
  {
    var n := if height > width then height else width;
    Picture(n, n)
  }

  /** The state after draining: the files, and the last error. */
  datatype Drained = Drained(files: map<string, Content>, lastError: Option<string>)

  /** The download pass in queue order: an icon whose cover file exists
    * is skipped; otherwise its image is downloaded, squared and written,
    * and a failed download or write is recorded and the pass goes on. */
  function Drain(files: map<string, Content>, failing: set<string>, dir: string,
                 fetch: string -> Option<(int, int)>, q: seq<CacheIcon>): Drained
    decreases |q|
  {
    if q == [] then Drained(files, None)
    else
      var p := CoverPath(dir, q[0].id);
      if p in files then Drain(files, failing, dir, fetch, q[1..])
      else
        var step: (map<string, Content>, Option<string>) :=
          match fetch(q[0].url)
          case None => (files, Some("download " + q[0].url))
          case Some(size) =>
            if p in failing then (files, Some("save image " + q[0].url))
            else (files[p := Square(size.0, size.1)], None);
        var r := Drain(step.0, failing, dir, fetch, q[1..]);
        Drained(r.files, if r.lastError.Some? then r.lastError else step.1)
  }

  /** A file that exists before the pass is neither removed nor changed. */
  lemma {:induction false} DrainKeeps(files: map<string, Content>, failing: set<string>, dir: string,
                                      fetch: string -> Option<(int, int)>, q: seq<CacheIcon>)
    ensures forall p :: p in files ==>
      p in Drain(files, failing, dir, fetch, q).files && Drain(files, failing, dir, fetch, q).files[p] == files[p]
    decreases |q|
  {
    if q != [] {
      var p := CoverPath(dir, q[0].id);
      if p in files {
        DrainKeeps(files, failing, dir, fetch, q[1..]);
      } else {
        match fetch(q[0].url)
        case None =>
          DrainKeeps(files, failing, dir, fetch, q[1..]);
        case Some(size) =>
          if p in failing {
            DrainKeeps(files, failing, dir, fetch, q[1..]);
          } else {
            DrainKeeps(files[p := Square(size.0, size.1)], failing, dir, fetch, q[1..]);
          }
      }
    }
  }

  /** Every file the pass creates is the square cover of a queued icon
    * whose download succeeded. */
  lemma {:induction false} DrainWrites(files: map<string, Content>, failing: set<string>, dir: string,
                                       fetch: string -> Option<(int, int)>, q: seq<CacheIcon>, p: string)
    requires p in Drain(files, failing, dir, fetch, q).files && p !in files
    ensures exists i :: 0 <= i < |q| && p == CoverPath(dir, q[i].id) && fetch(q[i].url).Some?
                        && Drain(files, failing, dir, fetch, q).files[p] == Square(fetch(q[i].url).value.0, fetch(q[i].url).value.1)
    decreases |q|
  {
    var r := Drain(files, failing, dir, fetch, q);
    var c := CoverPath(dir, q[0].id);
    var next := if c in files || fetch(q[0].url).None? || c in failing then files
                else files[c := Square(fetch(q[0].url).value.0, fetch(q[0].url).value.1)];
    assert r.files == Drain(next, failing, dir, fetch, q[1..]).files;
    if p in next {
      DrainKeeps(next, failing, dir, fetch, q[1..]);
      assert p == CoverPath(dir, q[0].id);
    } else {
      DrainWrites(next, failing, dir, fetch, q[1..], p);
      var i :| 0 <= i < |q[1..]| && p == CoverPath(dir, q[1..][i].id) && fetch(q[1..][i].url).Some?
               && r.files[p] == Square(fetch(q[1..][i].url).value.0, fetch(q[1..][i].url).value.1);
      assert q[1..][i] == q[i + 1];
    }
  }

  /** One failure does not stop the others: every icon whose download
    * succeeds and whose path can be written has its cover afterwards. */
  lemma {:induction false} DrainCovers(files: map<string, Content>, failing: set<string>, dir: string,
                                       fetch: string -> Option<(int, int)>, q: seq<CacheIcon>)
    ensures forall i :: 0 <= i < |q| && fetch(q[i].url).Some? && CoverPath(dir, q[i].id) !in failing ==>
      CoverPath(dir, q[i].id) in Drain(files, failing, dir, fetch, q).files
    decreases |q|
  {
    if q != [] {
      var c := CoverPath(dir, q[0].id);
      var next := if c in files || fetch(q[0].url).None? || c in failing then files
                  else files[c := Square(fetch(q[0].url).value.0, fetch(q[0].url).value.1)];
      assert Drain(files, failing, dir, fetch, q).files == Drain(next, failing, dir, fetch, q[1..]).files;
      DrainCovers(next, failing, dir, fetch, q[1..]);
      DrainKeeps(next, failing, dir, fetch, q[1..]);
      forall i | 0 <= i < |q| && fetch(q[i].url).Some? && CoverPath(dir, q[i].id) !in failing
        ensures CoverPath(dir, q[i].id) in Drain(files, failing, dir, fetch, q).files
      {
        if i > 0 {
          assert q[1..][i - 1] == q[i];
        }
      }
    }
  }

  /** The pass reports an error only when some icon's download or write
    * failed, and when none failed every queued cover is on disk. */
  lemma {:induction false} DrainError(files: map<string, Content>, failing: set<string>, dir: string,
                                      fetch: string -> Option<(int, int)>, q: seq<CacheIcon>)
    ensures Drain(files, failing, dir, fetch, q).lastError.Some? ==>
      exists i :: 0 <= i < |q| && (fetch(q[i].url).None? || CoverPath(dir, q[i].id) in failing)
    ensures Drain(files, failing, dir, fetch, q).lastError.None? ==>
      forall i :: 0 <= i < |q| ==> CoverPath(dir, q[i].id) in Drain(files, failing, dir, fetch, q).files
    decreases |q|
  {
    if q != [] {
      var c := CoverPath(dir, q[0].id);
      var next := if c in files || fetch(q[0].url).None? || c in failing then files
                  else files[c := Square(fetch(q[0].url).value.0, fetch(q[0].url).value.1)];
      var r := Drain(next, failing, dir, fetch, q[1..]);
      assert Drain(files, failing, dir, fetch, q).files == r.files;
      DrainError(next, failing, dir, fetch, q[1..]);
      DrainKeeps(next, failing, dir, fetch, q[1..]);
      if r.lastError.Some? {
        var i :| 0 <= i < |q[1..]| && (fetch(q[1..][i].url).None? || CoverPath(dir, q[1..][i].id) in failing);
        assert q[1..][i] == q[i + 1];
      }
      if Drain(files, failing, dir, fetch, q).lastError.None? {
        forall i | 0 <= i < |q| ensures CoverPath(dir, q[i].id) in r.files {
          if i > 0 {
            assert q[1..][i - 1] == q[i];
          }
        }
      }
    }
  }

  // ---------------------------------------------------------------------
  // The cache

  class IconCache {
    const dir: string
    const queueFile: string
    var queue: seq<CacheIcon>
    var seen: set<Int64>

    /** The struct literal of `newIconCache`. */
    constructor (dir: string)
      ensures this.dir == dir && queueFile == dir + "/queue.txt"
      ensures queue == [] && seen == {}
    {
      this.dir := dir;
      queueFile := dir + "/queue.txt";
      queue := [];
      seen := {};
    }

    /** `newIconCache`: a cache whose queue is restored from the queue
      * file; the source panics on a load error, which is returned here. */
    static method New(dir: string, disk: Disk) returns (c: IconCache, err: Option<string>)
      modifies disk
      ensures fresh(c) && c.dir == dir && c.seen == {}
      ensures disk.failing == old(disk.failing)
      ensures c.queueFile == dir + "/queue.txt"
      ensures c.queueFile in disk.failing ==>
        err == Some("read icon queue") && c.queue == [] && disk.files == old(disk.files)
      ensures c.queueFile !in disk.failing && c.queueFile !in old(disk.files) ==>
        err.None? && c.queue == [] && disk.files == old(disk.files)
      ensures c.queueFile !in disk.failing && c.queueFile in old(disk.files) ==>
        var f := old(disk.files)[c.queueFile];
        if f.Text? && LoadedQueue(f.text).Some? then
          err.None? && c.queue == LoadedQueue(f.text).value && disk.files == old(disk.files)[c.queueFile := Text("")]
        else
          err == Some("load queue") && c.queue == [] && disk.files == old(disk.files)
    {
      c := new IconCache(dir);
      err := c.LoadQueue(disk);
    }

    predicate Exists(disk: Disk, b: Book)
      reads disk
    {
      CoverPath(dir, b.id) in disk.files
    }

    predicate HasQueue()
      reads this
    {
      |queue| > 0
    }

    /** `Add`: queue each book's cover as `AddBooks` says. */
    method Add(disk: Disk, books: seq<Book>)
      modifies this
      ensures Pending(queue, seen) == AddBooks(Pending(old(queue), old(seen)), disk.files, dir, books)
    {
      ghost var goal := AddBooks(Pending(queue, seen), disk.files, dir, books);
      var i := 0;
      while i < |books|
        invariant 0 <= i <= |books|
        invariant AddBooks(Pending(queue, seen), disk.files, dir, books[i..]) == goal
      {
        assert books[i..][1..] == books[i + 1..];
        var b := books[i];
        if Ext(b.imageURL) != ".png" && b.id !in seen {
          if CoverPath(dir, b.id) !in disk.files {
            queue := queue + [CacheIcon(b.id, b.imageURL)];
          }
          seen := seen + {b.id};
        }
        i := i + 1;
      }
    }

    /** `BookIcon`: the cover file when it exists; otherwise the book
      * icon, with the cover queued unless it is a placeholder. */
    method BookIcon(disk: Disk, b: Book) returns (icon: string)
      modifies this
      ensures Exists(disk, b) ==> icon == CoverPath(dir, b.id) && queue == old(queue) && seen == old(seen)
      ensures !Exists(disk, b) ==>
        icon == IconBook && Pending(queue, seen) == AddBook(Pending(old(queue), old(seen)), disk.files, dir, b)
    {
      var p := CoverPath(dir, b.id);
      if p in disk.files {
        return p;
      }
      if Ext(b.imageURL) == ".png" {
        return IconBook;
      }
      Add(disk, [b]);
      assert [b][1..] == [];
      icon := IconBook;
    }

    /** `loadQueue`: a missing queue file leaves the queue as it is; an
      * unreadable one is an error. Otherwise the queue is reset, and is
      * the file's records deduplicated by ID; the file is then emptied.
      * A file that does not parse leaves the queue empty and the file as
      * it is. The IDs restored are not marked seen. */
    method LoadQueue(disk: Disk) returns (err: Option<string>)
      modifies this, disk
      ensures seen == old(seen) && disk.failing == old(disk.failing)
      ensures queueFile in disk.failing ==>
        err == Some("read icon queue") && queue == old(queue) && disk.files == old(disk.files)
      ensures queueFile !in disk.failing && queueFile !in old(disk.files) ==>
        err.None? && queue == old(queue) && disk.files == old(disk.files)
      ensures queueFile !in disk.failing && queueFile in old(disk.files) ==>
        var c := old(disk.files)[queueFile];
        if c.Text? && LoadedQueue(c.text).Some? then
          err.None? && queue == LoadedQueue(c.text).value && disk.files == old(disk.files)[queueFile := Text("")]
        else
          err == Some("load queue") && queue == [] && disk.files == old(disk.files)
    {
      if queueFile in disk.failing {
        return Some("read icon queue");
      }
      if queueFile !in disk.files {
        return None;
      }
      queue := [];
      var content := disk.files[queueFile];
      if !content.Text? {
        return Some("load queue");
      }
      var records := ReadTSV(content.text);
      if records.None? {
        return Some("load queue");
      }
      queue := RestoreRows(records.value);
      disk.files := disk.files[queueFile := Text("")];
      err := None;
    }

    /** The loop of `loadQueue` over the records: each ID is parsed and
      * kept at its first occurrence only. */
    static method RestoreRows(rows: seq<(string, string)>) returns (q: seq<CacheIcon>)
      ensures q == Dedup(RowIcons(rows), {})
    {
      q := [];
      var got: set<Int64> := {};
      var i := 0;
      while i < |rows|
        invariant 0 <= i <= |rows|
        invariant q + Dedup(RowIcons(rows[i..]), got) == Dedup(RowIcons(rows), {})
      {
        assert rows[i..][1..] == rows[i + 1..];
        var id := ParseInt64(rows[i].0).0;
        if id !in got {
          q := q + [CacheIcon(id, rows[i].1)];
          got := got + {id};
        }
        i := i + 1;
      }
    }

    /** The TSV writer's loop of `Close`. */
    static method EncodeRows(q: seq<CacheIcon>) returns (buf: string)
      ensures buf == EncodeQueue(q)
    {
      buf := "";
      var i := 0;
      while i < |q|
        invariant 0 <= i <= |q|
        invariant buf + EncodeQueue(q[i..]) == EncodeQueue(q)
      {
        assert q[i..][1..] == q[i + 1..];
        assert EncodeQueue(q[i..]) == (Row(q[i]) + "\n") + EncodeQueue(q[i + 1..]);
        buf := buf + (Row(q[i]) + "\n");
        i := i + 1;
      }
      assert q[i..] == [];
    }

    /** `Close`: the queue is written as TSV in place of the queue file,
      * and emptied only when the write succeeded. */
    method Close(disk: Disk) returns (err: Option<string>)
      modifies this, disk
      ensures seen == old(seen) && disk.failing == old(disk.failing)
      ensures queueFile in disk.failing ==>
        err == Some("write queue file") && queue == old(queue) && disk.files == old(disk.files)
      ensures queueFile !in disk.failing ==>
        err.None? && queue == [] && disk.files == old(disk.files)[queueFile := Text(EncodeQueue(old(queue)))]
    {
      var buf := EncodeRows(queue);
      if queueFile in disk.failing {
        return Some("write queue file");
      }
      disk.files := disk.files[queueFile := Text(buf)];
      queue := [];
      err := None;
    }

    /** The download loop of `ProcessQueue`, in queue order. */
    static method DrainLoop(files: map<string, Content>, failing: set<string>, dir: string,
                            fetch: string -> Option<(int, int)>, q: seq<CacheIcon>)
      returns (d: Drained)
      ensures d == Drain(files, failing, dir, fetch, q)
    {
      var fs := files;
      var err: Option<string> := None;
      var i := 0;
      while i < |q|
        invariant 0 <= i <= |q|
        invariant var r := Drain(fs, failing, dir, fetch, q[i..]);
          r.files == Drain(files, failing, dir, fetch, q).files
          && (if r.lastError.Some? then r.lastError else err) == Drain(files, failing, dir, fetch, q).lastError
      {
        assert q[i..][1..] == q[i + 1..];
        var p := CoverPath(dir, q[i].id);
        if p !in fs {
          var img := fetch(q[i].url);
          if img.None? {
            err := Some("download " + q[i].url);
          } else if p in failing {
            err := Some("save image " + q[i].url);
          } else {
            fs := fs[p := Square(img.value.0, img.value.1)];
          }
        }
        i := i + 1;
      }
      d := Drained(fs, err);
    }

    /** `ProcessQueue`: an empty queue does nothing; otherwise every
      * queued icon is attempted as `Drain` says, the last error is
      * returned, and the queue is emptied. */
    method ProcessQueue(disk: Disk, fetch: string -> Option<(int, int)>) returns (err: Option<string>)
      modifies this, disk
      ensures seen == old(seen) && disk.failing == old(disk.failing) && queue == []
      ensures old(queue) == [] ==> err.None? && disk.files == old(disk.files)
      ensures var d := Drain(old(disk.files), disk.failing, dir, fetch, old(queue));
        disk.files == d.files && err == d.lastError
    {
      if |queue| == 0 {
        return None;
      }
      var d := DrainLoop(disk.files, disk.failing, dir, fetch, queue);
      disk.files := d.files;
      err := d.lastError;
      queue := [];
    }
  }

  /** The cover URL of the example below is not a placeholder. */
  lemma JpgExt()
    ensures Ext("x.jpg") == ".jpg"
  {
    assert Ext("x.") == ".";
    assert Ext("x.j") == ".j" by { assert "x.j"[..2] == "x."; }
    assert Ext("x.jp") == ".jp" by { assert "x.jp"[..3] == "x.j"; }
    assert "x.jpg"[..4] == "x.jp";
  }

  /** The IDs restored by `loadQueue` are not marked seen, so adding a
    * book already in the restored queue (and not yet on disk) queues it
    * a second time. */
  lemma RestoredIDQueuedTwice(dir: string)
    ensures var b := ZeroBook.(id := 7, imageURL := "x.jpg");
      var r := AddBook(Pending([CacheIcon(7, "x.jpg")], {}), map[], dir, b);
      |r.queue| == 2 && r.queue[0].id == r.queue[1].id
  {
    var b := ZeroBook.(id := 7, imageURL := "x.jpg");
    JpgExt();
    assert !IsPlaceholder(b);
  }

  // ---------------------------------------------------------------------
  // The reload spinner

  const SpinnerIcons: seq<string> := ["icons/spinner-0.png", "icons/spinner-1.png", "icons/spinner-2.png"]

  /** One call of `spinnerIcon` with RELOAD_PROGRESS read as `n`: the
    * variable is set to `n + 1`, and the icon is the (n mod 3)-th
    * spinner; a negative `n` with a remainder indexes out of range, a
    * panic, which is None here. */
  datatype SpinnerStep = SpinnerStep(icon: Option<string>, next: int)

  function SpinnerIcon(n: int): (s: SpinnerStep)
    ensures s.next == n + 1
    ensures s.icon.None? <==> GoRem(n, 3) < 0
    ensures n >= 0 ==> s.icon == Some(SpinnerIcons[n % 3])
  {
    var k := GoRem(n, 3);
    SpinnerStep(if k < 0 then None else Some(SpinnerIcons[k]), n + 1)
  }

  /** From 0 the spinner shows its three frames in turn, for ever. */
  lemma SpinnerCycle(n: nat)
    ensures SpinnerIcon(n).icon == SpinnerIcon(n + 3).icon
    ensures SpinnerIcon(n).icon != SpinnerIcon(n + 1).icon
  {
    var k, q := n % 3, n / 3;
    assert n == 3 * q + k && 0 <= k < 3;
    assert (n + 3) % 3 == k by {
      assert n + 3 == 3 * (q + 1) + k;
    }
    var j := if k == 2 then 0 else k + 1;
    assert (n + 1) % 3 == j by {
      if k == 2 {
        assert n + 1 == 3 * (q + 1);
      } else {
        assert n + 1 == 3 * q + j;
      }
    }
    assert SpinnerIcons[0][14] == '0' && SpinnerIcons[1][14] == '1' && SpinnerIcons[2][14] == '2';
    assert SpinnerIcons[k] != SpinnerIcons[j] by {
      assert SpinnerIcons[k][14] != SpinnerIcons[j][14];
    }
  }
}
