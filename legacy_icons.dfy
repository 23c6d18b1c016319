/** The cover-icon queue of the older command (icons.go): covers are
  * queued by URL, the queue file holds one URL per line, and covers are
  * stored under a digest of their URL.
  *
  * As in IconQueue, the file system is a `Disk`, the download is the
  * parameter `fetch`, the digest is the parameter `hash`, and the
  * download goroutines are one sequential pass in queue order. */
module LegacyIcons {
  import opened Wrappers
  import opened Strings
  import opened Numbers
  import opened CacheKeys
  import opened Files

  const IconBook: string := "icons/book.png"
  const IconSpinner: string := "icons/spinner.png"

  /** `iconCache.cachefile`: the cover of a URL under the cache directory. */
  function CoverPath(hash: Hasher, dir: string, u: string): string
  {
    dir + "/" + LegacyCacheFile(hash, u, [".png"])
  }

  /** `Add(URL...)`: each URL not seen before is queued and marked seen. */
  function AddURLs(queue: seq<string>, seen: set<string>, urls: seq<string>): (seq<string>, set<string>)
    decreases |urls|
  {
    if urls == [] then (queue, seen)
    else if urls[0] in seen then AddURLs(queue, seen, urls[1..])
    else AddURLs(queue + [urls[0]], seen + {urls[0]}, urls[1..])
  }

  /** The URLs `Add` appends to the queue. */
  function Added(queue: seq<string>, seen: set<string>, urls: seq<string>): seq<string>
  {
    var q := AddURLs(queue, seen, urls).0;
    if |queue| <= |q| then q[|queue|..] else []
  }

  /** `Add` only appends: the old queue is a prefix of the new one, and
    * every URL appended was given and not seen before. */
  lemma {:induction false} AddURLsAppends(queue: seq<string>, seen: set<string>, urls: seq<string>)
    ensures var q := AddURLs(queue, seen, urls).0;
      |queue| <= |q| && q == queue + q[|queue|..]
      && forall j :: |queue| <= j < |q| ==> q[j] !in seen && q[j] in urls
    decreases |urls|
  {
    if urls != [] {
      var u, rest := urls[0], urls[1..];
      if u in seen {
        AddURLsAppends(queue, seen, rest);
      } else {
        AddURLsAppends(queue + [u], seen + {u}, rest);
      }
      var q := AddURLs(queue, seen, urls).0;
      forall j | |queue| <= j < |q| ensures q[j] in urls {
        assert u in urls;
        assert forall x :: x in rest ==> x in urls;
      }
    }
  }

  /** Afterwards every URL given is seen. */
  lemma {:induction false} AddURLsSeen(queue: seq<string>, seen: set<string>, urls: seq<string>)
    ensures AddURLs(queue, seen, urls).1 == seen + set u | u in urls
    decreases |urls|
  {
    if urls != [] {
      var u, rest := urls[0], urls[1..];
      assert (set x | x in urls) == {u} + set x | x in rest;
      if u in seen {
        AddURLsSeen(queue, seen, rest);
      } else {
        AddURLsSeen(queue + [u], seen + {u}, rest);
      }
    }
  }

  /** No URL is appended twice. */
  lemma {:induction false} AddURLsDistinct(queue: seq<string>, seen: set<string>, urls: seq<string>)
    ensures var q := AddURLs(queue, seen, urls).0;
      forall j, k :: |queue| <= j < k < |q| ==> q[j] != q[k]
    decreases |urls|
  {
    if urls != [] {
      var u, rest := urls[0], urls[1..];
      if u in seen {
        AddURLsDistinct(queue, seen, rest);
        var q := AddURLs(queue, seen, urls).0;
        assert q == AddURLs(queue, seen, rest).0;
        assert forall j, k :: |queue| <= j < k < |q| ==> q[j] != q[k];
      } else {
        var q0 := queue + [u];
        AddURLsDistinct(q0, seen + {u}, rest);
        AddURLsAppends(q0, seen + {u}, rest);
        var q := AddURLs(queue, seen, urls).0;
        assert q == AddURLs(q0, seen + {u}, rest).0;
        assert q[|queue|] == q0[|queue|] == u;
        forall j, k | |queue| <= j < k < |q| ensures q[j] != q[k] {
          if j == |queue| {
            assert q[k] !in seen + {u};
          }
        }
      }
    }
  }

  /** Every URL given that was not seen before is appended. */
  lemma {:induction false} AddURLsComplete(queue: seq<string>, seen: set<string>, urls: seq<string>, x: string)
    requires x in urls && x !in seen
    ensures x in Added(queue, seen, urls)
    decreases |urls|
  {
    var u, rest := urls[0], urls[1..];
    var q := AddURLs(queue, seen, urls).0;
    AddURLsAppends(queue, seen, urls);
    if u in seen || x != u {
      assert x in rest;
      if u in seen {
        AddURLsComplete(queue, seen, rest, x);
      } else {
        AddURLsComplete(queue + [u], seen + {u}, rest, x);
        AddURLsAppends(queue + [u], seen + {u}, rest);
        assert q[|queue| + 1..] == q[|queue|..][1..];
      }
    } else {
      AddURLsAppends(queue + [u], seen + {u}, rest);
      assert q[|queue|] == u;
    }
  }

  /** A line as bufio.ScanLines returns it: without a final '\r'. */
  function DropCR(line: string): string
  {
    if line != [] && line[|line| - 1] == '\r' then line[..|line| - 1] else line
  }

  /** The non-empty scanned lines, in order. */
  function QueueLines(lines: seq<string>): (q: seq<string>)
    ensures forall i :: 0 <= i < |q| ==> q[i] != ""
    decreases |lines|
  {
    if lines == [] then []
    else if DropCR(lines[0]) == "" then QueueLines(lines[1..])
    else [DropCR(lines[0])] + QueueLines(lines[1..])
  }

  /** The queue `loadQueue` reads from a file's text. */
  function ScannedQueue(text: string): seq<string>
  {
    QueueLines(Split(text, '\n'))
  }

  /** A URL that survives the newline-separated queue file unchanged. */
  predicate Storable(u: string)
  {
    u != "" && '\n' !in u && u[|u| - 1] != '\r'
  }

  lemma {:induction false} QueueLinesOf(q: seq<string>)
    requires forall i :: 0 <= i < |q| ==> Storable(q[i])
    ensures QueueLines(q) == q
    decreases |q|
  {
    if q != [] {
      assert Storable(q[0]);
      forall i | 0 <= i < |q[1..]| ensures Storable(q[1..][i]) {
        assert q[1..][i] == q[i + 1];
      }
      QueueLinesOf(q[1..]);
    }
  }

  /** Close, then loadQueue: the same list of URLs, when none is empty,
    * holds a newline or ends in a carriage return. */
  lemma CloseLoadRoundTrip(q: seq<string>)
    requires forall i :: 0 <= i < |q| ==> Storable(q[i])
    ensures ScannedQueue(Join(q, '\n')) == q
  {
    if q == [] {
      assert Split("", '\n') == [""];
    } else {
      SplitJoin(q, '\n');
      QueueLinesOf(q);
    }
  }

  /** The square cover written for an image of this size. */
  function Square(width: int, height: int): (c: Content)
    ensures c.Picture? && c.width == c.height && c.width >= width && c.width >= height
    ensures c.width == width || c.width == height
  {
    var n := if height > width then height else width;
    Picture(n, n)
  }

  datatype Drained = Drained(files: map<string, Content>, lastError: Option<string>)

  /** The download pass: every URL is downloaded, whether or not its
    * cover exists, squared and written; failures are recorded and the
    * pass goes on. */
  function Drain(hash: Hasher, files: map<string, Content>, failing: set<string>, dir: string,
                 fetch: string -> Option<(int, int)>, q: seq<string>): Drained
    decreases |q|
  {
    if q == [] then Drained(files, None)
    else
      var p := CoverPath(hash, dir, q[0]);
      var step: (map<string, Content>, Option<string>) :=
        match fetch(q[0])
        case None => (files, Some("download " + q[0]))
        case Some(size) =>
          if p in failing then (files, Some("save image " + q[0]))
          else (files[p := Square(size.0, size.1)], None);
      var r := Drain(hash, step.0, failing, dir, fetch, q[1..]);
      Drained(r.files, if r.lastError.Some? then r.lastError else step.1)
  }

  /** Every URL whose download succeeds and whose path can be written has
    * its cover afterwards, and an error is reported only for a URL whose
    * download or write failed. */
  lemma {:induction false} DrainSpec(hash: Hasher, files: map<string, Content>, failing: set<string>, dir: string,
                                     fetch: string -> Option<(int, int)>, q: seq<string>)
    ensures var d := Drain(hash, files, failing, dir, fetch, q);
      (forall i :: 0 <= i < |q| && fetch(q[i]).Some? && CoverPath(hash, dir, q[i]) !in failing ==>
         CoverPath(hash, dir, q[i]) in d.files)
      && (d.lastError.Some? ==>
            exists i :: 0 <= i < |q| && (fetch(q[i]).None? || CoverPath(hash, dir, q[i]) in failing))
      && files.Keys <= d.files.Keys
    decreases |q|
  {
    if q != [] {
      var p := CoverPath(hash, dir, q[0]);
      var next := if fetch(q[0]).None? || p in failing then files
                  else files[p := Square(fetch(q[0]).value.0, fetch(q[0]).value.1)];
      var r := Drain(hash, next, failing, dir, fetch, q[1..]);
      DrainSpec(hash, next, failing, dir, fetch, q[1..]);
      forall i | 0 <= i < |q| && fetch(q[i]).Some? && CoverPath(hash, dir, q[i]) !in failing
        ensures CoverPath(hash, dir, q[i]) in r.files
      {
        if i > 0 {
          assert q[1..][i - 1] == q[i];
        }
      }
      if r.lastError.Some? {
        var i :| 0 <= i < |q[1..]| && (fetch(q[1..][i]).None? || CoverPath(hash, dir, q[1..][i]) in failing);
        assert q[1..][i] == q[i + 1];
      }
    }
  }

  class IconCache {
    const dir: string
    const queueFile: string
    const hash: Hasher
    var queue: seq<string>
    var seen: set<string>

    /** The struct literal of `newIconCache`. */
    constructor (dir: string, hash: Hasher)
      ensures this.dir == dir && this.hash == hash && queueFile == dir + "/queue.txt"
      ensures queue == [] && seen == {}
    {
      this.dir := dir;
      this.hash := hash;
      queueFile := dir + "/queue.txt";
      queue := [];
      seen := {};
    }

    /** `Add`: each URL not seen before is queued once. */
    method Add(urls: seq<string>)
      modifies this
      ensures (queue, seen) == AddURLs(old(queue), old(seen), urls)
    {
      var i := 0;
      while i < |urls|
        invariant 0 <= i <= |urls|
        invariant AddURLs(queue, seen, urls[i..]) == AddURLs(old(queue), old(seen), urls)
      {
        assert urls[i..][1..] == urls[i + 1..];
        if urls[i] !in seen {
          queue := queue + [urls[i]];
          seen := seen + {urls[i]};
        }
        i := i + 1;
      }
    }

    /** `BookIcon`: any .png URL gives the book icon before the cache is
      * looked at; otherwise the cover file when it exists, else the book
      * icon with the URL queued. */
    method BookIcon(disk: Disk, imageURL: string) returns (icon: string)
      modifies this
      ensures Ext(imageURL) == ".png" ==> icon == IconBook && queue == old(queue) && seen == old(seen)
      ensures Ext(imageURL) != ".png" && CoverPath(hash, dir, imageURL) in disk.files ==>
        icon == CoverPath(hash, dir, imageURL) && queue == old(queue) && seen == old(seen)
      ensures Ext(imageURL) != ".png" && CoverPath(hash, dir, imageURL) !in disk.files ==>
        icon == IconBook && (queue, seen) == AddURLs(old(queue), old(seen), [imageURL])
    {
      if Ext(imageURL) == ".png" {
        return IconBook;
      }
      var p := CoverPath(hash, dir, imageURL);
      if p in disk.files {
        return p;
      }
      Add([imageURL]);
      icon := IconBook;
    }

    /** The scanner loop of `loadQueue`. */
    static method ScanQueue(text: string) returns (q: seq<string>)
      ensures q == ScannedQueue(text)
    {
      var lines := Split(text, '\n');
      q := [];
      var i := 0;
      while i < |lines|
        invariant 0 <= i <= |lines|
        invariant q + QueueLines(lines[i..]) == QueueLines(lines)
      {
        assert lines[i..][1..] == lines[i + 1..];
        var s := DropCR(lines[i]);
        if s != "" {
          q := q + [s];
        }
        i := i + 1;
      }
    }

    /** `loadQueue`: a missing file leaves the queue as it is; otherwise
      * the queue becomes the file's non-empty lines, in order and not
      * deduplicated, and the file is emptied. */
    method LoadQueue(disk: Disk) returns (err: Option<string>)
      modifies this, disk
      ensures seen == old(seen) && disk.failing == old(disk.failing)
      ensures queueFile in disk.failing ==>
        err == Some("read icon queue") && queue == old(queue) && disk.files == old(disk.files)
      ensures queueFile !in disk.failing && queueFile !in old(disk.files) ==>
        err.None? && queue == old(queue) && disk.files == old(disk.files)
      ensures queueFile !in disk.failing && queueFile in old(disk.files) ==>
        var c := old(disk.files)[queueFile];
        if c.Text? then
          err.None? && queue == ScannedQueue(c.text) && disk.files == old(disk.files)[queueFile := Text("")]
        else
          err == Some("load queue") && queue == [] && disk.files == old(disk.files)
    {
      if queueFile in disk.failing {
        return Some("read icon queue");
      }
      if queueFile !in disk.files {
        return None;
      }
      queue := [];
      var content := disk.files[queueFile];
      if !content.Text? {
        return Some("load queue");
      }
      queue := ScanQueue(content.text);
      disk.files := disk.files[queueFile := Text("")];
      err := None;
    }

    /** `Close`: the URLs newline-joined replace the queue file, and the
      * queue is emptied only when the write succeeded. */
    method Close(disk: Disk) returns (err: Option<string>)
      modifies this, disk
      ensures seen == old(seen) && disk.failing == old(disk.failing)
      ensures queueFile in disk.failing ==>
        err == Some("save queue") && queue == old(queue) && disk.files == old(disk.files)
      ensures queueFile !in disk.failing ==>
        err.None? && queue == [] && disk.files == old(disk.files)[queueFile := Text(Join(old(queue), '\n'))]
    {
      if queueFile in disk.failing {
        return Some("save queue");
      }
      disk.files := disk.files[queueFile := Text(Join(queue, '\n'))];
      queue := [];
      err := None;
    }

    /** The download loop of `ProcessQueue`. */
    static method DrainLoop(hash: Hasher, files: map<string, Content>, failing: set<string>, dir: string,
                            fetch: string -> Option<(int, int)>, q: seq<string>)
      returns (d: Drained)
      ensures d == Drain(hash, files, failing, dir, fetch, q)
    {
      var fs := files;
      var err: Option<string> := None;
      var i := 0;
      while i < |q|
        invariant 0 <= i <= |q|
        invariant var r := Drain(hash, fs, failing, dir, fetch, q[i..]);
          r.files == Drain(hash, files, failing, dir, fetch, q).files
          && (if r.lastError.Some? then r.lastError else err) == Drain(hash, files, failing, dir, fetch, q).lastError
      {
        assert q[i..][1..] == q[i + 1..];
        var p := CoverPath(hash, dir, q[i]);
        var img := fetch(q[i]);
        if img.None? {
          err := Some("download " + q[i]);
        } else if p in failing {
          err := Some("save image " + q[i]);
        } else {
          fs := fs[p := Square(img.value.0, img.value.1)];
        }
        i := i + 1;
      }
      d := Drained(fs, err);
    }

    /** `ProcessQueue`: an empty queue does nothing; otherwise every URL
      * is downloaded as `Drain` says, the last error is returned, and the
      * queue is emptied. */
    method ProcessQueue(disk: Disk, fetch: string -> Option<(int, int)>) returns (err: Option<string>)
      modifies this, disk
      ensures seen == old(seen) && disk.failing == old(disk.failing) && queue == []
      ensures old(queue) == [] ==> err.None? && disk.files == old(disk.files)
      ensures var d := Drain(hash, old(disk.files), disk.failing, dir, fetch, old(queue));
        disk.files == d.files && err == d.lastError
    {
      if |queue| == 0 {
        return None;
      }
      var d := DrainLoop(hash, disk.files, disk.failing, dir, fetch, queue);
      disk.files := d.files;
      err := d.lastError;
      queue := [];
    }
  }

  /** One call of `spinnerIcon` with RELOAD_PROGRESS read as `current`:
    * the icon shown, and the value stored for the next call. */
  function SpinnerIcon(current: int): (r: (string, int))
    ensures r.1 == (if current + 1 > 2 then 0 else current + 1)
    ensures current == 0 <==> r.0 == IconSpinner
    ensures current != 0 ==> r.0 == "icons/spinner-" + IntToDec(current * 15) + ".png"
  {
    var next := if current + 1 > 2 then 0 else current + 1;
    (if current == 0 then IconSpinner else "icons/spinner-" + IntToDec(current * 15) + ".png", next)
  }

  /** RELOAD_PROGRESS cycles 0, 1, 2, 0, and any value of 2 or more goes
    * back to 0. */
  lemma SpinnerCycle(current: int)
    ensures SpinnerIcon(0).1 == 1 && SpinnerIcon(1).1 == 2 && SpinnerIcon(2).1 == 0
    ensures current >= 2 ==> SpinnerIcon(current).1 == 0
    ensures 0 <= current <= 2 ==> 0 <= SpinnerIcon(current).1 <= 2
  {
  }
}
