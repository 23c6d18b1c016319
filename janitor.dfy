/** Cache housekeeping (pkg/cli/cache.go): the cleaner that deletes stale
  * cached queries and covers and then the empty directories left behind,
  * the per-cache age limits, and the feed job that queues shelf covers.
  *
  * `filepath.Walk` is its visit sequence, `time.Now` the parameter `now`,
  * the random jitter the parameter `k`, and the file system a set of
  * paths with the paths that cannot be listed or removed. */
module Janitor {
  import opened Wrappers
  import opened Strings
  import opened Numbers
  import opened GrTypes
  import opened Files
  import opened IconQueue

  /** One call of the walk function: the path, whether it is a directory,
    * its modification time, and whether the walk reported an error. */
  datatype Visit = Visit(path: string, isDir: bool, modTime: int, failed: bool)

  /** `cacheDir`: a directory recorded by the file pass. */
  datatype CacheDir = CacheDir(path: string, modTime: int)

  /** The cache directory tree. A directory is empty when no path lies
    * under it. */
  class CacheTree {
    var paths: set<string>
    var unreadable: set<string>
    var locked: set<string>

    constructor (paths: set<string>, unreadable: set<string>, locked: set<string>)
      ensures this.paths == paths && this.unreadable == unreadable && this.locked == locked
    {
      this.paths := paths;
      this.unreadable := unreadable;
      this.locked := locked;
    }
  }

  predicate Under(p: string, dir: string)
  {
    HasPrefix(p, dir + "/")
  }

  predicate IsEmptyDir(paths: set<string>, dir: string)
  {
    forall p :: p in paths ==> !Under(p, dir)
  }

  // ---------------------------------------------------------------------
  // The file pass

  /** A file `cleanFiles` deletes: not a directory, a cached query or
    * cover, and older than its limit. */
  predicate Stale(v: Visit, now: int, maxAge: string -> int)
  {
    !v.isDir && (Ext(v.path) == ".json" || Ext(v.path) == ".png") && now - v.modTime > maxAge(v.path)
  }

  /** What the file pass leaves: the directories recorded, the paths
    * still present, and the error that stopped it. */
  datatype Pass = Pass(dirs: seq<CacheDir>, paths: set<string>, err: Option<string>)

  /** `cleanFiles`: directories are recorded, stale files removed; a walk
    * error or a failed removal stops the walk. */
  function CleanFiles(walk: seq<Visit>, dirs: seq<CacheDir>, paths: set<string>, locked: set<string>,
                      now: int, maxAge: string -> int): Pass
    decreases |walk|
  {
    if walk == [] then Pass(dirs, paths, None)
    else
      var v := walk[0];
      if v.failed then Pass(dirs, paths, Some("walk " + v.path))
      else if v.isDir then CleanFiles(walk[1..], dirs + [CacheDir(v.path, v.modTime)], paths, locked, now, maxAge)
      else if !Stale(v, now, maxAge) then CleanFiles(walk[1..], dirs, paths, locked, now, maxAge)
      else if v.path in locked then Pass(dirs, paths, Some("remove " + v.path))
      else CleanFiles(walk[1..], dirs, paths - {v.path}, locked, now, maxAge)
  }

  /** The directories of a walk, in walk order. */
  function DirsOf(walk: seq<Visit>): seq<CacheDir>
    decreases |walk|
  {
    if walk == [] then []
    else (if walk[0].isDir then [CacheDir(walk[0].path, walk[0].modTime)] else []) + DirsOf(walk[1..])
  }

  /** The paths of the stale files a walk visits. */
  function StalePaths(walk: seq<Visit>, now: int, maxAge: string -> int): set<string>
    decreases |walk|
  {
    if walk == [] then {}
    else (if Stale(walk[0], now, maxAge) then {walk[0].path} else {}) + StalePaths(walk[1..], now, maxAge)
  }

  /** `StalePaths` holds exactly the paths of the stale visits. */
  lemma {:induction false} StalePathsMembers(walk: seq<Visit>, now: int, maxAge: string -> int, p: string)
    ensures p in StalePaths(walk, now, maxAge) <==>
      exists i :: 0 <= i < |walk| && walk[i].path == p && Stale(walk[i], now, maxAge)
    decreases |walk|
  {
    if walk != [] {
      StalePathsMembers(walk[1..], now, maxAge, p);
      if p in StalePaths(walk[1..], now, maxAge) {
        var i :| 0 <= i < |walk[1..]| && walk[1..][i].path == p && Stale(walk[1..][i], now, maxAge);
        assert walk[i + 1] == walk[1..][i];
      }
      if exists i :: 0 <= i < |walk| && walk[i].path == p && Stale(walk[i], now, maxAge) {
        var i :| 0 <= i < |walk| && walk[i].path == p && Stale(walk[i], now, maxAge);
        if i > 0 {
          assert walk[1..][i - 1] == walk[i];
        }
      }
    }
  }

  /** The file pass removes nothing but stale files it visited, in
    * particular no directory. */
  lemma {:induction false} CleanFilesRemovesOnlyStale(walk: seq<Visit>, dirs: seq<CacheDir>, paths: set<string>,
                                                      locked: set<string>, now: int, maxAge: string -> int)
    ensures var r := CleanFiles(walk, dirs, paths, locked, now, maxAge);
      r.paths <= paths && paths - r.paths <= StalePaths(walk, now, maxAge)
    decreases |walk|
  {
    if walk != [] && !walk[0].failed {
      var v := walk[0];
      var next := if !v.isDir && Stale(v, now, maxAge) && v.path !in locked then paths - {v.path} else paths;
      var nextDirs := if v.isDir then dirs + [CacheDir(v.path, v.modTime)] else dirs;
      if v.isDir || !Stale(v, now, maxAge) || v.path !in locked {
        assert CleanFiles(walk, dirs, paths, locked, now, maxAge) == CleanFiles(walk[1..], nextDirs, next, locked, now, maxAge);
        CleanFilesRemovesOnlyStale(walk[1..], nextDirs, next, locked, now, maxAge);
      }
    }
  }

  /** A pass that ends without error has recorded every directory, in walk
    * order, and removed every stale file it visited. */
  lemma {:induction false} CleanFilesComplete(walk: seq<Visit>, dirs: seq<CacheDir>, paths: set<string>,
                                              locked: set<string>, now: int, maxAge: string -> int)
    ensures var r := CleanFiles(walk, dirs, paths, locked, now, maxAge);
      r.err.None? ==> r.dirs == dirs + DirsOf(walk) && StalePaths(walk, now, maxAge) !! r.paths
    decreases |walk|
  {
    if walk != [] && !walk[0].failed {
      var v := walk[0];
      var next := if !v.isDir && Stale(v, now, maxAge) && v.path !in locked then paths - {v.path} else paths;
      var nextDirs := if v.isDir then dirs + [CacheDir(v.path, v.modTime)] else dirs;
      if v.isDir || !Stale(v, now, maxAge) || v.path !in locked {
        assert CleanFiles(walk, dirs, paths, locked, now, maxAge) == CleanFiles(walk[1..], nextDirs, next, locked, now, maxAge);
        CleanFilesComplete(walk[1..], nextDirs, next, locked, now, maxAge);
        CleanFilesRemovesOnlyStale(walk[1..], nextDirs, next, locked, now, maxAge);
      }
    }
  }

  /** A pass stops only at a visit the walk reported as failed or at a
    * stale file that could not be removed. */
  lemma {:induction false} CleanFilesError(walk: seq<Visit>, dirs: seq<CacheDir>, paths: set<string>,
                                           locked: set<string>, now: int, maxAge: string -> int)
    ensures CleanFiles(walk, dirs, paths, locked, now, maxAge).err.Some? ==>
      exists i :: 0 <= i < |walk| && (walk[i].failed || (Stale(walk[i], now, maxAge) && walk[i].path in locked))
    decreases |walk|
  {
    if walk != [] && !walk[0].failed {
      var v := walk[0];
      var next := if !v.isDir && Stale(v, now, maxAge) && v.path !in locked then paths - {v.path} else paths;
      var nextDirs := if v.isDir then dirs + [CacheDir(v.path, v.modTime)] else dirs;
      if v.isDir || !Stale(v, now, maxAge) || v.path !in locked {
        CleanFilesError(walk[1..], nextDirs, next, locked, now, maxAge);
        if CleanFiles(walk[1..], nextDirs, next, locked, now, maxAge).err.Some? {
          var i :| 0 <= i < |walk[1..]| && (walk[1..][i].failed || (Stale(walk[1..][i], now, maxAge) && walk[1..][i].path in locked));
          assert walk[i + 1] == walk[1..][i];
        }
      }
    }
  }

  // ---------------------------------------------------------------------
  // The directory pass

  /** `sort.Reverse(cacheDirs)`: paths in decreasing byte order. */
  predicate SortedDesc(s: seq<CacheDir>)
  {
    forall i, j :: 0 <= i < j < |s| ==> !Less(s[i].path, s[j].path)
  }

  /** Insert into a list sorted by decreasing path. */
  function InsertDesc(d: CacheDir, s: seq<CacheDir>): (r: seq<CacheDir>)
    requires SortedDesc(s)
    ensures SortedDesc(r) && multiset(r) == multiset(s) + multiset{d}
    decreases |s|
  {
    if s == [] || !Less(d.path, s[0].path) then
      LessAsymmetricAll(d, s);
      [d] + s
    else
      var t := InsertDesc(d, s[1..]);
      assert s == [s[0]] + s[1..];
      LessNotBefore(s[0], d, s[1..], t);
      [s[0]] + t
  }

  /** Before a head that does not sort below `d`, `d` can lead. */
  lemma LessAsymmetricAll(d: CacheDir, s: seq<CacheDir>)
    requires SortedDesc(s)
    requires s == [] || !Less(d.path, s[0].path)
    ensures SortedDesc([d] + s)
  {
    forall j | 0 <= j < |s| ensures !Less(d.path, s[j].path) {
      if Less(d.path, s[j].path) {
        assert j > 0;
        assert !Less(s[0].path, s[j].path);
        if d.path == s[0].path {
        } else {
          LessTotal(d.path, s[0].path);
          LessTransitive(s[0].path, d.path, s[j].path);
        }
      }
    }
    forall i, j | 0 <= i < j < |[d] + s| ensures !Less(([d] + s)[i].path, ([d] + s)[j].path) {
      if i > 0 {
        assert ([d] + s)[i] == s[i - 1] && ([d] + s)[j] == s[j - 1];
      }
    }
  }

  /** A head that sorts below `d`'s insertion point stays in front. */
  lemma LessNotBefore(h: CacheDir, d: CacheDir, rest: seq<CacheDir>, t: seq<CacheDir>)
    requires SortedDesc([h] + rest) && Less(d.path, h.path)
    requires SortedDesc(t) && multiset(t) == multiset(rest) + multiset{d}
    ensures SortedDesc([h] + t)
  {
    forall j | 0 <= j < |t| ensures !Less(h.path, t[j].path) {
      assert t[j] in multiset(t);
      if t[j] == d {
        LessIrreflexive(h.path);
        if Less(h.path, d.path) {
          LessTransitive(h.path, d.path, h.path);
        }
      } else {
        assert t[j] in multiset(rest);
        assert t[j] in rest;
        var k :| 0 <= k < |rest| && rest[k] == t[j];
        assert ([h] + rest)[0] == h && ([h] + rest)[k + 1] == rest[k];
      }
    }
    forall i, j | 0 <= i < j < |[h] + t| ensures !Less(([h] + t)[i].path, ([h] + t)[j].path) {
      if i > 0 {
        assert ([h] + t)[i] == t[i - 1] && ([h] + t)[j] == t[j - 1];
      }
    }
  }

  /** The order `sort.Sort(sort.Reverse(cacheDirs(dirs)))` leaves. */
  function SortDesc(s: seq<CacheDir>): (r: seq<CacheDir>)
    ensures SortedDesc(r) && multiset(r) == multiset(s)
    decreases |s|
  {
    if s == [] then []
    else
      assert s == [s[0]] + s[1..];
      InsertDesc(s[0], SortDesc(s[1..]))
  }

  /** In decreasing path order a directory comes after everything inside
    * it, so the directory pass sees a subdirectory before its parent. */
  lemma ChildBeforeParent(s: seq<CacheDir>, i: int, j: int)
    requires SortedDesc(s) && 0 <= i < |s| && 0 <= j < |s|
    requires Under(s[j].path, s[i].path)
    ensures j < i
  {
    var parent := s[i].path;
    var child := s[j].path;
    assert |child| > |parent| && child[..|parent|] == parent by {
      assert child[..|parent + "/"|] == parent + "/";
      assert child[..|parent|] == (parent + "/")[..|parent|];
    }
    PrefixLess(parent, child);
    LessIrreflexive(parent);
  }

  /** The grace period for empty directories. */
  const DirGrace: int := 72 * Hour

  /** `cleanDirs` on the sorted list: the root and directories modified
    * less than 72 hours ago are skipped; a directory that cannot be
    * listed stops the pass; an empty one is removed, and a failed
    * removal stops the pass. */
  function CleanDirs(order: seq<CacheDir>, root: string, paths: set<string>, unreadable: set<string>,
                     locked: set<string>, now: int): (set<string>, Option<string>)
    decreases |order|
  {
    if order == [] then (paths, None)
    else
      var d := order[0];
      if d.path == root || now - d.modTime < DirGrace then CleanDirs(order[1..], root, paths, unreadable, locked, now)
      else if d.path in unreadable then (paths, Some("read " + d.path))
      else if !IsEmptyDir(paths, d.path) then CleanDirs(order[1..], root, paths, unreadable, locked, now)
      else if d.path in locked then (paths, Some("remove " + d.path))
      else CleanDirs(order[1..], root, paths - {d.path}, unreadable, locked, now)
  }

  /** The listed directories other than the root modified at least 72
    * hours ago: the only ones the pass may remove. */
  function OldDirs(order: seq<CacheDir>, root: string, now: int): set<string>
    decreases |order|
  {
    if order == [] then {}
    else ((if order[0].path != root && now - order[0].modTime >= DirGrace then {order[0].path} else {})
          + OldDirs(order[1..], root, now))
  }

  /** `cleanDirs` never removes the root, a directory younger than 72
    * hours, or a directory with anything left under it. */
  lemma {:induction false} CleanDirsSafe(order: seq<CacheDir>, root: string, paths: set<string>, unreadable: set<string>,
                                         locked: set<string>, now: int)
    ensures var r := CleanDirs(order, root, paths, unreadable, locked, now).0;
      r <= paths && paths - r <= OldDirs(order, root, now)
      && forall p :: p in paths - r ==> IsEmptyDir(r, p)
    decreases |order|
  {
    if order != [] {
      var d := order[0];
      var young := d.path == root || now - d.modTime < DirGrace;
      var keep := young || !IsEmptyDir(paths, d.path);
      if young || (d.path !in unreadable && (keep || d.path !in locked)) {
        var next := if keep then paths else paths - {d.path};
        assert CleanDirs(order, root, paths, unreadable, locked, now)
          == CleanDirs(order[1..], root, next, unreadable, locked, now);
        CleanDirsSafe(order[1..], root, next, unreadable, locked, now);
      }
    }
  }

  // ---------------------------------------------------------------------
  // The cleaner

  /** `dirCleaner`: a cache root, the age limit for its files, and the
    * directories found by the file pass. */
  class DirCleaner {
    const root: string
    const maxAge: string -> int
    var dirs: seq<CacheDir>

    constructor (root: string, maxAge: string -> int)
      ensures this.root == root && this.maxAge == maxAge && dirs == []
    {
      this.root := root;
      this.maxAge := maxAge;
      dirs := [];
    }

    /** `addDir`. */
    method AddDir(path: string, modTime: int)
      modifies this
      ensures dirs == old(dirs) + [CacheDir(path, modTime)]
    {
      dirs := dirs + [CacheDir(path, modTime)];
    }

    /** `cleanFiles`: the walk as `CleanFiles` says. */
    method CleanFilesPass(tree: CacheTree, walk: seq<Visit>, now: int) returns (err: Option<string>)
      modifies this, tree`paths
      ensures var r := CleanFiles(walk, old(dirs), old(tree.paths), tree.locked, now, maxAge);
        dirs == r.dirs && tree.paths == r.paths && err == r.err
    {
      var i := 0;
      while i < |walk|
        invariant 0 <= i <= |walk|
        invariant CleanFiles(walk[i..], dirs, tree.paths, tree.locked, now, maxAge)
          == CleanFiles(walk, old(dirs), old(tree.paths), tree.locked, now, maxAge)
      {
        assert walk[i..][1..] == walk[i + 1..];
        var v := walk[i];
        if v.failed {
          return Some("walk " + v.path);
        }
        if v.isDir {
          AddDir(v.path, v.modTime);
        } else if Ext(v.path) == ".json" || Ext(v.path) == ".png" {
          if now - v.modTime > maxAge(v.path) {
            if v.path in tree.locked {
              return Some("remove " + v.path);
            }
            tree.paths := tree.paths - {v.path};
          }
        }
        i := i + 1;
      }
      err := None;
    }

    /** The loop of `cleanDirs` over the sorted directories. */
    static method DirsLoop(order: seq<CacheDir>, root: string, tree: CacheTree, now: int) returns (err: Option<string>)
      modifies tree`paths
      ensures (tree.paths, err) == CleanDirs(order, root, old(tree.paths), tree.unreadable, tree.locked, now)
    {
      var i := 0;
      while i < |order|
        invariant 0 <= i <= |order|
        invariant CleanDirs(order[i..], root, tree.paths, tree.unreadable, tree.locked, now)
          == CleanDirs(order, root, old(tree.paths), tree.unreadable, tree.locked, now)
      {
        assert order[i..][1..] == order[i + 1..];
        var d := order[i];
        if d.path != root && now - d.modTime >= DirGrace {
          if d.path in tree.unreadable {
            return Some("read " + d.path);
          }
          if IsEmptyDir(tree.paths, d.path) {
            if d.path in tree.locked {
              return Some("remove " + d.path);
            }
            tree.paths := tree.paths - {d.path};
          }
        }
        i := i + 1;
      }
      err := None;
    }

    /** `cleanDirs`: sort the directories by decreasing path, then visit
      * them as `CleanDirs` says. */
    method CleanDirsPass(tree: CacheTree, now: int) returns (err: Option<string>)
      modifies this, tree`paths
      ensures dirs == SortDesc(old(dirs))
      ensures (tree.paths, err) == CleanDirs(dirs, root, old(tree.paths), tree.unreadable, tree.locked, now)
    {
      dirs := SortDesc(dirs);
      err := DirsLoop(dirs, root, tree, now);
    }

    /** `Clean`: the file pass, and the directory pass only when the file
      * pass ended without error. */
    method Clean(tree: CacheTree, walk: seq<Visit>, now: int) returns (err: Option<string>)
      modifies this, tree`paths
      ensures var r := CleanFiles(walk, old(dirs), old(tree.paths), tree.locked, now, maxAge);
        if r.err.Some? then (err == r.err && dirs == r.dirs && tree.paths == r.paths)
        else (dirs == SortDesc(r.dirs)
              && (tree.paths, err) == CleanDirs(dirs, root, r.paths, tree.unreadable, tree.locked, now))
    {
      err := CleanFilesPass(tree, walk, now);
      if err.Some? {
        return;
      }
      err := CleanDirsPass(tree, now);
    }
  }

  /** A whole clean removes only stale files it visited and old empty
    * directories other than the root, and after a clean without error
    * no stale file is left. */
  lemma CleanSafe(walk: seq<Visit>, root: string, paths: set<string>, unreadable: set<string>, locked: set<string>,
                  now: int, maxAge: string -> int)
    ensures var r := CleanFiles(walk, [], paths, locked, now, maxAge);
      var order := SortDesc(r.dirs);
      var final := CleanDirs(order, root, r.paths, unreadable, locked, now);
      r.err.None? ==>
        final.0 <= paths
        && paths - final.0 <= StalePaths(walk, now, maxAge) + OldDirs(order, root, now)
        && (final.1.None? ==> StalePaths(walk, now, maxAge) !! final.0)
  {
    var r := CleanFiles(walk, [], paths, locked, now, maxAge);
    CleanFilesRemovesOnlyStale(walk, [], paths, locked, now, maxAge);
    CleanFilesComplete(walk, [], paths, locked, now, maxAge);
    CleanDirsSafe(SortDesc(r.dirs), root, r.paths, unreadable, locked, now);
  }

  // ---------------------------------------------------------------------
  // Age limits

  /** The cover cache's limit in `runHousekeeping`: the configured icon
    * age minus 72 hours plus `k` hours, `k` drawn from [0, 72). */
  function IconsMaxAge(icons: int, k: int): int
  {
    icons - 72 * Hour + k * Hour
  }

  /** The jittered limit always lies between 72 hours and one hour below
    * the configured age. */
  lemma IconsMaxAgeBounds(icons: int, k: int)
    requires 0 <= k < 72
    ensures icons - 72 * Hour <= IconsMaxAge(icons, k) <= icons - Hour
  {
  }

  /** The other caches and their limits: authors and books use the
    * default age, queries the search age. */
  function OtherCaches(authorsDir: string, booksDir: string, searchDir: string,
                       defaultAge: int, searchAge: int): (r: seq<(string, int)>)
    ensures |r| == 3
    ensures r[0] == (authorsDir, defaultAge) && r[1] == (booksDir, defaultAge) && r[2] == (searchDir, searchAge)
  {
    [(authorsDir, defaultAge), (booksDir, defaultAge), (searchDir, searchAge)]
  }

  // ---------------------------------------------------------------------
  // The feed job

  /** How `runFeeds` ends. */
  datatype FeedsRun =
    | NoShelves
    | NoUser
    | NothingQueued
    | Queued(err: Option<string>)

  /** The books of a fetched feed, none for a feed that failed. */
  function FeedBooks(fetched: Option<seq<Book>>): seq<Book>
  {
    match fetched
    case None => []
    case Some(books) => books
  }

  /** Every shelf's feed, in order, added to the icon queue. */
  function AddFeeds(p: Pending, files: map<string, Content>, dir: string, shelves: seq<Shelf>,
                    feeds: string -> Option<seq<Book>>): Pending
    decreases |shelves|
  {
    if shelves == [] then p
    else AddFeeds(AddBooks(p, files, dir, FeedBooks(feeds(shelves[0].name))), files, dir, shelves[1..], feeds)
  }

  /** A failed feed is skipped and does not change the queue. */
  lemma FailedFeedSkipped(p: Pending, files: map<string, Content>, dir: string, s: Shelf, rest: seq<Shelf>,
                          feeds: string -> Option<seq<Book>>)
    requires feeds(s.name).None?
    ensures AddFeeds(p, files, dir, [s] + rest, feeds) == AddFeeds(p, files, dir, rest, feeds)
  {
    assert ([s] + rest)[1..] == rest;
  }

  /** `runFeeds`, given the restored icon cache: nothing without cached
    * shelves or a user; otherwise every shelf's feed is added, and when
    * anything is queued the queue is saved and the icon job started
    * (`jobErr` is the result of starting it). */
  method RunFeeds(icons: IconCache, disk: Disk, haveShelves: bool, userID: int, shelves: seq<Shelf>,
                  feeds: string -> Option<seq<Book>>, jobErr: Option<string>) returns (r: FeedsRun)
    modifies icons, disk
    ensures disk.failing == old(disk.failing)
    ensures !haveShelves ==> r == NoShelves && disk.files == old(disk.files) && icons.queue == old(icons.queue)
    ensures haveShelves && userID == 0 ==> r == NoUser && disk.files == old(disk.files) && icons.queue == old(icons.queue)
    ensures haveShelves && userID != 0 ==>
      var p := AddFeeds(Pending(old(icons.queue), old(icons.seen)), old(disk.files), icons.dir, shelves, feeds);
      icons.seen == p.seen
      && (p.queue == [] ==> r == NothingQueued && icons.queue == [] && disk.files == old(disk.files))
      && (p.queue != [] && icons.queueFile in disk.failing ==>
            r == Queued(Some("write queue file")) && icons.queue == p.queue && disk.files == old(disk.files))
      && (p.queue != [] && icons.queueFile !in disk.failing ==>
            r == Queued(jobErr) && icons.queue == []
            && disk.files == old(disk.files)[icons.queueFile := Text(EncodeQueue(p.queue))])
  {
    if !haveShelves {
      return NoShelves;
    }
    if userID == 0 {
      return NoUser;
    }
    ghost var goal := AddFeeds(Pending(icons.queue, icons.seen), disk.files, icons.dir, shelves, feeds);
    var i := 0;
    while i < |shelves|
      invariant 0 <= i <= |shelves|
      invariant disk.files == old(disk.files) && disk.failing == old(disk.failing)
      invariant AddFeeds(Pending(icons.queue, icons.seen), disk.files, icons.dir, shelves[i..], feeds) == goal
    {
      assert shelves[i..][1..] == shelves[i + 1..];
      var fetched := feeds(shelves[i].name);
      if fetched.Some? {
        icons.Add(disk, fetched.value);
      }
      i := i + 1;
    }
    if !icons.HasQueue() {
      return NothingQueued;
    }
    var err := icons.Close(disk);
    if err.Some? {
      return Queued(err);
    }
    r := Queued(jobErr);
  }
}
