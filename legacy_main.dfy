/** The command of the first version (main.go): its settings and their
  * normalisation, the choice of sub-command by flag, the author book list
  * cached in the background, the cache clean-up of `-check`, and the
  * cached, throttled search.
  *
  * Go's `flag` package, awgo's `Config.To`, the Keychain, the clock and
  * the Goodreads API are parameters: `PrepareOpts` starts from the fields
  * as loaded, flags are the set of flag names given, and every answer
  * from outside is an argument. */
module LegacyMain {
  import opened Wrappers
  import opened Strings
  import opened Numbers
  import opened CacheKeys
  import opened JsonCache
  import Paging
  import Janitor
  import Options
  import LegacyGoodreads
  import GrTypes
  import Seqs
  import Cli
  import AuthorCommand

  type Book = LegacyGoodreads.Book

  const MaxCacheAge: int := 24 * Hour
  const MinCacheAge: int := 1 * Minute
  const MaxIconCacheAge: int := 672 * Hour
  const MaxBooksPerAuthor: int := 100
  const MinBooksPerAuthor: int := 30
  const DefaultMinQueryLength: int := 3

  /* ---------- settings ---------- */

  /** `prepareOpts`' Keychain step: a configured key is kept; otherwise
    * the stored one is used, and a missing one leaves the key empty. */
  function APIKeyOf(apiKey: string, keychain: Options.KeychainGet): (r: string)
    ensures apiKey != "" ==> r == apiKey
    ensures apiKey == "" && keychain.Found? ==> r == keychain.value
    ensures apiKey == "" && !keychain.Found? ==> r == ""
  {
    if apiKey != "" then apiKey
    else match keychain
      case Found(v) => v
      case _ => ""
  }

  /** What the Keychain step logs: only an error other than a missing
    * item. */
  function KeychainLog(apiKey: string, keychain: Options.KeychainGet): (logged: seq<string>)
    ensures |logged| <= 1
    ensures logged != [] <==> apiKey == "" && keychain.KeychainFailed?
  {
    if apiKey == "" && keychain.KeychainFailed? then ["[ERROR] keychain: " + keychain.error] else []
  }

  /** `LastRequestParsed` after `UnmarshalText`: the parsed time; the zero
    * time when the text does not parse (Go's parser returns the zero time
    * with its error); unchanged when there is no text. */
  function ParsedLastRequest(lastRequest: string, parsed: Option<int>, parseTime: string -> Option<int>)
    : (r: Option<int>)
    ensures lastRequest == "" ==> r == parsed
    ensures lastRequest != "" ==> r == parseTime(lastRequest)
  {
    if lastRequest == "" then parsed else parseTime(lastRequest)
  }

  function ParseLog(lastRequest: string, parseTime: string -> Option<int>): (logged: seq<string>)
    ensures |logged| <= 1
    ensures logged != [] <==> lastRequest != "" && parseTime(lastRequest).None?
  {
    if lastRequest != "" && parseTime(lastRequest).None? then ["[ERROR] invalid LastRequest " + lastRequest] else []
  }

  /** A key found in the Keychain is kept on the next run: once set, the
    * key no longer depends on the Keychain. */
  lemma APIKeyStable(apiKey: string, keychain: Options.KeychainGet, later: Options.KeychainGet)
    requires APIKeyOf(apiKey, keychain) != ""
    ensures APIKeyOf(APIKeyOf(apiKey, keychain), later) == APIKeyOf(apiKey, keychain)
  {
  }

  class Settings {
    var maxBooks: int
    var maxCacheAge: int
    var apiKey: string
    var minQueryLength: int
    var lastRequest: string
    var lastRequestParsed: Option<int>
    var authorID: string
    var query: string

    /** The package's `opts`: 100 books, a day's cache, the zero time. */
    constructor ()
      ensures maxBooks == MaxBooksPerAuthor && maxCacheAge == MaxCacheAge
      ensures apiKey == "" && minQueryLength == 0 && lastRequest == "" && lastRequestParsed.None?
      ensures authorID == "" && query == ""
    {
      maxBooks := MaxBooksPerAuthor;
      maxCacheAge := MaxCacheAge;
      apiKey := "";
      minQueryLength := 0;
      lastRequest := "";
      lastRequestParsed := None;
      authorID := "";
      query := "";
    }

    /** `prepareOpts`, after the configuration is read: the first argument
      * becomes the trimmed query, the book count and cache age are raised
      * to their minimums, a zero minimum query length becomes 3, an unset
      * API key is read from the Keychain, and `LastRequest` is parsed.
      * Errors are only logged. */
    method PrepareOpts(positional: seq<string>, keychain: Options.KeychainGet, parseTime: string -> Option<int>)
      returns (logged: seq<string>)
      modifies this`query, this`maxBooks, this`maxCacheAge, this`minQueryLength, this`apiKey, this`lastRequestParsed
      ensures query == (if |positional| > 0 then TrimSpace(positional[0]) else old(query))
      ensures maxBooks == Options.AtLeast(old(maxBooks), MinBooksPerAuthor)
      ensures maxCacheAge == Options.AtLeast(old(maxCacheAge), MinCacheAge)
      ensures minQueryLength == (if old(minQueryLength) == 0 then DefaultMinQueryLength else old(minQueryLength))
      ensures apiKey == APIKeyOf(old(apiKey), keychain)
      ensures lastRequestParsed == ParsedLastRequest(old(lastRequest), old(lastRequestParsed), parseTime)
      ensures logged == KeychainLog(old(apiKey), keychain) + ParseLog(old(lastRequest), parseTime)
    {
      Normalise(positional);
      ghost var key0, request0 := apiKey, lastRequest;
      var keyLog := LoadAPIKey(keychain);
      assert keyLog == KeychainLog(key0, keychain);
      var parseLog := ParseLastRequest(parseTime);
      assert parseLog == ParseLog(request0, parseTime);
      logged := keyLog + parseLog;
    }

    /** The query and the minimums of `prepareOpts`. */
    method Normalise(positional: seq<string>)
      modifies this`query, this`maxBooks, this`maxCacheAge, this`minQueryLength
      ensures query == (if |positional| > 0 then TrimSpace(positional[0]) else old(query))
      ensures maxBooks == Options.AtLeast(old(maxBooks), MinBooksPerAuthor)
      ensures maxCacheAge == Options.AtLeast(old(maxCacheAge), MinCacheAge)
      ensures minQueryLength == (if old(minQueryLength) == 0 then DefaultMinQueryLength else old(minQueryLength))
    {
      if |positional| > 0 {
        query := TrimSpace(positional[0]);
      }
      if maxBooks < MinBooksPerAuthor {
        maxBooks := MinBooksPerAuthor;
      }
      if maxCacheAge < MinCacheAge {
        maxCacheAge := MinCacheAge;
      }
      if minQueryLength == 0 {
        minQueryLength := DefaultMinQueryLength;
      }
    }

    /** The Keychain step of `prepareOpts`. */
    method LoadAPIKey(keychain: Options.KeychainGet) returns (logged: seq<string>)
      modifies this`apiKey
      ensures apiKey == APIKeyOf(old(apiKey), keychain)
      ensures logged == KeychainLog(old(apiKey), keychain)
    {
      logged := [];
      if apiKey == "" {
        match keychain {
          case Found(v) => apiKey := v;
          case NotFound =>
          case KeychainFailed(e) => logged := ["[ERROR] keychain: " + e];
        }
      }
    }

    /** The `LastRequest` step of `prepareOpts`. */
    method ParseLastRequest(parseTime: string -> Option<int>) returns (logged: seq<string>)
      modifies this`lastRequestParsed
      ensures lastRequestParsed == ParsedLastRequest(lastRequest, old(lastRequestParsed), parseTime)
      ensures logged == ParseLog(lastRequest, parseTime)
    {
      logged := [];
      if lastRequest != "" {
        lastRequestParsed := parseTime(lastRequest);
        if lastRequestParsed.None? {
          logged := ["[ERROR] invalid LastRequest " + lastRequest];
        }
      }
    }
  }

  /** `QueryEmpty`: nothing but white space. */
  predicate QueryEmpty(query: string)
  {
    TrimSpace(query) == ""
  }

  /** `QueryTooShort` as written: the same test as `QueryEmpty`; the
    * minimum length is not consulted. */
  predicate QueryTooShortAsWritten(query: string, minQueryLength: int)
  {
    TrimSpace(query) == ""
  }

  /** The test the name and the `MinQueryLength` setting call for: fewer
    * bytes than the minimum, after trimming. */
  predicate QueryTooShort(query: string, minQueryLength: int)
  {
    ByteLen(TrimSpace(query)) < minQueryLength
  }

  /** As written, the minimum query length makes no difference: a query
    * is too short exactly when it is empty. */
  lemma QueryTooShortIgnoresMinimum(query: string, m1: int, m2: int)
    ensures QueryTooShortAsWritten(query, m1) == QueryTooShortAsWritten(query, m2) == QueryEmpty(query)
  {
  }

  /** The query "ab" with the default minimum of 3: searched as written,
    * too short by the intended test. */
  lemma ShortQueryExample()
    ensures !QueryTooShortAsWritten("ab", DefaultMinQueryLength)
    ensures QueryTooShort("ab", DefaultMinQueryLength)
  {
    TrimSpaceKeeps("ab");
    ByteLenAscii("ab");
  }

  /** The intended test: an empty query is too short whenever there is a
    * minimum, and a query is too short exactly when its trimmed byte
    * length is below the minimum, so a higher minimum rejects more. */
  lemma QueryTooShortMonotone(query: string, m1: int, m2: int)
    ensures QueryEmpty(query) && m1 > 0 ==> QueryTooShort(query, m1)
    ensures QueryTooShort(query, m1) && m1 <= m2 ==> QueryTooShort(query, m2)
    ensures QueryTooShort(query, m1) ==> !QueryEmpty(query) || m1 > 0
  {
  }

  /* ---------- sub-commands ---------- */

  /** The `Flag…` fields of `options`. */
  datatype Flag = FlagAuthor | FlagCacheAuthor | FlagIcons | FlagCheck | FlagConf
                | FlagAPIKey | FlagDelKey | FlagSaveKey | FlagHelp

  /** What `run` does: the sub-command of a flag, or the search. */
  datatype Command = RunFlag(flag: Flag) | RunSearch

  /** The flag names as `init` binds them: `-delkey` sets `FlagSaveKey`. */
  function BindingAsWritten(name: string): Option<Flag>
  {
    if name == "author" then Some(FlagAuthor)
    else if name == "savebooks" then Some(FlagCacheAuthor)
    else if name == "check" then Some(FlagCheck)
    else if name == "conf" then Some(FlagConf)
    else if name == "icons" then Some(FlagIcons)
    else if name == "apikey" then Some(FlagAPIKey)
    else if name == "savekey" then Some(FlagSaveKey)
    else if name == "delkey" then Some(FlagSaveKey)
    else if name == "h" then Some(FlagHelp)
    else None
  }

  /** Each flag's name on the command line. */
  function FlagName(f: Flag): string
  {
    match f
    case FlagAuthor => "author"
    case FlagCacheAuthor => "savebooks"
    case FlagCheck => "check"
    case FlagConf => "conf"
    case FlagIcons => "icons"
    case FlagAPIKey => "apikey"
    case FlagSaveKey => "savekey"
    case FlagDelKey => "delkey"
    case FlagHelp => "h"
  }

  /** The binding `-delkey` was evidently meant to have: every flag under
    * its own name. */
  function Binding(name: string): Option<Flag>
  {
    if name == "author" then Some(FlagAuthor)
    else if name == "savebooks" then Some(FlagCacheAuthor)
    else if name == "check" then Some(FlagCheck)
    else if name == "conf" then Some(FlagConf)
    else if name == "icons" then Some(FlagIcons)
    else if name == "apikey" then Some(FlagAPIKey)
    else if name == "savekey" then Some(FlagSaveKey)
    else if name == "delkey" then Some(FlagDelKey)
    else if name == "h" then Some(FlagHelp)
    else None
  }

  /** The flag fields set by the flag names given. */
  function Raised(names: set<string>, bind: string -> Option<Flag>): set<Flag>
  {
    set n | n in names && bind(n).Some? :: bind(n).value
  }

  /** `run`'s order of tests: author list, book caching, API key entry,
    * saving and deleting the key, help, update check, configuration,
    * icons; without a flag, the search. */
  function Dispatch(flags: set<Flag>): Command
  {
    if FlagAuthor in flags then RunFlag(FlagAuthor)
    else if FlagCacheAuthor in flags then RunFlag(FlagCacheAuthor)
    else if FlagAPIKey in flags then RunFlag(FlagAPIKey)
    else if FlagSaveKey in flags then RunFlag(FlagSaveKey)
    else if FlagDelKey in flags then RunFlag(FlagDelKey)
    else if FlagHelp in flags then RunFlag(FlagHelp)
    else if FlagCheck in flags then RunFlag(FlagCheck)
    else if FlagConf in flags then RunFlag(FlagConf)
    else if FlagIcons in flags then RunFlag(FlagIcons)
    else RunSearch
  }

  /** A flag's place in `run`'s order. */
  function Rank(f: Flag): int
  {
    match f
    case FlagAuthor => 0
    case FlagCacheAuthor => 1
    case FlagAPIKey => 2
    case FlagSaveKey => 3
    case FlagDelKey => 4
    case FlagHelp => 5
    case FlagCheck => 6
    case FlagConf => 7
    case FlagIcons => 8
  }

  /** `run` runs the first raised flag's sub-command, and searches only
    * when no flag is raised. */
  lemma DispatchFirst(flags: set<Flag>, f: Flag)
    ensures Dispatch(flags) == RunFlag(f) <==> f in flags && forall g :: g in flags ==> Rank(f) <= Rank(g)
    ensures Dispatch(flags) == RunSearch <==> flags == {}
  {
    if Dispatch(flags) == RunSearch {
      forall g | g in flags
        ensures false
      {
        match g
        case FlagAuthor =>
        case FlagCacheAuthor =>
        case FlagAPIKey =>
        case FlagSaveKey =>
        case FlagDelKey =>
        case FlagHelp =>
        case FlagCheck =>
        case FlagConf =>
        case FlagIcons =>
      }
    }
  }

  /** As written, `-delkey` runs the save-key command, and no flag names
    * the delete-key one: it cannot be reached. */
  lemma DelKeyAsWritten(names: set<string>)
    ensures Dispatch(Raised({"delkey"}, BindingAsWritten)) == RunFlag(FlagSaveKey)
    ensures FlagDelKey !in Raised(names, BindingAsWritten)
    ensures Dispatch(Raised(names, BindingAsWritten)) != RunFlag(FlagDelKey)
  {
    assert Raised({"delkey"}, BindingAsWritten) == {FlagSaveKey};
  }

  /** With the intended binding every flag's name raises exactly that
    * flag, so each sub-command is reached by its own flag alone. */
  lemma BindingRoundTrip(f: Flag, name: string)
    ensures Binding(FlagName(f)) == Some(f)
    ensures Binding(name) == Some(f) ==> name == FlagName(f)
    ensures Dispatch(Raised({FlagName(f)}, Binding)) == RunFlag(f)
  {
    assert Raised({FlagName(f)}, Binding) == {f};
  }

  /** The command of a command line, with the intended binding. */
  function CommandOf(names: set<string>): Command
  {
    Dispatch(Raised(names, Binding))
  }

  /* ---------- the author's books ---------- */

  /** The cache key of an author's book list: the doubly hashed ID under
    * three shard directories. */
  function AuthorKey(hash: Hasher, authorID: string): string
  {
    "authors/" + LegacyCacheFile(hash, hash(authorID), [".json"])
  }

  /** One page of `authorBooks`, as the page loop sees it. */
  function AuthorPage(authorID: string, apiKey: string, queryEscape: string -> string,
                      get: string -> LegacyGoodreads.Response<LegacyGoodreads.AuthorList>): int -> Paging.Page<Book>
  {
    (p: int) =>
      match LegacyGoodreads.AuthorBooks(authorID, apiKey, p, queryEscape, get)
      case Ok((books, meta)) => Paging.Page(books, meta)
      case Err(_) => Paging.PageFailed
  }

  /** A page of the loop is the answer of `authorBooks` for that page. */
  lemma AuthorPageOf(authorID: string, apiKey: string, queryEscape: string -> string,
                     get: string -> LegacyGoodreads.Response<LegacyGoodreads.AuthorList>, p: int)
    ensures var a := LegacyGoodreads.AuthorBooks(authorID, apiKey, p, queryEscape, get);
      var page := AuthorPage(authorID, apiKey, queryEscape, get)(p);
      (page.PageFailed? <==> a.Err?) &&
      (a.Ok? ==> page.items == a.value.0 && page.meta == a.value.1)
  {
  }

  /** `runCacheBookList`: the author's books 30 a page, at most
    * `maxBooks` of them, the pages requested a second apart; partial
    * results are stored after each page when nothing was cached under
    * the author's key, and a failed page ends the job. */
  method CacheBookList(hash: Hasher, authorID: string, apiKey: string, maxBooks: int, queryEscape: string -> string,
                       get: string -> LegacyGoodreads.Response<LegacyGoodreads.AuthorList>, existing: set<string>,
                       clock: int -> int, fuel: nat) returns (key: string, r: Paging.Run<Book>)
    ensures key == AuthorKey(hash, authorID)
    ensures r == Paging.Job(AuthorPage(authorID, apiKey, queryEscape, get), Paging.AuthorPageSize, Some(maxBooks),
                            key in existing, clock, fuel)
  {
    key := AuthorKey(hash, authorID);
    r := Paging.FetchPages(AuthorPage(authorID, apiKey, queryEscape, get), Paging.AuthorPageSize, Some(maxBooks),
                           key in existing, clock, fuel);
  }

  /** The page count of a positive total: enough 30-book pages for the
    * total capped at `maxBooks`, and no page more. */
  lemma BookListPageCount(total: int, maxBooks: int)
    requires total > 0 && maxBooks > 0
    ensures var n := if total > maxBooks then maxBooks else total;
      var c := Paging.PageCount(total, Some(maxBooks), Paging.AuthorPageSize);
      c >= 1 && (c - 1) * 30 < n <= c * 30
  {
    Paging.PageCountCeiling(total, Some(maxBooks), Paging.AuthorPageSize);
  }

  /** The first `runAuthor` (main.go) up to the listing: no
    * authorisation step, the key of `AuthorKey`, the single cache age
    * limit, and the running test written out before the launch; it makes
    * the decisions of `AuthorCommand.AuthorStart`. */
  method RunAuthor(jobs: Cli.Jobs, hash: Hasher, authorID: string, cache: Cache<seq<Book>>, maxCacheAge: int,
                   now: int, launchErr: Option<string>, loadErr: Option<string>)
    returns (view: AuthorCommand.AuthorView<Book>)
    modifies jobs
    ensures (jobs.State(), view) ==
      AuthorCommand.AuthorStart(old(jobs.State()), cache, AuthorKey(hash, authorID), maxCacheAge, now, launchErr, loadErr)
  {
    var key := AuthorKey(hash, authorID);
    var running := Cli.BooksJob in jobs.running;
    var rerun := running;
    if Expired(cache, key, maxCacheAge, now) {
      rerun := true;
      if !running {
        var err := jobs.RunJob(Cli.BooksJob, AuthorCommand.SaveBooksArgs, launchErr);
        if err.Some? {
          return AuthorCommand.Fatal(err.value);
        }
      }
    }
    if key in cache {
      if loadErr.Some? {
        return AuthorCommand.Fatal(loadErr.value);
      }
      return AuthorCommand.Listing(cache[key].value, false, rerun);
    }
    return AuthorCommand.Listing([], true, rerun);
  }

  /** The icon step at the end of `runAuthor` and of the search: queued
    * covers are saved and the download job started unless it runs; the
    * script is re-run when asked before, when the job was started, or
    * while it runs. */
  datatype IconStep = IconStep(launch: bool, rerun: bool, logged: seq<string>)

  function IconsStep(rerun: bool, queued: bool, closeErr: Option<string>, iconsRunning: bool,
                     launchErr: Option<string>): (s: IconStep)
    ensures s.launch <==> queued && closeErr.None? && !iconsRunning
    ensures s.rerun <==> rerun || iconsRunning || (s.launch && launchErr.None?)
    ensures |s.logged| <= 1
    ensures s.logged != [] <==> queued && (closeErr.Some? || (!iconsRunning && launchErr.Some?))
  {
    if !queued then IconStep(false, rerun || iconsRunning, [])
    else if closeErr.Some? then IconStep(false, rerun || iconsRunning, ["[ERROR] save icons: " + closeErr.value])
    else if iconsRunning then IconStep(false, true, [])
    else if launchErr.Some? then IconStep(true, rerun, ["[ERROR] cache icons: " + launchErr.value])
    else IconStep(true, true, [])
  }

  /* ---------- `-check`: the cache clean-up ---------- */

  /** The age limit of the `clean` walk function: covers are kept 28 days,
    * cached queries and lists as long as the configured cache age. */
  function MaxAgeOf(maxCacheAge: int): string -> int
  {
    (p: string) => if Ext(p) == ".png" then MaxIconCacheAge else maxCacheAge
  }

  /** A file `clean` deletes: a `.json` file older than the cache age, or
    * a `.png` file older than 28 days. */
  lemma StaleThresholds(v: Janitor.Visit, now: int, maxCacheAge: int)
    ensures Janitor.Stale(v, now, MaxAgeOf(maxCacheAge)) <==>
      !v.isDir &&
      ((Ext(v.path) == ".json" && now - v.modTime > maxCacheAge) ||
       (Ext(v.path) == ".png" && now - v.modTime > MaxIconCacheAge))
  {
  }

  /** `filepath.Walk(dir, clean)`: the walk stops at its first error, a
    * failed visit or a failed removal; directories are passed over; stale
    * files are removed. It is the file pass of the current cleaner
    * without its record of directories. */
  method Clean(tree: Janitor.CacheTree, walk: seq<Janitor.Visit>, now: int, maxCacheAge: int) returns (err: Option<string>)
    modifies tree`paths
    ensures var r := Janitor.CleanFiles(walk, [], old(tree.paths), tree.locked, now, MaxAgeOf(maxCacheAge));
      tree.paths == r.paths && err == r.err
  {
    var maxAge := MaxAgeOf(maxCacheAge);
    ghost var dirs: seq<Janitor.CacheDir> := [];
    var i := 0;
    while i < |walk|
      invariant 0 <= i <= |walk|
      invariant var r := Janitor.CleanFiles(walk[i..], dirs, tree.paths, tree.locked, now, maxAge);
        var r0 := Janitor.CleanFiles(walk, [], old(tree.paths), tree.locked, now, maxAge);
        r.paths == r0.paths && r.err == r0.err
    {
      assert walk[i..][1..] == walk[i + 1..];
      var v := walk[i];
      if v.failed {
        return Some("walk " + v.path);
      }
      if v.isDir {
        dirs := dirs + [Janitor.CacheDir(v.path, v.modTime)];
      } else if Ext(v.path) == ".json" || Ext(v.path) == ".png" {
        if now - v.modTime > maxAge(v.path) {
          if v.path in tree.locked {
            return Some("remove " + v.path);
          }
          tree.paths := tree.paths - {v.path};
        }
      }
      i := i + 1;
    }
    err := None;
  }

  /** `runCheck`'s two walks: the query cache and the cover cache, each
    * cleaned on its own; an error ends only its own walk and is logged. */
  method RunCheck(queries: Janitor.CacheTree, icons: Janitor.CacheTree, queryWalk: seq<Janitor.Visit>,
                  iconWalk: seq<Janitor.Visit>, now: int, maxCacheAge: int) returns (logged: seq<string>)
    requires queries != icons
    modifies queries`paths, icons`paths
    ensures var q := Janitor.CleanFiles(queryWalk, [], old(queries.paths), queries.locked, now, MaxAgeOf(maxCacheAge));
      var c := Janitor.CleanFiles(iconWalk, [], old(icons.paths), icons.locked, now, MaxAgeOf(maxCacheAge));
      queries.paths == q.paths && icons.paths == c.paths &&
      logged == (if q.err.Some? then ["[ERROR] clean query cache: " + q.err.value] else []) +
                (if c.err.Some? then ["[ERROR] clean icon cache: " + c.err.value] else [])
  {
    logged := [];
    var err := Clean(queries, queryWalk, now, maxCacheAge);
    if err.Some? {
      logged := logged + ["[ERROR] clean query cache: " + err.value];
    }
    err := Clean(icons, iconWalk, now, maxCacheAge);
    if err.Some? {
      logged := logged + ["[ERROR] clean icon cache: " + err.value];
    }
  }

  /** A clean removes only files it visited that were stale by their own
    * limit, and a clean without error leaves none of them. */
  lemma CleanRemovesOnlyStale(walk: seq<Janitor.Visit>, paths: set<string>, locked: set<string>, now: int,
                              maxCacheAge: int, p: string)
    ensures var r := Janitor.CleanFiles(walk, [], paths, locked, now, MaxAgeOf(maxCacheAge));
      r.paths <= paths &&
      (p in paths - r.paths ==>
        exists i :: 0 <= i < |walk| && walk[i].path == p && Janitor.Stale(walk[i], now, MaxAgeOf(maxCacheAge)))
    ensures var r := Janitor.CleanFiles(walk, [], paths, locked, now, MaxAgeOf(maxCacheAge));
      r.err.None? ==> Janitor.StalePaths(walk, now, MaxAgeOf(maxCacheAge)) !! r.paths
  {
    Janitor.CleanFilesRemovesOnlyStale(walk, [], paths, locked, now, MaxAgeOf(maxCacheAge));
    Janitor.CleanFilesComplete(walk, [], paths, locked, now, MaxAgeOf(maxCacheAge));
    Janitor.StalePathsMembers(walk, now, MaxAgeOf(maxCacheAge), p);
  }

  /* ---------- the search ---------- */

  /** The cache key of a query's results: the doubly hashed query under
    * three shard directories. */
  function SearchKey(hash: Hasher, query: string): string
  {
    "queries/" + LegacyCacheFile(hash, hash(query), [".json"])
  }

  /** The search key and the author key of the same text differ: the
    * two caches do not collide. */
  lemma KeysApart(hash: Hasher, s: string)
    ensures SearchKey(hash, s) != AuthorKey(hash, s)
  {
    assert SearchKey(hash, s)[0] == 'q' && AuthorKey(hash, s)[0] == 'a';
  }

  /** `cachingSearch` as written: `LoadOrStoreJSON` under the query's key
    * with the package's constant `maxCacheAge` of a day, whatever the
    * configured `MaxCacheAge`. */
  method CachingSearchAsWritten(hash: Hasher, query: string, cache: Cache<seq<Book>>, now: int,
                                last: Option<int>, search: Result<seq<Book>>, written: int) returns (r: Loaded<seq<Book>>)
    ensures var key := SearchKey(hash, query);
      !Expired(cache, key, MaxCacheAge, now) ==> r == Loaded(cache[key].value, cache, None)
    ensures var key := SearchKey(hash, query);
      Expired(cache, key, MaxCacheAge, now) && search.Err? ==> r == LoadFailed(search.error)
    ensures var key := SearchKey(hash, query);
      Expired(cache, key, MaxCacheAge, now) && search.Ok? ==>
        r.Loaded? && r.value == search.value && r.lastRequest.Some? &&
        r.cache == cache[key := Entry(search.value, written)] &&
        r.lastRequest.value >= now && (last.Some? ==> r.lastRequest.value >= last.value + Second) &&
        r.lastRequest.value == SendTime(last, now)
  {
    r := LoadOrStore(cache, SearchKey(hash, query), MaxCacheAge, now, last, search, written);
  }

  /** `cachingSearch` with the age the `MaxCacheAge` setting describes
    * ("how long search results are cached"). */
  method CachingSearch(hash: Hasher, query: string, cache: Cache<seq<Book>>, maxCacheAge: int, now: int,
                       last: Option<int>, search: Result<seq<Book>>, written: int) returns (r: Loaded<seq<Book>>)
    ensures var key := SearchKey(hash, query);
      !Expired(cache, key, maxCacheAge, now) ==> r == Loaded(cache[key].value, cache, None)
    ensures var key := SearchKey(hash, query);
      Expired(cache, key, maxCacheAge, now) && search.Err? ==> r == LoadFailed(search.error)
    ensures var key := SearchKey(hash, query);
      Expired(cache, key, maxCacheAge, now) && search.Ok? ==>
        r.Loaded? && r.value == search.value && r.lastRequest.Some? &&
        r.cache == cache[key := Entry(search.value, written)] &&
        r.lastRequest.value >= now && (last.Some? ==> r.lastRequest.value >= last.value + Second) &&
        r.lastRequest.value == SendTime(last, now)
  {
    r := LoadOrStore(cache, SearchKey(hash, query), maxCacheAge, now, last, search, written);
  }

  /** A cached result older than the configured age but younger than a
    * day: as written it is served from the cache, by the setting it is
    * fetched again. */
  lemma ConfiguredAgeIgnored(cache: Cache<seq<Book>>, key: string, maxCacheAge: int, now: int)
    requires key in cache && maxCacheAge < now - cache[key].mtime <= MaxCacheAge
    ensures !Expired(cache, key, MaxCacheAge, now)
    ensures Expired(cache, key, maxCacheAge, now)
  {
  }

  /** With the configured age, a longer age never expires an entry a
    * shorter one keeps. */
  lemma ExpiredMonotone(cache: Cache<seq<Book>>, key: string, a1: int, a2: int, now: int)
    requires a1 <= a2
    ensures Expired(cache, key, a2, now) ==> Expired(cache, key, a1, now)
  {
  }

  /** The text of a result item: the title; "author (year) ⭑ rating" with
    * the rating to two places; the book's ID as its UID; and the
    * variables passed on to the next action. */
  datatype BookItem = BookItem(title: string, subtitle: string, arg: string, uid: string, vars: map<string, string>)

  function ItemOf(b: Book): (it: BookItem)
    ensures it.title == b.title && it.arg == b.url && it.uid == IntToDec(b.id)
    ensures it.subtitle == b.author.name + " (" + GrTypes.YearText(b.pubDate) + ") ⭑ " + FormatFixed(b.rating, 2)
    ensures it.vars.Keys == {"BOOK_ID", "BOOK_TITLE", "AUTHOR_ID", "AUTHOR_NAME"}
    ensures it.vars["BOOK_ID"] == it.uid && it.vars["AUTHOR_ID"] == IntToDec(b.author.id)
    ensures it.vars["BOOK_TITLE"] == b.title && it.vars["AUTHOR_NAME"] == b.author.name
  {
    BookItem(b.title, b.author.name + " (" + GrTypes.YearText(b.pubDate) + ") ⭑ " + FormatFixed(b.rating, 2),
             b.url, IntToDec(b.id),
             map["BOOK_ID" := IntToDec(b.id), "BOOK_TITLE" := b.title,
                 "AUTHOR_ID" := IntToDec(b.author.id), "AUTHOR_NAME" := b.author.name])
  }

  /** Distinct book IDs give distinct UIDs. */
  lemma ItemUIDs(a: Book, b: Book)
    requires a.id != b.id
    ensures ItemOf(a).uid != ItemOf(b).uid
  {
    if ItemOf(a).uid == ItemOf(b).uid {
      IntToDecInjective(a.id, b.id);
    }
  }

  datatype SearchOutcome =
    | APIKeyNotSet
    | NoSearch
    | Listed(items: seq<BookItem>, cache: Cache<seq<Book>>, lastRequest: Option<int>)
    | SearchFailed(error: string)

  /** The search of `run`, with the intended query-length test and cache
    * age: without an API key only the warning item; a query shorter than
    * the minimum ends the run with no items and no request; otherwise an
    * item per result, in order. A failed search is fatal. */
  method Search(opts: Settings, hash: Hasher, cache: Cache<seq<Book>>, now: int, search: Result<seq<Book>>,
                written: int) returns (r: SearchOutcome)
    ensures opts.apiKey == "" ==> r == APIKeyNotSet
    ensures opts.apiKey != "" && QueryTooShort(opts.query, opts.minQueryLength) ==> r == NoSearch
    ensures var key := SearchKey(hash, opts.query);
      opts.apiKey != "" && !QueryTooShort(opts.query, opts.minQueryLength) &&
      !Expired(cache, key, opts.maxCacheAge, now) ==>
        r == Listed(Seqs.Map(ItemOf, cache[key].value), cache, None)
    ensures var key := SearchKey(hash, opts.query);
      (opts.apiKey != "" && !QueryTooShort(opts.query, opts.minQueryLength) &&
       Expired(cache, key, opts.maxCacheAge, now) && search.Err?) ==>
        r == SearchFailed(search.error)
    ensures var key := SearchKey(hash, opts.query);
      (opts.apiKey != "" && !QueryTooShort(opts.query, opts.minQueryLength) &&
       Expired(cache, key, opts.maxCacheAge, now) && search.Ok?) ==>
        r.Listed? && r.items == Seqs.Map(ItemOf, search.value) &&
        r.lastRequest.Some? && r.cache == cache[key := Entry(search.value, written)] &&
        r.lastRequest.value >= now &&
        (opts.lastRequestParsed.Some? ==> r.lastRequest.value >= opts.lastRequestParsed.value + Second) &&
        r.lastRequest.value == SendTime(opts.lastRequestParsed, now)
  {
    if opts.apiKey == "" {
      return APIKeyNotSet;
    }
    if QueryTooShort(opts.query, opts.minQueryLength) {
      return NoSearch;
    }
    var loaded := CachingSearch(hash, opts.query, cache, opts.maxCacheAge, now, opts.lastRequestParsed, search, written);
    if loaded.LoadFailed? {
      return SearchFailed(loaded.error);
    }
    var items := Seqs.MapLoop(ItemOf, loaded.value);
    return Listed(items, loaded.cache, loaded.lastRequest);
  }

  /** The search of `run` as written: only a blank query stops it, and the
    * cached result is judged against the constant day of `maxCacheAge`
    * whatever the `MaxCacheAge` setting. */
  method SearchAsWritten(opts: Settings, hash: Hasher, cache: Cache<seq<Book>>, now: int,
                         search: Result<seq<Book>>, written: int) returns (r: SearchOutcome)
    ensures opts.apiKey == "" ==> r == APIKeyNotSet
    ensures opts.apiKey != "" && QueryEmpty(opts.query) ==> r == NoSearch
    ensures var key := SearchKey(hash, opts.query);
      opts.apiKey != "" && !QueryEmpty(opts.query) && !Expired(cache, key, MaxCacheAge, now) ==>
        r == Listed(Seqs.Map(ItemOf, cache[key].value), cache, None)
    ensures var key := SearchKey(hash, opts.query);
      (opts.apiKey != "" && !QueryEmpty(opts.query) && Expired(cache, key, MaxCacheAge, now) && search.Err?) ==>
        r == SearchFailed(search.error)
    ensures var key := SearchKey(hash, opts.query);
      (opts.apiKey != "" && !QueryEmpty(opts.query) && Expired(cache, key, MaxCacheAge, now) && search.Ok?) ==>
        r.Listed? && r.items == Seqs.Map(ItemOf, search.value) &&
        r.lastRequest.Some? && r.cache == cache[key := Entry(search.value, written)] &&
        r.lastRequest.value >= now &&
        (opts.lastRequestParsed.Some? ==> r.lastRequest.value >= opts.lastRequestParsed.value + Second) &&
        r.lastRequest.value == SendTime(opts.lastRequestParsed, now)
  {
    if opts.apiKey == "" {
      return APIKeyNotSet;
    }
    if QueryTooShortAsWritten(opts.query, opts.minQueryLength) {
      return NoSearch;
    }
    var loaded := CachingSearchAsWritten(hash, opts.query, cache, now, opts.lastRequestParsed, search, written);
    if loaded.LoadFailed? {
      return SearchFailed(loaded.error);
    }
    var items := Seqs.MapLoop(ItemOf, loaded.value);
    return Listed(items, loaded.cache, loaded.lastRequest);
  }
}
