/** The command-line glue of pkg/cli/cli.go: starting background jobs once,
  * the navigation actions offered for a query, the Keychain token store,
  * and the jobs `bootstrap` starts.
  *
  * awgo's background runner is the class `Jobs`: the names of the jobs
  * running and the jobs launched so far; whether launching succeeds is a
  * parameter. The Keychain write is a parameter too (its error, if any). */
module Cli {
  import opened Wrappers
  import opened Strings
  import opened Seqs
  import opened Options
  import GrClient

  const BooksJob: string := "booklist"
  const CacheJob: string := "housekeeping"
  const IconsJob: string := "icons"
  const ShelvesJob: string := "shelves"
  const FeedsJob: string := "feeds"
  const UserJob: string := "user"
  const ShelvesKey: string := "shelves.json"
  const FeedsKey: string := "FeedsLastUpdate.json"

  /** A job launched in the background: its name and the arguments passed
    * to the workflow's own executable. */
  datatype Launch = Launch(name: string, args: seq<string>)

  /** The runner's state and what `runJob` makes of it. */
  datatype JobsState = JobsState(running: set<string>, launched: seq<Launch>)

  /** `runJob`: a job of that name already running means nothing is
    * launched and no error; otherwise exactly that job is launched, and
    * the runner's error (if any) is the result. */
  function StartJob(s: JobsState, name: string, args: seq<string>, launchErr: Option<string>)
    : (r: (JobsState, Option<string>))
    ensures name in s.running ==> r == (s, None)
    ensures name !in s.running && launchErr.Some? ==> r == (s, launchErr)
    ensures name !in s.running && launchErr.None? ==>
      r.1.None? && r.0.running == s.running + {name} && r.0.launched == s.launched + [Launch(name, args)]
  {
    if name in s.running then (s, None)
    else if launchErr.Some? then (s, launchErr)
    else (JobsState(s.running + {name}, s.launched + [Launch(name, args)]), None)
  }

  /** A call launches at most that one job; once it has succeeded, the job
    * is running and calling again launches nothing. */
  lemma StartJobIdempotent(s: JobsState, name: string, args: seq<string>, args2: seq<string>,
                           e1: Option<string>, e2: Option<string>)
    ensures var (s1, err1) := StartJob(s, name, args, e1);
      err1.None? ==> name in s1.running && StartJob(s1, name, args2, e2) == (s1, None)
    ensures var (s1, _) := StartJob(s, name, args, e1);
      s1.launched == s.launched || s1.launched == s.launched + [Launch(name, args)]
  {
  }

  class Jobs {
    var running: set<string>
    var launched: seq<Launch>

    constructor (running: set<string>)
      ensures this.running == running && launched == []
    {
      this.running := running;
      launched := [];
    }

    function State(): JobsState
      reads this
    {
      JobsState(running, launched)
    }

    /** `runJob(name, args...)`. */
    method RunJob(name: string, args: seq<string>, launchErr: Option<string>) returns (err: Option<string>)
      modifies this
      ensures (State(), err) == StartJob(old(State()), name, args, launchErr)
    {
      if name in running {
        return None;
      }
      if launchErr.Some? {
        return launchErr;
      }
      launched := launched + [Launch(name, args)];
      running := running + {name};
      return None;
    }
  }

  /** An action offered to navigate to another part of the workflow. */
  datatype NavAction = NavAction(title: string, subtitle: string, action: string)

  const NavActions: seq<NavAction> := [
    NavAction("Search", "Search for books", "search"),
    NavAction("Shelves", "List bookshelves", "shelves"),
    NavAction("Configuration", "Workflow configuration", "config")
  ]

  /** Whether `addNavActions` shows an action: not ignored, and its name
    * starts with the lower-cased query. */
  function NavShown(ignore: set<string>, query: string): NavAction -> bool
  {
    (a: NavAction) => a.action !in ignore && HasPrefix(a.action, ToLower(query))
  }

  /** The actions `addNavActions` adds, in order. */
  function NavItems(query: string, ignore: seq<string>): seq<NavAction>
  {
    if ByteLen(query) < 3 then [] else Filter(NavShown((set s | s in ignore), query), NavActions)
  }

  /** A query shorter than three bytes shows no action; otherwise an
    * action is shown exactly when it is not ignored and its name has the
    * lower-cased query as a prefix, and the shown actions keep their
    * order. */
  lemma NavItemsOf(query: string, ignore: seq<string>, a: NavAction)
    ensures ByteLen(query) < 3 ==> NavItems(query, ignore) == []
    ensures ByteLen(query) >= 3 ==>
      (a in NavItems(query, ignore) <==> a in NavActions && a.action !in ignore && HasPrefix(a.action, ToLower(query)))
  {
    if ByteLen(query) >= 3 {
      FilterMembers(NavShown((set s | s in ignore), query), NavActions, a);
    }
  }

  /** `addNavActions(ignore...)`: the ignore set, then the loop over the
    * actions. */
  method AddNavActions(query: string, ignore: seq<string>) returns (items: seq<NavAction>)
    ensures items == NavItems(query, ignore)
  {
    if ByteLen(query) < 3 {
      return [];
    }
    var ig: set<string> := {};
    for i := 0 to |ignore|
      invariant ig == (set s | s in ignore[..i])
    {
      assert ignore[..i + 1] == ignore[..i] + [ignore[i]];
      ig := ig + {ignore[i]};
    }
    assert ignore[..|ignore|] == ignore;
    var q := ToLower(query);
    items := [];
    for j := 0 to |NavActions|
      invariant items == Filter(NavShown(ig, query), NavActions[..j])
    {
      var a := NavActions[j];
      FilterSnoc(NavShown(ig, query), NavActions[..j], a);
      assert NavActions[..j + 1] == NavActions[..j] + [a];
      if a.action in ig || !HasPrefix(a.action, q) {
        continue;
      }
      items := items + [a];
    }
    assert NavActions[..|NavActions|] == NavActions;
  }

  /** The error `errors.Wrap` makes of a Keychain failure. */
  function SaveError(e: string): string
  {
    "save token to Keychain: " + e
  }

  /** `keychainStore`, the token store handed to the API client. */
  class KeychainStore {
    const name: string
    var token: string
    var secret: string

    constructor (name: string, token: string, secret: string)
      ensures this.name == name && this.token == token && this.secret == secret
    {
      this.name := name;
      this.token := token;
      this.secret := secret;
    }

    /** `Save`: writes `token + " " + secret` to the Keychain (`written`);
      * when the write fails (`setErr`) the fields are unchanged and the
      * error is wrapped, otherwise the fields hold the new pair. */
    method Save(token: string, secret: string, setErr: Option<string>) returns (err: Option<string>, written: string)
      modifies this
      ensures written == token + " " + secret
      ensures setErr.Some? ==>
        err == Some(SaveError(setErr.value)) && this.token == old(this.token) && this.secret == old(this.secret)
      ensures setErr.None? ==> err.None? && this.token == token && this.secret == secret
    {
      written := token + " " + secret;
      if setErr.Some? {
        return Some(SaveError(setErr.value)), written;
      }
      this.token, this.secret := token, secret;
      return None, written;
    }

    /** `Load`: the pair held, never an error. */
    method Load() returns (token: string, secret: string, err: Option<string>)
      ensures token == this.token && secret == this.secret && err.None?
    {
      return this.token, this.secret, None;
    }
  }

  /** After a successful `Save`, `Load` gives the saved pair back, and the
    * Keychain item it wrote is read back as that pair on the next run
    * when neither part holds a space. */
  method SaveThenLoad(store: KeychainStore, token: string, secret: string, oldSecret: string)
    returns (t: string, s: string)
    requires ' ' !in token && ' ' !in secret
    modifies store
    ensures t == token && s == secret
    ensures var res := LookupTokens("", oldSecret, Found(token + " " + secret));
      res.Ok? && res.value.token == token && res.value.secret == secret
  {
    var err, written := store.Save(token, secret, None);
    t, s, err := store.Load();
    SavedTokensLoad(token, secret, oldSecret);
  }

  /** How the time of the last feed update is read: no entry, an entry,
    * or an entry that fails to load. */
  datatype Stamp = NoStamp | Stamped(time: int) | StampFailed(error: string)

  /** Which job `bootstrap` starts, or the error it returns. */
  datatype Boot = NoJob | StartUser | StartFeeds | StartShelves | BootFailed(error: string)

  /** The decision of `bootstrap`, in its order: unauthorised, nothing;
    * no user ID, the user job; shelves cached, the feeds job, only when it
    * is not running and the last update is older than the feeds age
    * (never updated counts as older); otherwise the shelves job. */
  function BootJob(authorised: bool, userID: int, shelvesCached: bool, feedsRunning: bool, stamp: Stamp,
                   now: int, maxFeeds: int): (b: Boot)
    ensures !authorised ==> b == NoJob
    ensures authorised && userID == 0 ==> b == StartUser
    ensures authorised && userID != 0 && !shelvesCached ==> b == StartShelves
    ensures authorised && userID != 0 && shelvesCached && feedsRunning ==> b == NoJob
    ensures (authorised && userID != 0 && shelvesCached && !feedsRunning && stamp.StampFailed?) ==>
      b == BootFailed(stamp.error)
    ensures (authorised && userID != 0 && shelvesCached && !feedsRunning && stamp.NoStamp?) ==> b == StartFeeds
    ensures (authorised && userID != 0 && shelvesCached && !feedsRunning && stamp.Stamped?) ==>
      (b == StartFeeds <==> now - stamp.time > maxFeeds) && (b != StartFeeds ==> b == NoJob)
  {
    if !authorised then NoJob
    else if userID == 0 then StartUser
    else if !shelvesCached then StartShelves
    else if feedsRunning then NoJob
    else match stamp
      case StampFailed(e) => BootFailed(e)
      case NoStamp => StartFeeds
      case Stamped(t) => if now - t > maxFeeds then StartFeeds else NoJob
  }

  /** At most one job is started, and the feeds job only when it is not
    * already running. */
  lemma BootStartsOne(authorised: bool, userID: int, shelvesCached: bool, feedsRunning: bool, stamp: Stamp,
                      now: int, maxFeeds: int)
    ensures var b := BootJob(authorised, userID, shelvesCached, feedsRunning, stamp, now, maxFeeds);
      (b == StartFeeds ==> !feedsRunning && shelvesCached && userID != 0) &&
      (b == StartUser ==> userID == 0) &&
      (b != NoJob ==> authorised)
  {
  }

  /** The job and arguments for each decision. */
  function BootLaunch(b: Boot): Option<Launch>
  {
    match b
    case StartUser => Some(Launch(UserJob, ["-userinfo"]))
    case StartFeeds => Some(Launch(FeedsJob, ["-feeds"]))
    case StartShelves => Some(Launch(ShelvesJob, ["-saveshelves"]))
    case _ => None
  }

  /** `bootstrap`, after the cache directories exist: the token store
    * holds the settings' token, the API client is built from it (its
    * `Load` cannot fail, so neither can `New`), and the job chosen by
    * `BootJob` is started through `runJob`. */
  method Bootstrap(opts: Settings, jobs: Jobs, bundleID: string, apiKey: string, apiSecret: string,
                   userID: int, shelvesCached: bool, stamp: Stamp, now: int, launchErr: Option<string>)
    returns (err: Option<string>, store: KeychainStore, api: GrClient.Client)
    modifies jobs
    ensures fresh(store) && store.token == opts.accessToken && store.secret == opts.accessSecret
    ensures fresh(api) && api.apiKey == apiKey && api.apiSecret == apiSecret
    ensures api.token.Some? <==> opts.accessToken != "" && opts.accessSecret != ""
    ensures var b := BootJob(opts.Authorised(), userID, shelvesCached, FeedsJob in old(jobs.running), stamp, now,
                             opts.maxCache.feeds);
      match b
      case BootFailed(e) => err == Some(e) && jobs.State() == old(jobs.State())
      case NoJob => err.None? && jobs.State() == old(jobs.State())
      case _ =>
        var l := BootLaunch(b).value;
        (jobs.State(), err) == StartJob(old(jobs.State()), l.name, l.args, launchErr)
  {
    store := new KeychainStore(bundleID, opts.accessToken, opts.accessSecret);
    var t, s, _ := store.Load();
    var c, e := GrClient.Client.New(apiKey, apiSecret, Some((t, s)));
    api := c;
    var b := BootJob(opts.Authorised(), userID, shelvesCached, FeedsJob in jobs.running, stamp, now,
                     opts.maxCache.feeds);
    match b {
      case BootFailed(e) =>
        return Some(e), store, api;
      case NoJob =>
        return None, store, api;
      case _ =>
        var l := BootLaunch(b).value;
        err := jobs.RunJob(l.name, l.args, launchErr);
    }
  }
}
