/** The start of the author command, `runAuthor` (pkg/cli/author.go, and
  * the first version in main.go): an author's book list is read from the
  * cache, and when the cached list has expired the background job that
  * fetches it is started and Alfred is asked to run the command again.
  *
  * The cache holds decoded lists, so whether reading the cached file
  * fails is the parameter `loadErr`; whether the background launch fails
  * is `launchErr`. Listing the books as result items is not modelled. */
module AuthorCommand {
  import opened Wrappers
  import opened JsonCache
  import opened CacheKeys
  import Cli
  import GrTypes

  /** The arguments the book-list job is started with. */
  const SaveBooksArgs: seq<string> := ["-savebooks"]

  /** What `runAuthor` shows before listing: the authorise item, a fatal
    * error, or the cached books (none and a "Loading Books…" item when
    * nothing is cached) with whether the command is run again. */
  datatype AuthorView<T> =
    | NeedsAuthorisation
    | Fatal(error: string)
    | Listing(books: seq<T>, loading: bool, rerun: bool)

  /** The decisions of `runAuthor` on the runner state `s`, once the
    * workflow is authorised: an expired list starts the book-list job
    * (nothing is launched while it runs), a failed launch or a failed
    * read of the cached list is fatal, and the command is run again when
    * the list had expired or the job was already running. */
  function AuthorStart<T>(s: Cli.JobsState, cache: Cache<seq<T>>, key: string, maxAge: int, now: int,
                          launchErr: Option<string>, loadErr: Option<string>): (Cli.JobsState, AuthorView<T>)
  {
    var expired := Expired(cache, key, maxAge, now);
    var started := if expired then Cli.StartJob(s, Cli.BooksJob, SaveBooksArgs, launchErr) else (s, None);
    if started.1.Some? then (started.0, Fatal(started.1.value))
    else if key in cache && loadErr.Some? then (started.0, Fatal(loadErr.value))
    else (started.0, Listing(if key in cache then cache[key].value else [], key !in cache,
                             expired || Cli.BooksJob in s.running))
  }

  /** At most one job is launched, the book-list job with `-savebooks`,
    * and only when the list has expired and the job is not running;
    * nothing else about the runner changes. */
  lemma AuthorStartLaunch<T>(s: Cli.JobsState, cache: Cache<seq<T>>, key: string, maxAge: int, now: int,
                             launchErr: Option<string>, loadErr: Option<string>)
    ensures var r := AuthorStart(s, cache, key, maxAge, now, launchErr, loadErr);
      var launches := Expired(cache, key, maxAge, now) && Cli.BooksJob !in s.running && launchErr.None?;
      (launches ==> r.0.launched == s.launched + [Cli.Launch(Cli.BooksJob, SaveBooksArgs)]
                    && r.0.running == s.running + {Cli.BooksJob}) &&
      (!launches ==> r.0 == s)
  {
  }

  /** The view: fatal exactly for a failed launch or, after none, a failed
    * read of a cached list; otherwise the cached list, or nothing and
    * the loading item when none is cached. */
  lemma AuthorStartView<T>(s: Cli.JobsState, cache: Cache<seq<T>>, key: string, maxAge: int, now: int,
                           launchErr: Option<string>, loadErr: Option<string>)
    ensures var v := AuthorStart(s, cache, key, maxAge, now, launchErr, loadErr).1;
      var launchFails := Expired(cache, key, maxAge, now) && Cli.BooksJob !in s.running && launchErr.Some?;
      (launchFails ==> v == Fatal(launchErr.value)) &&
      (!launchFails && key in cache && loadErr.Some? ==> v == Fatal(loadErr.value)) &&
      (!launchFails && key in cache && loadErr.None? ==> v.Listing? && v.books == cache[key].value && !v.loading) &&
      (!launchFails && key !in cache ==> v.Listing? && v.books == [] && v.loading)
  {
  }

  /** The command is run again exactly when the list had expired or the
    * job was running, so whenever the book-list job runs afterwards the
    * listing is refreshed. */
  lemma AuthorStartRerun<T>(s: Cli.JobsState, cache: Cache<seq<T>>, key: string, maxAge: int, now: int,
                            launchErr: Option<string>, loadErr: Option<string>)
    ensures var r := AuthorStart(s, cache, key, maxAge, now, launchErr, loadErr);
      r.1.Listing? ==>
        (r.1.rerun <==> Expired(cache, key, maxAge, now) || Cli.BooksJob in s.running) &&
        (Cli.BooksJob in r.0.running ==> r.1.rerun)
  {
  }

  /** Run again with the list still stale, the command launches nothing a
    * second time and keeps asking to be run again. */
  lemma AuthorStartOnce<T>(s: Cli.JobsState, cache: Cache<seq<T>>, key: string, maxAge: int, now: int, later: int,
                           launchErr: Option<string>, launchErr2: Option<string>, loadErr: Option<string>)
    requires Expired(cache, key, maxAge, now) && Expired(cache, key, maxAge, later)
    requires AuthorStart(s, cache, key, maxAge, now, launchErr, loadErr).1.Listing?
    ensures var s1 := AuthorStart(s, cache, key, maxAge, now, launchErr, loadErr).0;
      var r2 := AuthorStart(s1, cache, key, maxAge, later, launchErr2, loadErr);
      r2.0 == s1 && r2.1.Listing? && r2.1.rerun
  {
    Cli.StartJobIdempotent(s, Cli.BooksJob, SaveBooksArgs, SaveBooksArgs, launchErr, launchErr2);
  }

  /** The cache key of an author's book list. */
  function AuthorKey(authorID: int): string
  {
    "authors/" + CacheFileID(authorID, [])
  }

  /** `runAuthor` (pkg/cli/author.go) up to the listing: `authorisedStatus`
    * shows the authorise item when the workflow is not authorised and
    * exits on an error getting the API client (`clientErr`); then the
    * cached list under the author's key is judged against the search
    * age limit. */
  method RunAuthor(jobs: Cli.Jobs, authorised: bool, clientErr: Option<string>, authorID: int,
                   cache: Cache<seq<GrTypes.Book>>, maxAge: int, now: int,
                   launchErr: Option<string>, loadErr: Option<string>) returns (view: AuthorView<GrTypes.Book>)
    modifies jobs
    ensures !authorised ==> view == NeedsAuthorisation && jobs.State() == old(jobs.State())
    ensures authorised && clientErr.Some? ==> view == Fatal(clientErr.value) && jobs.State() == old(jobs.State())
    ensures authorised && clientErr.None? ==>
      (jobs.State(), view) == AuthorStart(old(jobs.State()), cache, AuthorKey(authorID), maxAge, now, launchErr, loadErr)
  {
    if !authorised {
      return NeedsAuthorisation;
    }
    if clientErr.Some? {
      return Fatal(clientErr.value);
    }
    var key := AuthorKey(authorID);
    var rerun := Cli.BooksJob in jobs.running;
    if Expired(cache, key, maxAge, now) {
      rerun := true;
      var err := jobs.RunJob(Cli.BooksJob, SaveBooksArgs, launchErr);
      if err.Some? {
        return Fatal(err.value);
      }
    }
    if key in cache {
      if loadErr.Some? {
        return Fatal(loadErr.value);
      }
      return Listing(cache[key].value, false, rerun);
    }
    return Listing([], true, rerun);
  }
}
