/** The bulk-caching jobs that fetch every page of a list (pkg/cli/author.go
  * `runCacheAuthorList`, pkg/cli/shelves.go `runCacheShelf` and
  * `runCacheShelves`): pages 1, 2, … are requested at least a second
  * apart until the page count worked out from the first answer is
  * reached, partial results are stored after each page when nothing was
  * cached before, and the full list is stored at the end.
  *
  * The API call is the parameter `fetch` (page number to answer), the
  * clock the parameter `clock` (page number to the time the loop reaches
  * that page), and `checkErr`'s exit on a failed page is the `Aborted`
  * status. The source loop need not end; `fuel` bounds the model's, and
  * running out of it is the `Exhausted` status. */
module Paging {
  import opened Wrappers
  import opened Numbers
  import opened GrTypes
  import opened GrClient
  import opened Seqs

  /** The API's answer for one page. */
  datatype Page<T> = Page(items: seq<T>, meta: PageData) | PageFailed

  /** One `StoreJSON` of the cache entry: the items so far and the total
    * of the latest page. */
  datatype Stored<T> = Stored(items: seq<T>, total: int)

  datatype Status = Finished | Aborted | Exhausted

  /** What a job did: the pages it requested, when, what it stored, and
    * how it ended. */
  datatype Run<T> = Run(pages: seq<int>, times: seq<int>, stores: seq<Stored<T>>, status: Status)

  /** `n / size`, plus one for a remainder, with `n` the total capped at
    * `limit` when there is one; Go's truncating `/` and `%`. */
  function PageCount(total: int, limit: Option<int>, size: int): int
    requires size > 0
  {
    var n := if limit.Some? && total > limit.value then limit.value else total;
    GoDiv(n, size) + (if GoRem(n, size) > 0 then 1 else 0)
  }

  /** For a positive total the count is the ceiling of the capped total
    * over the page size: enough pages to hold it, and no page more. */
  lemma PageCountCeiling(total: int, limit: Option<int>, size: int)
    requires size > 0 && total > 0 && (limit.Some? ==> limit.value > 0)
    ensures var n := if limit.Some? && total > limit.value then limit.value else total;
      var c := PageCount(total, limit, size);
      c >= 1 && (c - 1) * size < n <= c * size
  {
  }

  /** What a job's loop is given: the API call, the page size, the cap
    * on the total, whether partial results are stored, and the clock. */
  datatype Config<T> = Config(fetch: int -> Page<T>, size: int, limit: Option<int>, partial: bool, clock: int -> int)

  /** The loop's variables: the next page, the count known so far (0
    * until worked out), the items so far, the latest total, and the time
    * of the last request. */
  datatype State<T> = State(page: int, pageCount: int, items: seq<T>, total: int, last: Option<int>)

  /** The state the loop starts in. */
  function Start<T>(): State<T>
  {
    State(1, 0, [], 0, None)
  }

  /** The loop's exit test. */
  predicate Done<T>(s: State<T>)
  {
    s.pageCount > 0 && s.page > s.pageCount
  }

  /** When the request for the next page goes out: after the pause. */
  function RequestTime<T>(c: Config<T>, s: State<T>): int
  {
    c.clock(s.page) + Pause(s.last, c.clock(s.page))
  }

  /** The state after a page that answered. */
  function Next<T>(c: Config<T>, s: State<T>): State<T>
    requires c.size > 0 && c.fetch(s.page).Page?
  {
    var meta := c.fetch(s.page).meta;
    State(s.page + 1,
          if s.pageCount == 0 then PageCount(meta.total, c.limit, c.size) else s.pageCount,
          s.items + c.fetch(s.page).items,
          meta.total,
          Some(RequestTime(c, s)))
  }

  /** The partial store after a page that answered, if any. */
  function PartialStore<T>(c: Config<T>, s: State<T>): seq<Stored<T>>
    requires c.size > 0 && c.fetch(s.page).Page?
  {
    if c.partial then [Stored(Next(c, s).items, Next(c, s).total)] else []
  }

  /** The page loop from state `s` on. */
  function Loop<T>(c: Config<T>, s: State<T>, fuel: nat): Run<T>
    requires c.size > 0
    decreases fuel
  {
    if Done(s) then Run([], [], [Stored(s.items, s.total)], Finished)
    else if fuel == 0 then Run([], [], [], Exhausted)
    else if c.fetch(s.page).PageFailed? then Run([s.page], [RequestTime(c, s)], [], Aborted)
    else
      var r := Loop(c, Next(c, s), fuel - 1);
      Run([s.page] + r.pages, [RequestTime(c, s)] + r.times, PartialStore(c, s) + r.stores, r.status)
  }

  /** A job: the loop from the start, storing partial results only when
    * nothing was cached. */
  function Job<T>(fetch: int -> Page<T>, size: int, limit: Option<int>, cached: bool, clock: int -> int, fuel: nat): Run<T>
    requires size > 0
  {
    Loop(Config(fetch, size, limit, !cached, clock), Start(), fuel)
  }

  /** One answered page of the loop. */
  lemma LoopStep<T>(c: Config<T>, s: State<T>, fuel: nat)
    requires c.size > 0 && !Done(s) && fuel > 0 && c.fetch(s.page).Page?
    ensures var r := Loop(c, Next(c, s), fuel - 1);
      Loop(c, s, fuel) == Run([s.page] + r.pages, [RequestTime(c, s)] + r.times, PartialStore(c, s) + r.stores, r.status)
  {
  }

  /** The state after an answered page, written out. */
  lemma NextOf<T>(c: Config<T>, s: State<T>)
    requires c.size > 0 && c.fetch(s.page).Page?
    ensures var meta := c.fetch(s.page).meta;
      var t := c.clock(s.page) + Pause(s.last, c.clock(s.page));
      var n := State(s.page + 1, if s.pageCount == 0 then PageCount(meta.total, c.limit, c.size) else s.pageCount,
                     s.items + c.fetch(s.page).items, meta.total, Some(t));
      RequestTime(c, s) == t && Next(c, s) == n
      && PartialStore(c, s) == if c.partial then [Stored(n.items, n.total)] else []
  {
  }

  /** What the loop did so far followed by what it does from here. */
  function Then<T>(done: Run<T>, rest: Run<T>): Run<T>
  {
    Run(done.pages + rest.pages, done.times + rest.times, done.stores + rest.stores, rest.status)
  }

  /** Moving one page from what is left to what was done. */
  lemma ThenStep<T>(done: Run<T>, page: int, t: int, step: seq<Stored<T>>, r: Run<T>)
    ensures Then(done, Run([page] + r.pages, [t] + r.times, step + r.stores, r.status))
      == Then(Run(done.pages + [page], done.times + [t], done.stores + step, Finished), r)
  {
    assert (done.pages + [page]) + r.pages == done.pages + ([page] + r.pages);
    assert (done.times + [t]) + r.times == done.times + ([t] + r.times);
    assert (done.stores + step) + r.stores == done.stores + (step + r.stores);
  }

  /** The loop body after an answered page: the count is worked out
    * from the first answer, the items appended, and the partial store
    * made when partial results are stored. */
  method Advance<T>(c: Config<T>, s: State<T>, f: nat, t: int, answer: Page<T>, done: Run<T>)
    returns (next: State<T>, done': Run<T>)
    requires c.size > 0 && !Done(s) && f > 0
    requires answer == c.fetch(s.page) && answer.Page? && t == RequestTime(c, s)
    ensures Then(done', Loop(c, next, f - 1)) == Then(done, Loop(c, s, f))
  {
    var count := if s.pageCount == 0 then PageCount(answer.meta.total, c.limit, c.size) else s.pageCount;
    next := State(s.page + 1, count, s.items + answer.items, answer.meta.total, Some(t));
    var step: seq<Stored<T>> := if c.partial then [Stored(next.items, next.total)] else [];
    NextOf(c, s);
    LoopStep(c, s, f);
    ThenStep(done, s.page, t, step, Loop(c, next, f - 1));
    done' := Run(done.pages + [s.page], done.times + [t], done.stores + step, Finished);
  }

  /** The loop's exits, after what was done so far: the final store when
    * the count is reached, nothing more when out of fuel, and the failed
    * page's request when the API fails. */
  lemma ThenDone<T>(c: Config<T>, s: State<T>, f: nat, done: Run<T>)
    requires c.size > 0 && Done(s)
    ensures Then(done, Loop(c, s, f)) == Run(done.pages, done.times, done.stores + [Stored(s.items, s.total)], Finished)
  {
    assert done.pages + [] == done.pages && done.times + [] == done.times;
  }

  lemma ThenExhausted<T>(c: Config<T>, s: State<T>, done: Run<T>)
    requires c.size > 0 && !Done(s)
    ensures Then(done, Loop(c, s, 0)) == Run(done.pages, done.times, done.stores, Exhausted)
  {
    assert done.pages + [] == done.pages && done.times + [] == done.times && done.stores + [] == done.stores;
  }

  lemma ThenFailed<T>(c: Config<T>, s: State<T>, f: nat, done: Run<T>)
    requires c.size > 0 && !Done(s) && f > 0 && c.fetch(s.page).PageFailed?
    ensures Then(done, Loop(c, s, f)) ==
      Run(done.pages + [s.page], done.times + [RequestTime(c, s)], done.stores, Aborted)
  {
    assert done.stores + [] == done.stores;
  }

  /** The loop of the three jobs, from state `s0`. */
  method RunLoop<T>(c: Config<T>, s0: State<T>, fuel: nat) returns (r: Run<T>)
    requires c.size > 0
    ensures r == Loop(c, s0, fuel)
  {
    var s := s0;
    var done: Run<T> := Run([], [], [], Finished);
    var f := fuel;
    assert Then(done, Loop(c, s, f)) == Loop(c, s0, fuel);
    while true
      invariant Then(done, Loop(c, s, f)) == Loop(c, s0, fuel)
      decreases f
    {
      if s.pageCount > 0 && s.page > s.pageCount {
        ThenDone(c, s, f, done);
        return Run(done.pages, done.times, done.stores + [Stored(s.items, s.total)], Finished);
      }
      if f == 0 {
        ThenExhausted(c, s, done);
        return Run(done.pages, done.times, done.stores, Exhausted);
      }
      var t := c.clock(s.page) + Pause(s.last, c.clock(s.page));
      var answer := c.fetch(s.page);
      if answer.PageFailed? {
        ThenFailed(c, s, f, done);
        return Run(done.pages + [s.page], done.times + [t], done.stores, Aborted);
      }
      s, done := Advance(c, s, f, t, answer, done);
      f := f - 1;
    }
  }

  /** The three jobs: the loop from page 1, no count, nothing fetched,
    * storing partial results only when nothing was cached. */
  method FetchPages<T>(fetch: int -> Page<T>, size: int, limit: Option<int>, cached: bool, clock: int -> int, fuel: nat)
    returns (r: Run<T>)
    requires size > 0
    ensures r == Job(fetch, size, limit, cached, clock, fuel)
  {
    r := RunLoop(Config(fetch, size, limit, !cached, clock), Start(), fuel);
  }

  // ---------------------------------------------------------------------
  // Properties of the loop

  /** Requests go out at least a second apart, the first no earlier than
    * a second after the last request before it. */
  lemma {:induction false} LoopSpacing<T>(c: Config<T>, s: State<T>, fuel: nat)
    requires c.size > 0
    ensures var r := Loop(c, s, fuel);
      (s.last.Some? && |r.times| > 0 ==> r.times[0] >= s.last.value + Second)
      && forall i :: 0 < i < |r.times| ==> r.times[i] >= r.times[i - 1] + Second
    decreases fuel
  {
    PauseSpacing(s.last, c.clock(s.page));
    if !Done(s) && fuel > 0 && c.fetch(s.page).Page? {
      var t := RequestTime(c, s);
      LoopSpacing(c, Next(c, s), fuel - 1);
      var r := Loop(c, Next(c, s), fuel - 1);
      forall i | 0 < i < |[t] + r.times| ensures ([t] + r.times)[i] >= ([t] + r.times)[i - 1] + Second {
        if i > 1 {
          assert ([t] + r.times)[i] == r.times[i - 1] && ([t] + r.times)[i - 1] == r.times[i - 2];
        }
      }
    }
  }

  /** Pages are requested in order from the state's page, one request
    * each. */
  lemma {:induction false} LoopPages<T>(c: Config<T>, s: State<T>, fuel: nat)
    requires c.size > 0
    ensures var r := Loop(c, s, fuel);
      |r.times| == |r.pages| && forall i :: 0 <= i < |r.pages| ==> r.pages[i] == s.page + i
    decreases fuel
  {
    if !Done(s) && fuel > 0 && c.fetch(s.page).Page? {
      LoopPages(c, Next(c, s), fuel - 1);
    }
  }

  /** The items of pages `from` to `to`, in page order. */
  function PageItems<T>(fetch: int -> Page<T>, from: int, to: int): seq<T>
    decreases to - from
  {
    if from > to then []
    else (if fetch(from).Page? then fetch(from).items else []) + PageItems(fetch, from + 1, to)
  }

  /** Once the count is known and every remaining page answers, the loop
    * requests exactly the pages up to the count and finishes with one
    * final store of everything fetched, in page order and not cut to any
    * limit; a partial store follows every page only when partial results
    * are stored. */
  lemma {:induction false} LoopFinishes<T>(c: Config<T>, s: State<T>, fuel: nat)
    requires c.size > 0 && s.pageCount > 0
    requires fuel >= s.pageCount - s.page + 1
    requires forall p :: s.page <= p <= s.pageCount ==> c.fetch(p).Page?
    ensures var r := Loop(c, s, fuel);
      r.status == Finished
      && |r.pages| == (if s.pageCount >= s.page then s.pageCount - s.page + 1 else 0)
      && |r.stores| == 1 + (if c.partial then |r.pages| else 0)
      && r.stores[|r.stores| - 1].items == s.items + PageItems(c.fetch, s.page, s.pageCount)
    decreases fuel
  {
    if s.page <= s.pageCount {
      var n := Next(c, s);
      LoopStep(c, s, fuel);
      LoopFinishes(c, n, fuel - 1);
      assert s.items + PageItems(c.fetch, s.page, s.pageCount) == n.items + PageItems(c.fetch, s.page + 1, s.pageCount);
      var r := Loop(c, n, fuel - 1);
      assert (PartialStore(c, s) + r.stores)[|PartialStore(c, s) + r.stores| - 1] == r.stores[|r.stores| - 1];
    }
  }

  /** When the first page reports a positive total (and any cap is
    * positive), exactly `PageCount` pages are requested, provided they
    * all answer, and the final store holds them all in page order. */
  lemma JobFinishes<T>(fetch: int -> Page<T>, size: int, limit: Option<int>, cached: bool, clock: int -> int, fuel: nat)
    requires size > 0 && (limit.Some? ==> limit.value > 0)
    requires fetch(1).Page? && fetch(1).meta.total > 0
    requires var n := PageCount(fetch(1).meta.total, limit, size);
      fuel >= n && forall p :: 1 <= p <= n ==> fetch(p).Page?
    ensures var n := PageCount(fetch(1).meta.total, limit, size);
      var r := Job(fetch, size, limit, cached, clock, fuel);
      r.status == Finished && |r.pages| == n
      && |r.stores| == (if cached then 1 else 1 + n)
      && r.stores[|r.stores| - 1].items == PageItems(fetch, 1, n)
  {
    var c := Config(fetch, size, limit, !cached, clock);
    var s: State<T> := Start();
    var n := PageCount(fetch(1).meta.total, limit, size);
    PageCountCeiling(fetch(1).meta.total, limit, size);
    var m := Next(c, s);
    LoopStep(c, s, fuel);
    assert m.pageCount == n && m.page == 2 && m.items == fetch(1).items;
    LoopFinishes(c, m, fuel - 1);
    assert PageItems(fetch, 1, n) == fetch(1).items + PageItems(fetch, 2, n);
    var r := Loop(c, m, fuel - 1);
    assert (PartialStore(c, s) + r.stores)[|PartialStore(c, s) + r.stores| - 1] == r.stores[|r.stores| - 1];
  }

  /** A count that is not positive is never reached, and while every page
    * reports a total of 0 or less it is never replaced by a positive one:
    * whatever the fuel, the loop runs out of it. */
  lemma {:induction false} LoopNeverEnds<T>(c: Config<T>, s: State<T>, fuel: nat)
    requires c.size > 0 && s.pageCount <= 0
    requires forall p :: p >= s.page ==> c.fetch(p).Page? && c.fetch(p).meta.total <= 0
    ensures Loop(c, s, fuel).status == Exhausted
    decreases fuel
  {
    if fuel > 0 {
      assert PageCount(c.fetch(s.page).meta.total, c.limit, c.size) <= 0;
      LoopNeverEnds(c, Next(c, s), fuel - 1);
    }
  }

  /** A failed page ends the job without the final store: only the
    * partial stores of the pages before it were made. */
  lemma {:induction false} LoopFailure<T>(c: Config<T>, s: State<T>, fuel: nat)
    requires c.size > 0
    ensures var r := Loop(c, s, fuel);
      r.status == Aborted ==> |r.pages| >= 1 && |r.stores| == (if c.partial then |r.pages| - 1 else 0)
    decreases fuel
  {
    if !Done(s) && fuel > 0 && c.fetch(s.page).Page? {
      LoopFailure(c, Next(c, s), fuel - 1);
    }
  }

  // ---------------------------------------------------------------------
  // The three jobs

  const AuthorPageSize: int := 30
  const ShelfPageSize: int := 50
  const ShelvesPageSize: int := 15

  /** `runCacheAuthorList`: nothing without authorisation; otherwise the
    * author's books 30 a page, the page count capped by `maxBooks`. */
  method CacheAuthorList(authorised: bool, fetch: int -> Page<Book>, maxBooks: int, cached: bool, clock: int -> int, fuel: nat)
    returns (r: Run<Book>)
    ensures !authorised ==> r == Run([], [], [], Finished)
    ensures authorised ==> r == Job(fetch, AuthorPageSize, Some(maxBooks), cached, clock, fuel)
  {
    if !authorised {
      return Run([], [], [], Finished);
    }
    r := FetchPages(fetch, AuthorPageSize, Some(maxBooks), cached, clock, fuel);
  }

  /** The shelf `runCacheShelf` stores: its ID and name, the books so
    * far, and the total of the latest page as its size. */
  function StoredShelf(id: Int64, name: string, s: Stored<Book>): Shelf
  {
    Shelf(id, name, "", s.total, s.items, false)
  }

  /** `runCacheShelf`: nothing without authorisation; otherwise the
    * shelf's books 50 a page, and what is written to the cache after a
    * page is the shelf with the given ID and name holding the books so
    * far, sized by the latest page's total. */
  method CacheShelf(authorised: bool, id: Int64, name: string, fetch: int -> Page<Book>, cached: bool,
                    clock: int -> int, fuel: nat) returns (r: Run<Book>, stored: seq<Shelf>)
    ensures !authorised ==> r == Run([], [], [], Finished) && stored == []
    ensures authorised ==> r == Job(fetch, ShelfPageSize, None, cached, clock, fuel)
    ensures |stored| == |r.stores|
    ensures forall i :: 0 <= i < |stored| ==>
      stored[i].id == id && stored[i].name == name && stored[i].url == "" && !stored[i].selected &&
      stored[i].books == r.stores[i].items && stored[i].size == r.stores[i].total
  {
    if !authorised {
      return Run([], [], [], Finished), [];
    }
    r := FetchPages(fetch, ShelfPageSize, None, cached, clock, fuel);
    stored := seq(|r.stores|, i requires 0 <= i < |r.stores| => StoredShelf(id, name, r.stores[i]));
  }

  /** When every page of a shelf arrives, the last shelf written holds the
    * given ID and name and all the shelf's books in page order. */
  lemma CacheShelfFinishes(id: Int64, name: string, fetch: int -> Page<Book>, cached: bool, clock: int -> int, fuel: nat)
    requires fetch(1).Page? && fetch(1).meta.total > 0
    requires var n := PageCount(fetch(1).meta.total, None, ShelfPageSize);
      fuel >= n && forall p :: 1 <= p <= n ==> fetch(p).Page?
    ensures var n := PageCount(fetch(1).meta.total, None, ShelfPageSize);
      var r := Job(fetch, ShelfPageSize, None, cached, clock, fuel);
      |r.stores| > 0 &&
      var sh := StoredShelf(id, name, r.stores[|r.stores| - 1]);
      sh.id == id && sh.name == name && sh.books == PageItems(fetch, 1, n)
  {
    JobFinishes(fetch, ShelfPageSize, None, cached, clock, fuel);
  }

  /** `runCacheShelves`: nothing without authorisation; otherwise the
    * user's shelves 15 a page. */
  method CacheShelves(authorised: bool, fetch: int -> Page<Shelf>, cached: bool, clock: int -> int, fuel: nat)
    returns (r: Run<Shelf>)
    ensures !authorised ==> r == Run([], [], [], Finished)
    ensures authorised ==> r == Job(fetch, ShelvesPageSize, None, cached, clock, fuel)
  {
    if !authorised {
      return Run([], [], [], Finished);
    }
    r := FetchPages(fetch, ShelvesPageSize, None, cached, clock, fuel);
  }

  /** The page counts of the three jobs for a positive total: 30 books a
    * page up to `maxBooks`, 50 books or 15 shelves a page. */
  lemma JobPageCounts(total: int, maxBooks: int)
    requires total > 0 && maxBooks > 0
    ensures var n := if total > maxBooks then maxBooks else total;
      var a := PageCount(total, Some(maxBooks), AuthorPageSize);
      (a - 1) * 30 < n <= a * 30
    ensures var s := PageCount(total, None, ShelfPageSize); (s - 1) * 50 < total <= s * 50
    ensures var s := PageCount(total, None, ShelvesPageSize); (s - 1) * 15 < total <= s * 15
  {
    PageCountCeiling(total, Some(maxBooks), AuthorPageSize);
    PageCountCeiling(total, None, ShelfPageSize);
    PageCountCeiling(total, None, ShelvesPageSize);
  }
}
