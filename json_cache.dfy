/** The cache the commands read through (awgo's `Cache.LoadOrStoreJSON`,
  * which reloads an expired entry before answering), and the
  * one-request-per-second
  * throttle of the reload closures in pkg/cli/search.go (`cachingSearch`)
  * and pkg/cli/scripts.go (`bookDetails`).
  *
  * Times are nanoseconds on one clock; the cache maps a key to the decoded
  * value and the time it was written. */
module JsonCache {
  import opened Wrappers
  import opened Numbers

  datatype Entry<T> = Entry(value: T, mtime: int)

  type Cache<T> = map<string, Entry<T>>

  /** `Cache.Expired`: a missing entry, or one older than `maxAge`. */
  predicate Expired<T>(cache: Cache<T>, key: string, maxAge: int, now: int)
  {
    key !in cache || now - cache[key].mtime > maxAge
  }

  /** The moment a throttled request goes out: the later of `now` and one
    * second after the last request. */
  function SendTime(last: Option<int>, now: int): (t: int)
    ensures t >= now
    ensures last.Some? ==> t >= last.value + Second
    ensures t == now || (last.Some? && t == last.value + Second)
  {
    if last.Some? && last.value + Second > now then last.value + Second else now
  }

  /** The wait of a reload closure: the request goes out at `now`, or,
    * when the last request (`LAST_REQUEST`) was less than a second ago,
    * exactly one second after it. The zero time (no last request) lies
    * far in the past and never delays. Returns the moment the request is
    * sent, which the closure also records as the new `LAST_REQUEST`. */
  method Throttle(last: Option<int>, now: int) returns (sent: int)
    ensures sent >= now
    ensures last.Some? ==> sent >= last.value + Second
    ensures sent == now || (last.Some? && sent == last.value + Second)
    ensures sent == SendTime(last, now)
  {
    sent := now;
    if last.Some? {
      var earliest := last.value + Second;
      if earliest > now {
        var d := earliest - now;
        sent := now + d;
      }
    }
  }

  /** What `LoadOrStoreJSON` gives back: the value, the cache after it,
    * and the `LAST_REQUEST` the reload set (None when nothing was
    * requested); or the reload's error. */
  datatype Loaded<T> = Loaded(value: T, cache: Cache<T>, lastRequest: Option<int>) | LoadFailed(error: string)

  /** `LoadOrStoreJSON(key, maxAge, reload)` with the throttled reload:
    * a fresh entry is returned without a request; otherwise the request is
    * made (its answer is `fetch`) and a success is stored under `key`,
    * stamped with the time `written` at which the file is written once
    * the reload has returned. The new `LAST_REQUEST` is the moment the
    * request was sent. */
  method LoadOrStore<T>(cache: Cache<T>, key: string, maxAge: int, now: int, last: Option<int>,
                        fetch: Result<T>, written: int) returns (r: Loaded<T>)
    ensures !Expired(cache, key, maxAge, now) ==> r == Loaded(cache[key].value, cache, None)
    ensures Expired(cache, key, maxAge, now) && fetch.Err? ==> r == LoadFailed(fetch.error)
    ensures Expired(cache, key, maxAge, now) && fetch.Ok? ==>
      r.Loaded? && r.value == fetch.value && r.lastRequest.Some? &&
      r.cache == cache[key := Entry(fetch.value, written)] &&
      r.lastRequest.value >= now &&
      (last.Some? ==> r.lastRequest.value >= last.value + Second) &&
      r.lastRequest.value == SendTime(last, now)
  {
    if !Expired(cache, key, maxAge, now) {
      return Loaded(cache[key].value, cache, None);
    }
    var sent := Throttle(last, now);
    if fetch.Err? {
      return LoadFailed(fetch.error);
    }
    return Loaded(fetch.value, cache[key := Entry(fetch.value, written)], Some(sent));
  }

  /** A value just stored is fresh for any non-negative age limit, and
    * reading it again at that moment gives it back without a request. */
  lemma StoredIsFresh<T>(cache: Cache<T>, key: string, v: T, t: int, maxAge: int)
    requires maxAge >= 0
    ensures !Expired(cache[key := Entry(v, t)], key, maxAge, t)
    ensures cache[key := Entry(v, t)][key].value == v
  {
  }
}
