/** The workflow's settings object (pkg/cli/options.go): its defaults,
  * the normalisation `Prepare` applies after the configuration is read,
  * the token lookup in the Keychain, and the query predicates.
  *
  * Flag parsing and reading the environment into the fields (awgo's
  * `Config.To`) are not modelled: `Prepare` starts from the fields as
  * loaded and receives the positional arguments. */
module Options {
  import opened Wrappers
  import opened Strings
  import opened Numbers

  const MinCacheAge: int := 3 * Minute
  const MaxBooksPerAuthor: int := 100
  const MinBooksPerAuthor: int := 30
  const DefaultScriptName: string := "View Book Online"

  /** How long each kind of data is cached. */
  datatype MaxCache = MaxCache(default: int, search: int, shelf: int, icons: int, feeds: int)

  const DefaultMaxCache: MaxCache := MaxCache(24 * Hour, 12 * Hour, 5 * Minute, 336 * Hour, 90 * Minute)

  /** A lower bound applied to a setting: raised to `lo`, kept otherwise. */
  function AtLeast(x: int, lo: int): (r: int)
    ensures r >= lo
    ensures x >= lo ==> r == x
    ensures x < lo ==> r == lo
  {
    if x < lo then lo else x
  }

  /** Every cache age raised to at least three minutes. */
  function ClampCache(m: MaxCache): (r: MaxCache)
    ensures r.default >= MinCacheAge && r.search >= MinCacheAge && r.shelf >= MinCacheAge
    ensures r.icons >= MinCacheAge && r.feeds >= MinCacheAge
    ensures m.default >= MinCacheAge ==> r.default == m.default
    ensures m.search >= MinCacheAge ==> r.search == m.search
    ensures m.shelf >= MinCacheAge ==> r.shelf == m.shelf
    ensures m.icons >= MinCacheAge ==> r.icons == m.icons
    ensures m.feeds >= MinCacheAge ==> r.feeds == m.feeds
  {
    MaxCache(AtLeast(m.default, MinCacheAge), AtLeast(m.search, MinCacheAge), AtLeast(m.shelf, MinCacheAge),
             AtLeast(m.icons, MinCacheAge), AtLeast(m.feeds, MinCacheAge))
  }

  /** What `keychain.Get` returns for the token item. */
  datatype KeychainGet = Found(value: string) | NotFound | KeychainFailed(error: string)

  /** The token and secret stored as `token + " " + secret`. An item
    * without a space has no second part: the source's `parts[1]` fails. */
  function SplitTokens(s: string): (r: Option<(string, string)>)
    ensures r.Some? <==> ' ' in s
  {
    var parts := Split(s, ' ');
    SplitHasParts(s);
    if |parts| >= 2 then Some((parts[0], parts[1])) else None
  }

  /** A string splits into at least two parts exactly when it holds the
    * separator. */
  lemma {:induction false} SplitHasParts(s: string)
    ensures |Split(s, ' ')| >= 1
    ensures |Split(s, ' ')| >= 2 <==> ' ' in s
  {
    if ' ' in s {
      var i := FirstIndexOf(s, ' ');
      assert s == s[..i] + [' '] + s[i + 1..];
      SplitAfter(s[..i], ' ', s[i + 1..]);
      SplitHasParts(s[i + 1..]);
    }
  }

  /** Splitting undoes the single-space join `keychainStore.Save` writes,
    * when neither part holds a space. */
  lemma TokensRoundTrip(token: string, secret: string)
    requires ' ' !in token && ' ' !in secret
    ensures SplitTokens(token + " " + secret) == Some((token, secret))
  {
    SplitAfter(token, ' ', secret);
    assert token + " " + secret == token + [' '] + secret;
    NoSeparator(secret);
  }

  lemma {:induction false} NoSeparator(s: string)
    requires ' ' !in s
    ensures Split(s, ' ') == [s]
  {
  }

  /** The credentials after the Keychain lookup, and the workflow
    * variables exported with them. */
  datatype Tokens = Tokens(token: string, secret: string, exported: map<string, string>)

  /** The Keychain step of `Prepare`: a set token is kept and nothing is
    * exported; otherwise a found item is split into token and secret, a
    * missing item leaves the token empty, and both are exported; any
    * other Keychain error, or an item without a space, is an error. */
  function LookupTokens(token: string, secret: string, keychain: KeychainGet): (r: Result<Tokens>)
    ensures token != "" ==> r == Ok(Tokens(token, secret, map[]))
    ensures token == "" && keychain.KeychainFailed? ==> r == Err("Keychain: " + keychain.error)
    ensures token == "" && keychain.Found? && ' ' !in keychain.value ==> r == Err("index out of range")
    ensures token == "" && keychain.Found? && ' ' in keychain.value ==>
      var (t, s) := SplitTokens(keychain.value).value;
      r == Ok(Tokens(t, s, map["ACCESS_TOKEN" := t, "ACCESS_SECRET" := s]))
    ensures token == "" && keychain.NotFound? ==>
      r == Ok(Tokens("", secret, map["ACCESS_TOKEN" := "", "ACCESS_SECRET" := secret]))
  {
    if token != "" then Ok(Tokens(token, secret, map[]))
    else match keychain
      case Found(v) =>
        (match SplitTokens(v)
         case None => Err("index out of range")
         case Some((t, s)) => Ok(Tokens(t, s, map["ACCESS_TOKEN" := t, "ACCESS_SECRET" := s])))
      case NotFound => Ok(Tokens("", secret, map["ACCESS_TOKEN" := "", "ACCESS_SECRET" := secret]))
      case KeychainFailed(e) => Err("Keychain: " + e)
  }

  /** A token written by `keychainStore.Save` is read back by `Prepare`
    * as the same pair, when neither part holds a space. */
  lemma SavedTokensLoad(token: string, secret: string, oldSecret: string)
    requires ' ' !in token && ' ' !in secret
    ensures LookupTokens("", oldSecret, Found(token + " " + secret)).Ok?
    ensures LookupTokens("", oldSecret, Found(token + " " + secret)).value.token == token
    ensures LookupTokens("", oldSecret, Found(token + " " + secret)).value.secret == secret
  {
    TokensRoundTrip(token, secret);
  }

  class Settings {
    var maxBooks: int
    var maxCache: MaxCache
    var accessToken: string
    var accessSecret: string
    var minQueryLength: int
    var defaultScript: string
    var lastRequest: string
    var lastRequestParsed: Option<int>
    var args: seq<string>
    var query: string

    /** `init`: the defaults before the configuration is read. */
    constructor ()
      ensures maxBooks == MaxBooksPerAuthor && maxCache == DefaultMaxCache
      ensures accessToken == "" && accessSecret == "" && minQueryLength == 0 && defaultScript == ""
      ensures lastRequest == "" && lastRequestParsed.None? && args == [] && query == ""
    {
      maxBooks := MaxBooksPerAuthor;
      maxCache := DefaultMaxCache;
      accessToken := "";
      accessSecret := "";
      minQueryLength := 0;
      defaultScript := "";
      lastRequest := "";
      lastRequestParsed := None;
      args := [];
      query := "";
    }

    /** `QueryEmpty`: nothing but white space. */
    predicate QueryEmpty()
      reads this
    {
      TrimSpace(query) == ""
    }

    /** `QueryTooShort`: the trimmed query has fewer bytes than the
      * minimum. */
    predicate QueryTooShort()
      reads this
    {
      ByteLen(TrimSpace(query)) < minQueryLength
    }

    /** `Authorised`: an OAuth token is set. */
    predicate Authorised()
      reads this
    {
      accessToken != ""
    }

    /** A white-space query is too short whenever a minimum applies. */
    lemma EmptyIsTooShort()
      requires QueryEmpty() && minQueryLength > 0
      ensures QueryTooShort()
    {
    }

    /** `Prepare`, after the configuration is read: the first argument
      * becomes the trimmed query, the settings are raised to their
      * minimums, the token is looked up in the Keychain when it is not
      * set (and exported as workflow variables), and `LastRequest` is
      * parsed. The first failure ends it, with the fields set so far
      * kept. */
    method Prepare(positional: seq<string>, keychain: KeychainGet, parseTime: string -> Option<int>)
      returns (err: Option<string>, exported: map<string, string>)
      modifies this
      ensures args == positional
      ensures query == (if |positional| > 0 then TrimSpace(positional[0]) else old(query))
      ensures maxBooks == AtLeast(old(maxBooks), MinBooksPerAuthor)
      ensures maxCache == ClampCache(old(maxCache))
      ensures minQueryLength == (if old(minQueryLength) == 0 then 2 else old(minQueryLength))
      ensures defaultScript == (if old(defaultScript) == "" then DefaultScriptName else old(defaultScript))
      ensures lastRequest == old(lastRequest)
      ensures var t := LookupTokens(old(accessToken), old(accessSecret), keychain);
        if t.Err? then
          err == Some(t.error) && exported == map[] && lastRequestParsed == old(lastRequestParsed) &&
          accessToken == old(accessToken) && accessSecret == old(accessSecret)
        else
          var p := ParsedLastRequest(lastRequest, old(lastRequestParsed), parseTime);
          accessToken == t.value.token && accessSecret == t.value.secret && exported == t.value.exported &&
          (if p.Err? then err == Some(p.error) && lastRequestParsed.None?
           else err.None? && lastRequestParsed == p.value)
    {
      Normalise(positional);
      var t := LookupTokens(accessToken, accessSecret, keychain);
      if t.Err? {
        return Some(t.error), map[];
      }
      accessToken, accessSecret := t.value.token, t.value.secret;
      exported := t.value.exported;
      var p := ParsedLastRequest(lastRequest, lastRequestParsed, parseTime);
      if p.Err? {
        // `UnmarshalText` leaves the zero time behind when it fails.
        lastRequestParsed := None;
        return Some(p.error), exported;
      }
      lastRequestParsed := p.value;
      return None, exported;
    }

    /** The query and the minimums of `Prepare`. */
    method Normalise(positional: seq<string>)
      modifies this`args, this`query, this`maxBooks, this`maxCache, this`minQueryLength, this`defaultScript
      ensures args == positional
      ensures query == (if |positional| > 0 then TrimSpace(positional[0]) else old(query))
      ensures maxBooks == AtLeast(old(maxBooks), MinBooksPerAuthor)
      ensures maxCache == ClampCache(old(maxCache))
      ensures minQueryLength == (if old(minQueryLength) == 0 then 2 else old(minQueryLength))
      ensures defaultScript == (if old(defaultScript) == "" then DefaultScriptName else old(defaultScript))
    {
      args := positional;
      if |positional| > 0 {
        query := TrimSpace(positional[0]);
      }
      if maxBooks < MinBooksPerAuthor {
        maxBooks := MinBooksPerAuthor;
      }
      maxCache := ClampCache(maxCache);
      if minQueryLength == 0 {
        minQueryLength := 2;
      }
      if defaultScript == "" {
        defaultScript := DefaultScriptName;
      }
    }
  }

  /** The `LastRequest` step of `Prepare`: an empty setting keeps the
    * zero time; otherwise it must parse. */
  function ParsedLastRequest(lastRequest: string, parsed: Option<int>, parseTime: string -> Option<int>)
    : (r: Result<Option<int>>)
    ensures lastRequest == "" ==> r == Ok(parsed)
    ensures lastRequest != "" && parseTime(lastRequest).None? ==> r == Err("parse LastRequest")
    ensures lastRequest != "" && parseTime(lastRequest).Some? ==> r == Ok(parseTime(lastRequest))
  {
    if lastRequest == "" then Ok(parsed)
    else if parseTime(lastRequest).None? then Err("parse LastRequest")
    else Ok(parseTime(lastRequest))
  }

  /** After `Prepare` every minimum holds and normalising again would
    * change nothing. */
  lemma PreparedWithinMinimums(maxBooks: int, m: MaxCache, minQuery: int)
    ensures AtLeast(maxBooks, MinBooksPerAuthor) >= MinBooksPerAuthor
    ensures AtLeast(AtLeast(maxBooks, MinBooksPerAuthor), MinBooksPerAuthor) == AtLeast(maxBooks, MinBooksPerAuthor)
    ensures ClampCache(ClampCache(m)) == ClampCache(m)
    ensures (if minQuery == 0 then 2 else minQuery) != 0
  {
  }
}
