# alfred-booksearch in Dafny

A model of the Alfred workflow that searches Goodreads for books: the
Goodreads client and its entities (pkg/gr), the workflow commands built
on them (pkg/cli), the first version of the workflow (main.go,
goodreads.go, icons.go, modifiers.go), and the release helper vars.py.

The workflow is a command-line program that Alfred runs once per
keystroke. It answers from caches on disk, reloading an expired search
or book entry before it answers, and
refreshes them in background jobs. The model keeps what the program
decides and leaves what it hands to other code as parameters:

- the awgo cache is a map from key to a decoded value and the time it
  was written; the background runner is a class holding the set of jobs
  running;
- the clock is an integer count of nanoseconds, passed in wherever the
  program reads `time.Now`; Go's zero `time.Time` is `None`;
- the network, OAuth, the Keychain, XML decoding, SHA-256, the HTML
  sanitiser, URL escaping, `os.Expand` and the fuzzy matcher are
  function parameters, and every property holds for any of them;
- the file system is a map or set of paths, with the paths whose
  access fails for reasons other than absence;
- the loops that fetch every page of a list take the API's answer per
  page and the time the loop reaches each page as parameters;
- Go's truncating `/` and `%`, its `int64` fields, the byte length of a
  string and the `strings`, `strconv` and `path` functions the program
  calls are written out in `numbers.dfy` and `strings.dfy`.

State the source changes in place is a class with `modifies` clauses:
the icon queues (`IconQueue.IconCache`, `LegacyIcons.IconCache`), the
API client throttle (`GrClient.Client`), the background runner
(`Cli.Jobs`), the cache cleaner (`Janitor.DirCleaner`), the cache
(`JsonCache.Cache`), the settings (`Options.Settings`) and the two files
of vars.py (`WorkflowVars.Files`). Loops of the source are methods with
invariants, proved against the functions that specify them; the rest is
functions and lemmas.

## Model

| member | source | states |
|---|---|---|
| BookVars.VariantOfSuffix | pkg/cli/scripts.go:194-196 | a data key that ends in neither suffix gives three variables whose suffixes tell them apart |
| BookVars.SpreadUnique | pkg/cli/scripts.go:191-199 | the variables of a book are determined by its data: two maps that both spread the same data are equal |
| BookVars.SpreadAt | pkg/cli/scripts.go:193-197 | each data key `k` with value `v` yields `k` = `v`, `k_QUOTED` = the path-escaped `v` and `k_QUOTED_PLUS` = the query-escaped `v` |
| CacheKeys.CacheFileLayout | pkg/cli/icons.go:312-317 | `cachefile` is the digest's first two characters, "/", the next two, "/", the full 64-character digest, the key's own extension, then the extra extensions |
| CacheKeys.CacheFileCollision | pkg/cli/icons.go:312-317 | two keys share a cache file only when their digests are equal |
| CacheKeys.LegacyCacheFileLayout | icons.go:200-205 | the legacy path is three two-character shard directories and the digest from its seventh character, holding only the first 63 digest characters, then the extensions |
| CacheKeys.LegacyCacheFileIgnoresLastDigit | icons.go:200-205 | keys whose digests differ only in the last character, with the same extension, get the same legacy cache file |
| CacheKeys.PaddedID | pkg/cli/icons.go:324-327 | the padded ID is at least four characters long |
| CacheKeys.CacheFileIDPath | pkg/cli/icons.go:319-329 | the padding loop yields `p[0:2]/p[2:4]/<id>.<ext>`, with `ext` defaulting to `json` |
| CacheKeys.CacheFileIDLayout | pkg/cli/icons.go:319-329 | the two directories come from the zero-padded ID; the file name is the unpadded decimal ID, ".", and the extension |
| CacheKeys.CacheFileIDInjective | pkg/cli/icons.go:319-329 | distinct IDs never share a cache file |
| CacheKeys.CacheFileIDShortExample | pkg/cli/icons.go:319-329 | ID 5 goes to `00/05/5.json` |
| CacheKeys.CacheFileIDNegativeExample | pkg/cli/icons.go:319-329 | ID -5 with extension `png` goes to `00/-5/-5.png`: the sign stays inside the padded directory part |
| Cli.StartJob | pkg/cli/cli.go:477-482 | a job of that name already running: nothing launched and no error; otherwise exactly that named job with its arguments is launched, or the runner's error is returned with nothing launched |
| Cli.StartJobIdempotent | pkg/cli/cli.go:477-482 | a call launches at most that one job; after a successful launch the job is running and a second call launches nothing and returns no error |
| Cli.Jobs.RunJob | pkg/cli/cli.go:477-482 | the runner's new state and the error are those `StartJob` prescribes for the old state |
| Cli.NavItemsOf | pkg/cli/cli.go:404-417 | a query shorter than three bytes shows no action; otherwise an action is shown exactly when it is one of `navActions`, not ignored, and its name starts with the lower-cased query |
| Cli.AddNavActions | pkg/cli/cli.go:404-430 | the ignore-set loop and the action loop yield exactly the filtered `navActions` in their order |
| Cli.KeychainStore.constructor | pkg/cli/cli.go:328-332 | the store holds the bundle ID and the settings' token and secret |
| Cli.KeychainStore.Save | pkg/cli/cli.go:128-136 | the Keychain receives `token + " " + secret`; a failed write returns the wrapped error and leaves both fields as they were; a successful one stores the new pair |
| Cli.KeychainStore.Load | pkg/cli/cli.go:138-141 | returns the held pair and never an error |
| Cli.SaveThenLoad | pkg/cli/cli.go:128-141 | after a successful `Save`, `Load` returns the saved pair, and the Keychain item reads back as that pair on the next run when neither part holds a space |
| Cli.BootJob | pkg/cli/cli.go:340-368 | in this order: unauthorised starts nothing; no user ID starts the user job; no cached shelves starts the shelves job; a running feeds job means nothing; a feeds stamp that fails to load is returned as the error; otherwise the feeds job starts exactly when the last update is older than the feeds age, or there is none |
| Cli.BootStartsOne | pkg/cli/cli.go:340-366 | at most one job starts, the feeds job only when it is not running, the user job only without a user ID, and nothing at all when unauthorised |
| Cli.Bootstrap | pkg/cli/cli.go:328-368 | the token store holds the settings' token, the client is built from it with a token exactly when both parts are non-empty, and the chosen job is started through `runJob`, whose error is returned |
| GrTypes.YearText | pkg/gr/book.go:81 | the `YEAR` text of a non-negative year is at least four decimal digits, and of a negative year a `-` followed by at least four digits, as Go's `Format("2006")` pads the absolute year |
| GrTypes.YearTextValue | pkg/gr/book.go:81 | the text starts with `-` exactly for a negative year, and its digits read back as the absolute year |
| GrTypes.NegativeYearExample | pkg/gr/book.go:81 | year -725 is written "-0725" |
| GrTypes.BookURLInjective | pkg/gr/book.go:187 | the book-page URL names the book: different IDs give different URLs |
| GrTypes.AuthorURLInjective | pkg/gr/book.go:194 | the author-page URL names the author: different IDs give different URLs |
| GrTypes.QuerySet | pkg/gr/http.go:109 | after `Set`, the key reads back as the new value and every other key keeps its values |
| GrTitle.PositionOf | pkg/gr/book.go:377-378 | group 3 of a matching tail is a non-empty run of digits and dots |
| GrTitle.Match | pkg/gr/book.go:377-385 | the submatch is a match; no match has a longer group 1, and none with the same group 1 has a shorter group 2; there is no result exactly when nothing matches |
| GrTitle.ParseTitle | pkg/gr/book.go:383-392 | when the `,? #N` pattern matches, the result is that match's trimmed group 1 and trimmed group 2 with the parsed position, whatever the second pattern says |
| GrTitle.ParseTitleNoMatch | pkg/gr/book.go:394-395 | a title that neither pattern matches is returned unchanged with the zero series |
| GrTitle.ParseTitleWithoutParen | pkg/gr/book.go:377-378 | a title without "(" is returned unchanged with the zero series (also pkg/gr/book.go:394-395) |
| GrTitle.OnlyMatch | pkg/gr/book.go:377-378 | in a title `g1 (g2 TAIL)` no match has a longer group 1 than `g1`, and none with group 1 `g1` ends group 2 inside `g2` |
| GrTitle.MatchAssembled | pkg/gr/book.go:377-385 | the title `g1 (g2 TAIL)` is cut exactly into `g1` and `g2` when both stay on one line and no shorter group 2 can be followed by a matching tail |
| GrTitle.ParseTitleAssembled | pkg/gr/book.go:383-392 | `parseTitle` of such a title is the trimmed `g1` and a series of the trimmed `g2` at the parsed position; a hash tail wins, and a series-book title is reached when the title has no "#" |
| GrTitle.TitlePieces | pkg/gr/book.go:383-392 | with already-trimmed, unambiguous pieces, `parseTitle` returns exactly `g1` and the series `g2` at position `r` |
| GrTitle.ParsePositionOfDigits | pkg/gr/book.go:389 | an integer position parses to its decimal value |
| GrTitle.StormFrontExample | pkg/gr/book_test.go:68-73 | "Storm Front (The Dresden Files, #1)" gives "Storm Front" and the series "The Dresden Files" at 1: the lazy group 2 stops before the comma |
| GrTitle.GlassWorldExample | pkg/gr/book_test.go:74-79 | "Glass World (Undying Mercenaries Series Book 13)" gives "Glass World" and the series "Undying Mercenaries" at 13, through the second pattern |
| GrTitle.GhostStoryExample | pkg/gr/book_test.go:294-296 | "Ghost Story (The Dresden Files,  #13)" still matches with two spaces before "#" |
| GrTitle.TrimSeries | goodreads.go:332-342 | a title matching `^(.+)\s\(.+?#\d+\)$` gives its untrimmed group 1; any other title is returned unchanged |
| GrTitle.TrimSeriesKeepsFraction | goodreads.go:332 | a title whose last "#" is followed by anything but digits and ")", such as a fractional position, is left unchanged |
| GrTitle.TrimSeriesExample | goodreads.go:332-342 | "Storm Front (The Dresden Files, #1)" trims to "Storm Front" |
| GrBook.NoSeriesWithoutMatch | pkg/gr/book.go:52 | a title that neither pattern matches gives a book with no series (`HasSeries` is false) (also pkg/gr/book.go:394-395) |
| GrBook.PublicationDateDefaults | pkg/gr/book.go:197-205 | without a year there is no date; with one, the year is kept, a given month and day are kept, and a month or day of 0 becomes 1 (also pkg/gr/book.go:249-258, pkg/gr/book.go:358-367) |
| GrBook.PublicationDateEpoch | pkg/gr/book.go:203-205 | a book dated 1 January 1970, or only "1970", gets the zero date, like a book with no date |
| GrBook.RawData | pkg/gr/book.go:67-85 | before filtering, every one of the seventeen keys is present with its value |
| GrBook.Data | pkg/gr/book.go:87-95 | the loop keeps exactly the entries whose value is neither "" nor "0", with their values |
| GrBook.IntToDecZero | pkg/gr/book.go:71-79 | an ID prints as "0" exactly when it is 0, and never as "" |
| GrBook.DataIDs | pkg/gr/book.go:71-79 | `BOOK_ID`, `WORK_ID`, `SERIES_ID` and `AUTHOR_ID` are present exactly when the IDs are non-zero (also pkg/gr/book.go:90) |
| GrBook.DataTexts | pkg/gr/book.go:68-83 | `TITLE`, `SERIES`, `AUTHOR` and `BOOK_URL` are present exactly when the text is neither empty nor "0" (also pkg/gr/book.go:90) |
| GrBook.DataYearAndRating | pkg/gr/book.go:81-90 | `RATING` is never dropped, because "%f" always prints a decimal point; `YEAR` is never dropped, since the year text has at least four characters, so a book with no date gets the zero date's year |
| GrBook.URLForQuery | pkg/gr/book.go:210-215 | the URL is "" exactly for the empty query; otherwise it is the search URL followed by the escaped query |
| GrBook.PageOrFirst | pkg/gr/book.go:279-281 | page 0 becomes 1 and any other page is kept (also pkg/gr/book.go:299-301) |
| GrBook.URLForAuthor | pkg/gr/book.go:298-303 | the author-list URL is never "", so the `errEmptyQuery` guard in `AuthorBooks` never fires |
| GrBook.URLForAuthorFirstPage | pkg/gr/book.go:279-281 | asking for page 0 and for page 1 is the same request (also pkg/gr/book.go:298-303) |
| GrBook.SearchBook | pkg/gr/book.go:236-260 | a search result keeps the record's IDs and title, and gets the book URL and the author URL built from their IDs |
| GrBook.UnmarshalSearchResults | pkg/gr/book.go:236-263 | one book per record, in order, each the `SearchBook` of its record |
| GrBook.FirstAuthor | pkg/gr/book.go:192-195 | no listed author gives the zero author; otherwise it is the first listed author with the URL built from its ID (also pkg/gr/book.go:353-356) |
| GrBook.ListBook | pkg/gr/book.go:338-368 | a listed book takes its series from the title, but keeps the record's own title without series, and gets the first author |
| GrBook.UnmarshalList | pkg/gr/book.go:334-371 | the page attributes are copied, and there is one book per record, in order |
| GrBook.BookDetails | pkg/gr/book.go:169-195 | the title without series is the work's original title, or the parsed title when that is empty; the series name is trimmed; the author is the first listed one |
| GrBook.BookDetailsPlainTitle | pkg/gr/book.go:169-172 | without an original title, a title that carries no series is used as it is |
| GrText.DropReSpaces | pkg/gr/text.go:17 | the result is a suffix of the input, everything cut off is `\s`, and the result does not start with `\s` (also pkg/gr/text.go:86) |
| GrText.CollapseSpaces | pkg/gr/text.go:17 | `\s+` replaced by " ": never longer, empty exactly when the input is, and the first character kept or turned into a space (also pkg/gr/text.go:86) |
| GrText.CollapseSpacesCollapsed | pkg/gr/text.go:17 | after collapsing, the only white space left is the plain space and no two spaces are adjacent (also pkg/gr/text.go:86) |
| GrText.NonSpacesOfDropped | pkg/gr/text.go:86 | dropping leading white space keeps every other character in order |
| GrText.CollapseSpacesKeepsText | pkg/gr/text.go:86 | collapsing white space keeps every other character in order |
| GrText.TidyTextClean | pkg/gr/text.go:80-88 | `tidyText` leaves no newline and no run of white space, and keeps the non-space text of its input after the ellipsis, dash and newline substitutions |
| GrText.ReplaceAllSelf | pkg/gr/text.go:82 | `strings.Replace` of a string that is the pattern gives the replacement |
| GrText.ReplaceAllShort | pkg/gr/text.go:82 | a string shorter than the pattern is unchanged by `strings.Replace` |
| GrText.NoDotRun | pkg/gr/text.go:81 | once no two dots are adjacent, none of the dotted ellipsis patterns can match |
| GrText.CollapseSpacesPlain | pkg/gr/text.go:86 | text without white space is unchanged by the collapse |
| GrText.TidyTextOfEllipsis | pkg/gr/text.go:80-88 | once the ellipsis pass has produced a lone "…", the dash, newline and white-space passes keep it |
| GrText.FourDotsExample | pkg/gr/text_test.go:19 | "...." tidies to "…" |
| GrText.SpacedFourDotsExample | pkg/gr/text_test.go:20 | ". . . ." tidies to "…" |
| GrText.SpacedThreeDotsExample | pkg/gr/text_test.go:21 | ". . ." tidies to "…" |
| GrText.ThreeDotsExample | pkg/gr/text_test.go:22 | "..." tidies to "…" |
| GrText.DigitRun | pkg/gr/text.go:16 | the length of the maximal run of digits from a position: all digits, and followed by a non-digit or the end |
| GrText.EntityLen | pkg/gr/text.go:16 | a match of `&#\d+;` starting at a position is found exactly when one exists, with its digit count |
| GrText.DigitsAgree | pkg/gr/text.go:16 | a match's digit run is the maximal one, so the digit count of a match at a position is unique |
| GrText.FindEntity | pkg/gr/text.go:16 | `FindStringIndex`: the leftmost match at or after the start, with nothing matching before it; no result exactly when nothing matches (also pkg/gr/text.go:69) |
| GrText.Rune | pkg/gr/text.go:74 | Go's `string(i)`: the code point `i` when it is a Unicode scalar value, else U+FFFD |
| GrText.DecodeAt | pkg/gr/text.go:73-74 | one replacement keeps the text before and after the match and puts one character in place of the `k + 3` characters of the match |
| GrText.DecodeAll | pkg/gr/text.go:68-75 | the repeated replacement ends with no match left |
| GrText.DecodeEntitiesLoop | pkg/gr/text.go:67-77 | the `for` loop computes `DecodeEntities`, and its result holds no match of `&#\d+;` |
| GrText.DecodeAllStep | pkg/gr/text.go:69-74 | one round replaces the leftmost match by the character its digits name, and the loop's end is the same from the new text |
| GrText.NoEntityInSlice | pkg/gr/text.go:16 | a slice of text without a match has no match either |
| GrText.DecodeEntitiesPlain | pkg/gr/text.go:67-77 | text without a numeric reference is only trimmed |
| GrText.DecodeEntitiesComplete | pkg/gr/text.go:67-77 | `decodeEntities` never leaves a numeric reference, even one formed by its own replacements |
| GrText.ReplaceBR | pkg/gr/text.go:57-63 | text without `<br />` or `<br/>` is unchanged |
| GrText.ReplaceBRPrefix | pkg/gr/text.go:57-63 | output text before the first newline was copied unchanged from the start of the input |
| GrText.ReplaceBRComplete | pkg/gr/text.go:57-63 | after the replacement no `<br />` or `<br/>` is left |
| GrText.NoTagAfterFirst | pkg/gr/text.go:57 | a tag occurs in `[c] + u` only at position 0 or inside `u` |
| GrText.NoTagAfterNewline | pkg/gr/text.go:57-63 | a newline put in front of tag-free text forms no tag |
| GrText.MarkdownTableTags | pkg/gr/text.go:31-48 | every pattern of the Markdown table is a non-empty string starting with '<' |
| GrText.NoTagWithoutAngle | pkg/gr/text.go:51-53 | a pattern starting with '<' cannot occur in text without '<' |
| GrText.ReplaceEachPlain | pkg/gr/text.go:51-53 | text without '<' goes through the whole replacement table unchanged |
| GrText.HTML2TextNoBreakTags | pkg/gr/text.go:60-64 | `HTML2Text` never returns a `<br />` or `<br/>`, whatever the sanitiser returns |
| GrText.HTML2FormsAgree | pkg/gr/text.go:30-64 | when the sanitised, tidied and decoded text holds no '<', `HTML2Markdown` and `HTML2Text` both return exactly that text |
| GrText.LetterAMatch | pkg/gr/text.go:69 | the leftmost match in "&#65;" starts at 0 with two digits |
| GrText.LetterADecoded | pkg/gr/text.go:73-74 | replacing that match gives "A" |
| GrText.DecodeEntitiesExample | pkg/gr/text.go:67-77 | "&#65;" decodes to "A" |
| GrSeries.SeriesString | pkg/gr/series.go:29-34 | empty exactly for a series without a title; otherwise the title, " #", and a position written with a decimal point |
| GrSeries.SeriesBook | pkg/gr/series.go:87-111 | each work gives a book with its IDs, trimmed title, author and its URL, book URL, the series' ID and title, and the publication date with month and day defaulting to 1 |
| GrSeries.UnmarshalSeries | pkg/gr/series.go:77-116 | the series has its ID, trimmed title and one book per work in order |
| GrSeries.SeriesBooksCarrySeries | pkg/gr/series.go:92 | every book of a decoded series keeps its work's book ID and names the series by its ID and title |
| GrSeries.PositionFallback | pkg/gr/series.go:83-86 | a `user_position` that does not parse as a number gives position 0 |
| GrSeries.SeriesTitleNoSeries | pkg/gr/series.go:91-101 | the trimmed original title is the title without series when there is one; else the parsed title, which is the whole title when it holds no "(" |
| GrShelf.ShelfTitle | pkg/gr/shelf.go:40-51 | "read", "currently-reading" and "to-read" get their display names; every other name is shown as it is |
| GrShelf.ShelfTitleDistinct | pkg/gr/shelf.go:40-51 | the three built-in shelves have three different, non-empty titles |
| GrShelf.ShelfLessStrict | pkg/gr/shelf.go:59 | `ShelvesByName.Less` is irreflexive, transitive and total on different names |
| GrShelf.UserShelfURL | pkg/gr/shelf.go:18 | the shelf URL starts with the review-list endpoint and ends with 50 per page sorted by position (also pkg/gr/shelf.go:62-68) |
| GrShelf.UserShelvesURL | pkg/gr/shelf.go:19 | the shelf-list URL starts with the shelf-list endpoint (also pkg/gr/shelf.go:156-162) |
| GrShelf.UserShelvesURLInjective | pkg/gr/shelf.go:156-162 | the shelf-list URL determines the user ID and the page asked for, page 0 counting as page 1 |
| GrShelf.ShelfPageZero | pkg/gr/shelf.go:63-65 | page 0 requests the same URL as page 1, for both endpoints (also pkg/gr/shelf.go:157-159) |
| GrShelf.UnmarshalShelf | pkg/gr/shelf.go:80-153 | the page attributes are copied and each review gives one book, in order, with its ID and title |
| GrShelf.ListedShelf | pkg/gr/shelf.go:211-217 | a listed shelf has the record's ID, name and book count, and no URL, books or selection yet |
| GrShelf.UnmarshalShelves | pkg/gr/shelf.go:184-221 | the page attributes are copied and each record gives one shelf, in order, with its ID, name and size |
| GrShelf.SetShelfURLs | pkg/gr/shelf.go:170-180 | the loop over the array sets every shelf's URL and nothing else |
| GrShelf.WithWebURLEach | pkg/gr/shelf.go:171-179 | each shelf is unchanged except that its URL is the user's review list with `shelf=<name>` |
| GrShelf.ShelfWebURLNamesUser | pkg/gr/shelf.go:172 | two shelf URLs that are equal belong to the same user |
| GrShelf.AddToShelvesQuery | pkg/gr/shelf.go:224-231 | exactly the parameters `shelves`, the comma-joined names, and `bookids`, the decimal book ID |
| GrShelf.AddToShelvesRoundTrip | pkg/gr/shelf.go:229 | splitting the `shelves` parameter at commas gives back the shelf names when none holds a comma |
| GrShelf.AddRemoveShelfQuery | pkg/gr/shelf.go:256-266 | the parameters are `name` and `book_id`, plus `a=remove` exactly when removing |
| GrShelf.AddRemoveShelfDiffer | pkg/gr/shelf.go:261-265 | adding and removing send the same parameters apart from `a` |
| GrFeed.ParseFeedTitle | pkg/gr/feed.go:98-104 | the text after the first "bookshelf: ", or the whole title when it has none |
| GrFeed.ParseFeedTitleNamed | pkg/gr/feed.go:98-104 | a title "<owner>bookshelf: <name>" gives `name` when the owner part has no ':' |
| GrFeed.FeedImage | pkg/gr/feed.go:83-90 | the large image if set, else the medium one, else the plain one; empty only when all three are |
| GrFeed.FeedBook | pkg/gr/feed.go:81-90 | a feed book has only its ID and cover set |
| GrFeed.UnmarshalFeed | pkg/gr/feed.go:59-96 | the feed is named from the channel title and has one book per item, in order, with its ID and chosen cover |
| GrFeed.FeedURL | pkg/gr/feed.go:17 | the feed URL starts with the RSS endpoint (also pkg/gr/feed.go:46-49) |
| GrFeed.FeedURLInjective | pkg/gr/feed.go:46-49 | the feed URL determines the user ID and the escaped shelf name |
| GrFeed.ParseFeedURL | pkg/gr/feed.go:28-37 | a URL that does not parse is an error; otherwise the last path element and the `key` parameter |
| GrFeed.ParseFeedURLOfFeed | pkg/gr/feed_test.go:41-42 | an RSS URL of user `id` gives back that ID and its key |
| IconQueue.AddedTrans | pkg/cli/icons.go:111-128 | two successive `Add` calls together still only append fresh, non-placeholder covers without a cover file, each ID once |
| IconQueue.AddBooksAdded | pkg/cli/icons.go:111-128 | `Add` keeps the old queue as a prefix and appends only non-placeholder covers without a cover file, under IDs newly marked seen, no ID twice |
| IconQueue.AddBooksSeen | pkg/cli/icons.go:114-126 | afterwards the seen IDs are the old ones plus exactly the IDs of the non-placeholder books given |
| IconQueue.AddBooksQueues | pkg/cli/icons.go:114-124 | every non-placeholder book neither seen before nor on disk has its ID queued |
| IconQueue.RowIcons | pkg/cli/icons.go:181-182 | one icon per record, the ID read with strconv.ParseInt and its error ignored |
| IconQueue.Dedup | pkg/cli/icons.go:183-187 | the de-duplicated queue is no longer than its input |
| IconQueue.DedupDistinct | pkg/cli/icons.go:183-187 | the restored queue holds each ID once, and only icons of the file |
| IconQueue.DedupKeepsDistinct | pkg/cli/icons.go:183-187 | a queue whose IDs are already distinct is restored unchanged |
| IconQueue.Fields | pkg/cli/icons.go:209-210 | `Close` writes one two-field record per queued icon |
| IconQueue.EncodedLines | pkg/cli/icons.go:205-210 | the first line of the written file is the first icon's row, and it splits at the tab into the decimal ID and the URL |
| IconQueue.ReadRecordsRow | pkg/cli/icons.go:175-178 | the reader returns a non-empty two-field line's record in front of the rest |
| IconQueue.ReadEncoded | pkg/cli/icons.go:175-178 | the TSV reader with two fields per record gives back exactly the records the writer wrote, for URLs without tab or newline (also pkg/cli/icons.go:205-217) |
| IconQueue.RowIconsOfFields | pkg/cli/icons.go:182 | parsing the written decimal IDs gives back the icons (also pkg/cli/icons.go:210) |
| IconQueue.CloseLoadRoundTrip | pkg/cli/icons.go:158-227 | a queue written by `Close` is restored by `loadQueue` deduplicated by ID |
| IconQueue.CloseLoadDistinct | pkg/cli/icons.go:158-227 | a queue with distinct IDs is restored exactly |
| IconQueue.Square | pkg/cli/icons.go:360-368 | the canvas is square with side the larger of width and height |
| IconQueue.DrainKeeps | pkg/cli/icons.go:261-263 | a file that exists before the download pass is neither removed nor changed |
| IconQueue.DrainWrites | pkg/cli/icons.go:247-286 | every file the pass creates is the squared image of a queued icon whose download succeeded, at that icon's cover path |
| IconQueue.DrainCovers | pkg/cli/icons.go:247-307 | one failure does not stop the others: every icon whose download and write succeed has its cover afterwards |
| IconQueue.DrainError | pkg/cli/icons.go:295-309 | an error is returned only when some download or write failed; without an error every queued cover is on disk |
| IconQueue.IconCache.constructor | pkg/cli/icons.go:97-102 | an empty cache: no queue, nothing seen, the queue file `queue.txt` under the directory |
| IconQueue.IconCache.New | pkg/cli/icons.go:95-108 | the new cache has nothing seen and `<dir>/queue.txt` as its queue file; an unreadable file gives "read icon queue" and an empty queue; no file gives an empty queue, no error and no change on disk; a parsable file gives its records deduplicated by ID as the queue and is emptied; any other file gives "load queue", an empty queue and no change on disk |
| IconQueue.IconCache.Add | pkg/cli/icons.go:111-128 | the queue and the seen IDs become what `AddBooks` gives |
| IconQueue.IconCache.BookIcon | pkg/cli/icons.go:131-143 | the cover file when it exists, with nothing queued; otherwise the book icon, with the cover queued as `Add` would |
| IconQueue.IconCache.LoadQueue | pkg/cli/icons.go:158-199 | an unreadable queue file is "read icon queue", a missing one changes nothing; a parsable file becomes the queue, deduplicated, and is emptied; an unparsable one is "load queue" and leaves the queue empty |
| IconQueue.IconCache.RestoreRows | pkg/cli/icons.go:181-188 | the loop over the records computes the deduplicated icons |
| IconQueue.IconCache.EncodeRows | pkg/cli/icons.go:209-215 | the writer loop produces the TSV text of the queue |
| IconQueue.IconCache.Close | pkg/cli/icons.go:202-227 | the queue file becomes the TSV of the queue and the queue is emptied; a failed write is "write queue file" and keeps the queue |
| IconQueue.IconCache.DrainLoop | pkg/cli/icons.go:247-307 | the loop computes the download pass `Drain` |
| IconQueue.IconCache.ProcessQueue | pkg/cli/icons.go:230-310 | an empty queue does nothing; otherwise the files and the returned error are the download pass's, and the queue is emptied |
| IconQueue.RestoredIDQueuedTwice | pkg/cli/icons.go:158-199 | IDs restored from the queue file are not marked seen, so a book already in the restored queue is queued a second time (also pkg/cli/icons.go:117) |
| IconQueue.SpinnerIcon | pkg/cli/icons.go:373-377 | RELOAD_PROGRESS becomes `n + 1`, and the icon is spinner `n mod 3`; a negative `n` with a remainder indexes out of range |
| IconQueue.SpinnerCycle | pkg/cli/icons.go:373-377 | from 0 the spinner repeats every three calls and never shows the same frame twice in a row |
| LegacyIcons.AddURLsAppends | icons.go:51-58 | `Add` keeps the old queue as a prefix and appends only URLs given and not seen before |
| LegacyIcons.AddURLsSeen | icons.go:51-58 | afterwards every URL given is seen, and nothing else is added to the seen set |
| LegacyIcons.AddURLsDistinct | icons.go:51-58 | no URL is appended twice |
| LegacyIcons.AddURLsComplete | icons.go:51-58 | every URL given that was not seen before is appended |
| LegacyIcons.QueueLines | icons.go:96-104 | the restored queue holds no empty line |
| LegacyIcons.QueueLinesOf | icons.go:96-104 | non-empty lines without a carriage return at the end are kept as they are |
| LegacyIcons.CloseLoadRoundTrip | icons.go:82-128 | the newline-joined queue written by `Close` is read back by `loadQueue` as the same list, for URLs that are non-empty, hold no newline and do not end in a carriage return |
| LegacyIcons.Square | icons.go:260-268 | the canvas is square with side the larger of width and height |
| LegacyIcons.DrainSpec | icons.go:142-197 | every URL whose download and write succeed has its cover afterwards, no file disappears, and an error is returned only when some download or write failed |
| LegacyIcons.IconCache.constructor | icons.go:36-42 | an empty cache: no queue, nothing seen, the queue file `queue.txt` under the directory |
| LegacyIcons.IconCache.Add | icons.go:51-58 | the queue and the seen URLs become what `AddURLs` gives |
| LegacyIcons.IconCache.BookIcon | icons.go:61-72 | a .png URL gives the book icon before the cache is looked at; else the cover file when it exists; else the book icon with the URL queued |
| LegacyIcons.IconCache.ScanQueue | icons.go:97-104 | the scanner loop computes the non-empty lines of the file, in order |
| LegacyIcons.IconCache.LoadQueue | icons.go:82-117 | an unreadable file is "read icon queue", a missing one changes nothing; otherwise the queue is its non-empty lines, not deduplicated, and the file is emptied |
| LegacyIcons.IconCache.Close | icons.go:120-128 | the queue file becomes the newline-joined queue and the queue is emptied; a failed write is "save queue" and keeps the queue |
| LegacyIcons.IconCache.DrainLoop | icons.go:142-195 | the loop computes the download pass `Drain` |
| LegacyIcons.IconCache.ProcessQueue | icons.go:131-198 | an empty queue does nothing; otherwise the files and the returned error are the download pass's, and the queue is emptied |
| LegacyIcons.SpinnerIcon | icons.go:273-293 | the next RELOAD_PROGRESS is `current + 1`, wrapping to 0 past 2; 0 shows the plain spinner, any other value the spinner rotated by `15 * current` degrees |
| LegacyIcons.SpinnerCycle | icons.go:276-282 | RELOAD_PROGRESS cycles 0, 1, 2, 0, and any value of 2 or more goes back to 0 |
| GrClient.RequestMethod | pkg/gr/http.go:72-83 | GET without an argument, else the first argument upper-cased |
| GrClient.HttpRequest | pkg/gr/http.go:70-103 | the body is returned exactly when the request was built and sent, the status is at most 299 and the body could be read; a status above 299 is an error naming the URL and the status |
| GrClient.MethodCase | pkg/gr/http.go:83 | a "get" request is the same as the default GET |
| GrClient.Pause | pkg/gr/http.go:54-59 | the pause is never negative, at most a second, and zero before any request or when a second has passed |
| GrClient.PauseSpacing | pkg/gr/http.go:54-59 | after the pause the request goes out no earlier than a second after the last one, and exactly then when the last was less than a second ago |
| GrClient.CleanURL | pkg/gr/http.go:105-115 | only a URL that parses and carries a key is changed, and then only its key, to "xxx" |
| GrClient.CleanURLHidesKey | pkg/gr/http.go:105-115 | a cleaned URL carries no key other than "xxx" |
| GrClient.BookDetailsURL | pkg/gr/book.go:23 | the book-details URL is the book endpoint ending in the API key (also pkg/gr/book.go:128) |
| GrClient.SeriesURL | pkg/gr/series.go:18 | the series URL is the series endpoint ending in the API key (also pkg/gr/series.go:39) |
| GrClient.Client.constructor | pkg/gr/goodreads.go:53-58 | a client with the key and secret, no token and no request yet |
| GrClient.Client.New | pkg/gr/goodreads.go:52-69 | a load error is passed on, wrapped, with no client; else the token is set exactly when both stored parts are non-empty |
| GrClient.Client.ApiRequest | pkg/gr/http.go:44-67 | without an authorised client it fails before anything else; otherwise it pauses as `Pause` says, returns what `httpRequest` returns, and records the request time only on success |
| GrClient.Client.HttpGet | pkg/gr/http.go:39-41 | the plain `httpRequest` with GET, with no pause and no record |
| GrClient.Client.Search | pkg/gr/book.go:109-123 | an empty escaped query is `errEmptyQuery` with no request; a success is one search request whose decoded works become the books; for a non-empty query the request time becomes the finish time exactly when the client is authorised and the request is fetched |
| GrClient.Client.BookDetails | pkg/gr/book.go:126-138 | success exactly when authorised, fetched and decoded, giving the decoded book; otherwise the zero book; and the request time becomes the finish time exactly when the client is authorised and the request is fetched |
| GrClient.Client.Series | pkg/gr/series.go:37-49 | success exactly when authorised, fetched and decoded, giving the series with one book per work; otherwise the zero series; and the request time becomes the finish time exactly when the client is authorised and the request is fetched |
| GrClient.Client.AuthorBooks | pkg/gr/book.go:278-296 | never `errEmptyQuery`; success exactly when authorised, fetched and decoded, giving the page's books and page data; an error gives no books and the zero page data; and the request time becomes the finish time exactly when the client is authorised and the request is fetched |
| GrClient.Client.UserShelf | pkg/gr/shelf.go:62-78 | success exactly when authorised, fetched and decoded, giving the page's books and page data; an error gives none; and the request time becomes the finish time exactly when the client is authorised and the request is fetched |
| GrClient.Client.UserShelves | pkg/gr/shelf.go:156-182 | success exactly when authorised, fetched and decoded, giving the listed shelves each with its web page; an error gives none; and the request time becomes the finish time exactly when the client is authorised and the request is fetched |
| GrClient.Client.AddToShelves | pkg/gr/shelf.go:224-238 | succeeds exactly when the POST with the comma-joined names succeeds; the request time becomes the finish time exactly on success and is kept otherwise |
| GrClient.Client.AddRemoveShelf | pkg/gr/shelf.go:256-273 | succeeds exactly when the add or remove POST succeeds; the request time becomes the finish time exactly on success and is kept otherwise |
| GrClient.Client.AddToShelf | pkg/gr/shelf.go:241-246 | the add POST, with its error wrapped as "add to shelf"; the request time becomes the finish time exactly on success |
| GrClient.Client.RemoveFromShelf | pkg/gr/shelf.go:249-254 | the remove POST, with its error wrapped as "remove from shelf"; the request time becomes the finish time exactly on success |
| GrClient.Client.FetchFeed | pkg/gr/feed.go:40-56 | the feed is fetched by the plain client; success exactly when fetched and decoded, giving the named feed with one book per item |
| GrClient.FirstRequestNoPause | pkg/gr/http.go:54-55 | a new client's first API request does not wait |
| GrClient.AuthorURLNeverEmpty | pkg/gr/book.go:286-289 | the author URL is never empty, so the empty-query branch of `AuthorBooks` cannot be taken (also pkg/gr/book.go:298-303) |
| Janitor.CacheTree.constructor | pkg/cli/cache.go:187-212 | a cache tree with the given paths, unreadable and locked paths |
| Janitor.StalePathsMembers | pkg/cli/cache.go:196-203 | a path is stale exactly when some visit of the walk is a stale cached query or cover at that path |
| Janitor.CleanFilesRemovesOnlyStale | pkg/cli/cache.go:187-213 | the file pass removes nothing but stale `.json` and `.png` files it visited, and no directory |
| Janitor.CleanFilesComplete | pkg/cli/cache.go:187-213 | a pass without error records every directory in walk order and leaves no stale file it visited |
| Janitor.CleanFilesError | pkg/cli/cache.go:189-191 | a pass stops only at a visit the walk reported as failed or at a stale file that could not be removed (also pkg/cli/cache.go:205-207) |
| Janitor.InsertDesc | pkg/cli/cache.go:163 | inserting keeps the list sorted by decreasing path and adds exactly the one directory |
| Janitor.LessAsymmetricAll | pkg/cli/cache.go:142 | a directory not below the head of a sorted list can lead it |
| Janitor.LessNotBefore | pkg/cli/cache.go:142 | a head that sorts above the inserted directory stays in front |
| Janitor.SortDesc | pkg/cli/cache.go:163 | `sort.Reverse` of the paths gives a permutation sorted by decreasing path |
| Janitor.ChildBeforeParent | pkg/cli/cache.go:163-164 | in that order every directory comes after everything inside it |
| Janitor.CleanDirsSafe | pkg/cli/cache.go:162-185 | the directory pass never removes the root, a directory modified less than 72 hours ago, or one with anything left under it |
| Janitor.DirCleaner.constructor | pkg/cli/cache.go:145-149 | a cleaner with its root and age limit and no directories yet |
| Janitor.DirCleaner.AddDir | pkg/cli/cache.go:151-153 | the directory is appended to those recorded |
| Janitor.DirCleaner.CleanFilesPass | pkg/cli/cache.go:187-213 | the recorded directories, the paths left and the error are those of the file pass |
| Janitor.DirCleaner.DirsLoop | pkg/cli/cache.go:164-184 | the loop computes the directory pass |
| Janitor.DirCleaner.CleanDirsPass | pkg/cli/cache.go:162-185 | the directories are sorted by decreasing path and then cleaned as the directory pass says |
| Janitor.DirCleaner.Clean | pkg/cli/cache.go:155-160 | the file pass, then the directory pass only when the file pass ended without error |
| Janitor.CleanSafe | pkg/cli/cache.go:155-213 | a whole clean removes only stale files it visited and old empty directories other than the root, and one without error leaves no stale file |
| Janitor.IconsMaxAgeBounds | pkg/cli/cache.go:103-107 | the jittered cover age lies between the configured age minus 72 hours and the configured age minus one hour |
| Janitor.OtherCaches | pkg/cli/cache.go:115-116 | authors and books are cleaned with the default age and queries with the search age |
| Janitor.FailedFeedSkipped | pkg/cli/cache.go:64-68 | a feed that fails to fetch adds nothing to the queue |
| Janitor.RunFeeds | pkg/cli/cache.go:39-78 | nothing without cached shelves or a user; otherwise every shelf's feed is added, and a non-empty queue is saved and the icon job started, or the write error returned |
| JsonCache.SendTime | pkg/cli/search.go:71-80 | the send time is the later of `now` and a second after the last request: at or after both, and equal to one of them |
| JsonCache.Throttle | pkg/cli/search.go:71-80 | the request goes out at `now`, or exactly a second after the last request when that was less than a second ago, that is at `SendTime` |
| JsonCache.LoadOrStore | pkg/cli/search.go:69-89 | a fresh entry is returned with no request; otherwise a failure is passed on, and a success is stored under the key stamped with the time the file is written, the new `LAST_REQUEST` being exactly the throttled send time `SendTime(last, now)` |
| JsonCache.StoredIsFresh | pkg/cli/search.go:85 | a value just stored is fresh and reads back as itself |
| Paging.PageCountCeiling | pkg/cli/author.go:124-133 | for a positive total the page count is the ceiling of the capped total over the page size |
| Paging.LoopStep | pkg/cli/author.go:109-140 | one answered page is requested, then the loop goes on from the next state |
| Paging.NextOf | pkg/cli/author.go:119-139 | after an answered page the count is worked out if still 0, the items appended, the total and the request time recorded, and a partial store made when partial results are stored |
| Paging.ThenStep | pkg/cli/author.go:109-140 | moving one page from what is left to what was done keeps the whole run |
| Paging.Advance | pkg/cli/author.go:121-139 | the loop body keeps the run that the loop will make |
| Paging.ThenDone | pkg/cli/author.go:110-112 | once the count is reached the loop ends with one final store of everything fetched (also pkg/cli/author.go:142) |
| Paging.ThenExhausted | pkg/cli/author.go:109 | a bounded loop that runs out of steps stores nothing more |
| Paging.ThenFailed | pkg/cli/author.go:121-122 | a failed page ends the job after its request, with no final store |
| Paging.RunLoop | pkg/cli/author.go:109-142 | the loop computes `Loop` |
| Paging.FetchPages | pkg/cli/author.go:93-142 | the job starts at page 1 with no count and stores partial results only when nothing was cached |
| Paging.LoopSpacing | pkg/cli/author.go:114-119 | requests go out at least a second apart, the first at least a second after any earlier one |
| Paging.LoopPages | pkg/cli/author.go:121 | pages are requested in order from the current page, one request each (also pkg/cli/author.go:139) |
| Paging.LoopFinishes | pkg/cli/author.go:109-142 | once the count is known and every page answers, exactly the pages up to the count are requested and the final store holds all their items in page order |
| Paging.JobFinishes | pkg/cli/author.go:93-142 | when the first page reports a positive total, exactly `PageCount` pages are requested and the final store holds them all in page order |
| Paging.LoopNeverEnds | pkg/cli/author.go:124-133 | while every page reports a total of 0 or less the count stays non-positive and the loop never reaches its exit (also pkg/cli/author.go:110-112) |
| Paging.LoopFailure | pkg/cli/author.go:121-122 | a failed page ends the job with only the partial stores of the pages before it (also pkg/cli/author.go:135-137) |
| Paging.CacheAuthorList | pkg/cli/author.go:85-143 | nothing without authorisation; else the job with 30 books a page, the count capped by `MaxBooks` |
| Paging.CacheShelf | pkg/cli/shelves.go:392-445 | nothing without authorisation; else the job with 50 books a page, and each shelf written has the given ID and name, the books so far and the latest total as its size |
| Paging.CacheShelfFinishes | pkg/cli/shelves.go:402-445 | when every page arrives, the last shelf written has the given ID and name and all the books in page order |
| Paging.CacheShelves | pkg/cli/shelves.go:448-497 | nothing without authorisation; else the job with 15 shelves a page |
| Paging.JobPageCounts | pkg/cli/author.go:124-133 | the ceilings of the three jobs' page counts: 30 books a page up to `MaxBooks`, 50 books or 15 shelves a page |
| ShelfCommands.CleanBooks | pkg/cli/shelves.go:268-272 | the loop keeps exactly the books whose ID is not the removed one, in order |
| ShelfCommands.CleanedBooks | pkg/cli/shelves.go:268-272 | a book is kept exactly when it was on the shelf with another ID; cleaning distributes over concatenation and leaves a list without the book unchanged |
| ShelfCommands.RemovedText | pkg/cli/shelves.go:249-253 | the notification names the shelf's title, or the query when the title is empty |
| ShelfCommands.RemoveFromShelf | pkg/cli/shelves.go:238-277 | nothing when unauthorised; an API error is fatal; otherwise the notice, and the cached shelf rewritten without the book, with a missing entry left alone and an undecodable entry or a failed write fatal |
| ShelfCommands.CleanedCacheTouchesOnlyTheShelf | pkg/cli/shelves.go:256-276 | only the shelf's own entry changes, and it keeps every field, its size included, but loses exactly the books with that ID |
| ShelfCommands.BySelectionIsStableSort | pkg/cli/shelves.go:505-511 | the result of `sort.Stable(bySelection)` is sorted, a permutation of its input, and keeps each group in input order (also pkg/cli/shelves.go:543) |
| ShelfCommands.BySelectionSorted | pkg/cli/shelves.go:505-511 | no selected shelf precedes an unselected one (also pkg/cli/shelves.go:543) |
| ShelfCommands.BySelectionStable | pkg/cli/shelves.go:543 | the selected and the unselected shelves each keep their input order |
| ShelfCommands.FilterNone | pkg/cli/shelves.go:516-519 | filtering with a test nothing passes keeps nothing |
| ShelfCommands.SortedIsBySelection | pkg/cli/shelves.go:543 | a list already sorted by `bySelection` is left as it is, so any stable sort gives the same order |
| ShelfCommands.SelectShelves | pkg/cli/shelves.go:534-545 | every shelf is marked from its `shelf_<name>` variable, the selected names are returned in input order, and the array is reordered stably with unselected shelves first |
| ShelfCommands.MarkStep | pkg/cli/shelves.go:535-541 | one step of the marking loop marks the next shelf and adds its name exactly when it is selected |
| ShelfCommands.MarkAll | pkg/cli/shelves.go:535-542 | the loop marks every shelf in place and collects the names of the selected ones |
| ShelfCommands.BySelectionOf | pkg/cli/shelves.go:543 | the two groups built by appending are the stable order, with no shelf lost |
| ShelfCommands.SelectedNames | pkg/cli/shelves.go:536-541 | a shelf is selected exactly when its variable reads true, and then its name is returned |
| ShelfCommands.NamesAreSelected | pkg/cli/shelves.go:536-541 | every name returned belongs to a shelf whose variable reads true |
| ShelfCommands.FilterShelves | pkg/cli/shelves.go:514-532 | the matched unselected shelves in the matcher's order, then the matched selected ones |
| ShelfCommands.GroupMembers | pkg/cli/shelves.go:517-525 | a group holds exactly the matched shelves of its selection |
| ShelfCommands.FilteredShelves | pkg/cli/shelves.go:514-532 | the filtered list holds every matched shelf and nothing else, and no selected shelf comes before an unselected one |
| ShelfCommands.ToggleValue | pkg/cli/shelves.go:302-307 | "false" exactly when the shelf is currently selected |
| ShelfCommands.ToggleFlips | pkg/cli/shelves.go:299-311 | toggling writes the variable `selectShelves` reads, and reading it back gives the opposite selection (also pkg/cli/shelves.go:536) |
| ShelfCommands.AddPrompt | pkg/cli/shelves.go:344-349 | the prompt is "Add to 1 shelf" exactly when one shelf is selected |
| ShelfCommands.SaveAction | pkg/cli/shelves.go:339-341 | a save action is offered exactly when some shelf is selected, with the arguments `-add` and the selected names (also pkg/cli/shelves.go:369-379) |
| ShelfCommands.AddedText | pkg/cli/shelves.go:222-225 | the confirmation says "Added to 1 shelf" exactly when there was at most one argument |
| ShelfCommands.AddToShelves | pkg/cli/shelves.go:211-235 | nothing when unauthorised; an API error is fatal; otherwise exactly the notification variables and an emptied `shelf_<name>` for every shelf added to |
| ShelfCommands.PrefixedKeyDiffers | pkg/cli/shelves.go:227-232 | a selection variable never overwrites the notification variables |
| ShelfCommands.AddedDeselects | pkg/cli/shelves.go:231-233 | after adding, every shelf added to reads as unselected (also pkg/cli/shelves.go:536) |
| SearchCommand.DigestHasNoExt | pkg/cli/icons.go:312-313 | a hex digest has no extension, so `cachefile` adds none for it |
| SearchCommand.SearchKeyLayout | pkg/cli/search.go:70 | the key is the digest of the query's digest under two shard directories with `.json`, and two queries share a key only when those digests agree (also pkg/cli/icons.go:312-317) |
| SearchCommand.CachingSearch | pkg/cli/search.go:69-89 | a fresh cached result is returned with no request; otherwise a failed search is passed on and a successful one stored under the query's key, the new `LAST_REQUEST` being exactly `SendTime`, the later of now and a second after the last request |
| SearchCommand.SubtitleParts | pkg/cli/search.go:93-102 | the subtitle starts with the author, has the year in brackets exactly when the date is set, ends with the two-decimal rating exactly when the book is rated, and is the bare name with neither |
| SearchCommand.PartsNonEmpty | pkg/cli/search.go:95-100 | the year part is empty exactly for the zero date, the rating part exactly for a zero rating |
| SearchCommand.Pieces | pkg/cli/search.go:102 | where the three parts of the subtitle sit |
| SearchCommand.ItemFields | pkg/cli/search.go:104-119 | the match text is the title, a space and the author, and large type is present exactly when there is a description |
| SearchCommand.RunSearch | pkg/cli/search.go:19-67 | unauthorised gives only the authorise item; a short query only "Query Too Short" with no search; otherwise one item per cached or fetched result, in order, a fetch setting `LAST_REQUEST` to `SendTime`; a failed search panics |
| ScriptCommands.LowerExt | pkg/cli/scripts.go:136 | the lower-cased extension is no longer than the file name |
| ScriptCommands.NameOf | pkg/cli/scripts.go:137 | the name is the file name with its extension cut off the end |
| ScriptCommands.KindOf | pkg/cli/scripts.go:139-143 | a file is an icon exactly when its extension is an image extension, and a script exactly when it is not and can be run |
| ScriptCommands.ScanPrefixStep | pkg/cli/scripts.go:132-144 | visiting one more file of a directory is one more registration |
| ScriptCommands.Listing | pkg/cli/scripts.go:126-132 | an unreadable directory lists nothing, a readable one each of its files, in order, under that directory |
| ScriptCommands.ScanLatest | pkg/cli/scripts.go:139-143 | a name is registered as a script or an icon exactly when some file of that kind has it, holding the path of the last such file |
| ScriptCommands.RegisterStep | pkg/cli/scripts.go:139-143 | one file registers only its own name in its own map, and leaves every other entry alone |
| ScriptCommands.LoadScripts | pkg/cli/scripts.go:119-164 | the scripts are the merge of every file of the built-in and then the user directory, in that order |
| ScriptCommands.TwoListings | pkg/cli/scripts.go:125 | the built-in directory is scanned before the user's |
| ScriptCommands.ScanDirs | pkg/cli/scripts.go:125-145 | the outer loop registers the files of all directories in turn |
| ScriptCommands.ScanListing | pkg/cli/scripts.go:126-131 | an unreadable directory is skipped and a readable one scanned |
| ScriptCommands.ScanDir | pkg/cli/scripts.go:132-144 | the inner loop registers the files of one directory in order |
| ScriptCommands.MergeLoop | pkg/cli/scripts.go:152-157 | every script found becomes a `Script` with its name, its path and its icon, or the generic icon |
| ScriptCommands.LoadedScripts | pkg/cli/scripts.go:119-164 | a script exists exactly when a runnable non-image file has its name; it holds the last such file's path, and the last image of its name as icon, or the generic icon when there is none |
| ScriptCommands.RegistersMeans | pkg/cli/scripts.go:26-32 | what registering as icon or as script means, in terms of extension, `CanRun` and name (also pkg/cli/scripts.go:136-143) |
| ScriptCommands.UserOverrides | pkg/cli/scripts.go:125 | a runnable user script replaces a built-in script of the same name (also pkg/cli/scripts.go:141-142) |
| ScriptCommands.LaterListingWins | pkg/cli/scripts.go:142 | a name registered in a later listing takes its path from that listing |
| ScriptCommands.ScriptOrder | pkg/cli/scripts.go:114-116 | the merged scripts carry their keys as names, so ordering by name is strict and total on them (also pkg/cli/scripts.go:156) |
| ScriptCommands.VarNamerInjective | pkg/cli/scripts.go:193-197 | no two book variables share a name |
| ScriptCommands.VarNameInjective | pkg/cli/scripts.go:194-196 | a variable's name determines its data key and its variant |
| ScriptCommands.VarNames | pkg/cli/scripts.go:194-196 | the three names are the key, the key with `_QUOTED` and the key with `_QUOTED_PLUS` |
| ScriptCommands.VariablesOf | pkg/cli/scripts.go:193-197 | each data key gives its raw value, its path-escaped value under `_QUOTED` and its query-escaped value under `_QUOTED_PLUS` |
| ScriptCommands.VariablesOnly | pkg/cli/scripts.go:191-198 | there are no variables other than those of the data keys |
| ScriptCommands.VariablesUnique | pkg/cli/scripts.go:191-198 | the variables of a book's data are one map, whatever order the loop visits the keys in |
| ScriptCommands.BookVariables | pkg/cli/scripts.go:191-199 | the loop builds exactly the variables of the book's data |
| ScriptCommands.VariablesAdd | pkg/cli/scripts.go:194-196 | one step adds exactly its key's three variables |
| ScriptCommands.BookDetails | pkg/cli/scripts.go:167-189 | a fresh cached book is returned with no request; otherwise a failed fetch gives the zero book and "book details: ..." and a successful one is stored under `books/<id path>`, the new `LAST_REQUEST` being exactly `SendTime`, the later of now and a second after the last request |
| ScriptCommands.RunScript | pkg/cli/scripts.go:74-101 | an unknown name notifies "Unknown Script" with the query, exactly; a failed detail fetch is fatal; otherwise the script runs in the environment, with the book's variables added when details are exported |
| Options.AtLeast | pkg/cli/options.go:204-206 | a setting below its minimum is raised to it, one at or above is kept |
| Options.ClampCache | pkg/cli/options.go:207-221 | every cache age ends at least three minutes, and an age already that long is kept |
| Options.SplitTokens | pkg/cli/options.go:235-236 | the Keychain item yields a token pair exactly when it holds a space |
| Options.SplitHasParts | pkg/cli/options.go:235-236 | `strings.Split` at the space gives at least two parts exactly when there is a space, so `parts[1]` exists exactly then |
| Options.TokensRoundTrip | pkg/cli/options.go:235-236 | splitting the item that `keychainStore.Save` joined with one space gives back the token and the secret (also pkg/cli/cli.go:129-136) |
| Options.NoSeparator | pkg/cli/options.go:235 | a string without a space splits into itself alone |
| Options.LookupTokens | pkg/cli/options.go:231-243 | a set token is kept with nothing exported; otherwise a found item sets and exports both parts, a missing item exports the empty token, a Keychain failure is an error, and an item without a space panics on `parts[1]` |
| Options.SavedTokensLoad | pkg/cli/options.go:231-243 | a pair saved to the Keychain is what `Prepare` loads (also pkg/cli/cli.go:129-136) |
| Options.Settings.constructor | pkg/cli/options.go:29-40 | the defaults: 100 books per author and the five cache ages, everything else empty |
| Options.Settings.EmptyIsTooShort | pkg/cli/options.go:129-134 | an empty query is too short whenever a minimum applies |
| Options.Settings.Prepare | pkg/cli/options.go:139-252 | the trimmed first argument becomes the query, the settings are raised to their minimums, the tokens are looked up when unset, and `LastRequest` is parsed; the first failure ends it and what was set before stays, except that a failed parse leaves the zero time |
| Options.Settings.Normalise | pkg/cli/options.go:197-229 | the query, the minimums, the two-byte default query length and the default script "View Book Online" |
| Options.ParsedLastRequest | pkg/cli/options.go:245-249 | an empty setting keeps the parsed time, an unparsable one is the error "parse LastRequest", a parsable one gives its time |
| Options.PreparedWithinMinimums | pkg/cli/options.go:203-225 | after `Prepare` the minimums hold and raising again changes nothing |
| Modifiers.IndexOfEquals | pkg/cli/modifiers.go:65 | `strings.Index` gives -1 exactly when there is no `=`, and otherwise the position of the first one |
| Modifiers.EnvEntryOf | pkg/cli/modifiers.go:63-70 | an entry is skipped exactly when it has no `=` or only a final one; otherwise it is the key without `=`, the `=`, and a non-empty value |
| Modifiers.EnvEntryRoundTrip | pkg/cli/modifiers.go:65-69 | an entry written as `key=value` is read back as that pair when the key has no `=` and the value is not empty |
| Modifiers.PutOther | pkg/cli/modifiers.go:69 | an entry that sets another key leaves this one as it was |
| Modifiers.EnvMapLatest | pkg/cli/modifiers.go:62-72 | a key is in the map exactly when some entry sets it, and holds the value of the last such entry |
| Modifiers.ParseEnv | pkg/cli/modifiers.go:62-72 | the loop over the environment builds exactly that map |
| Modifiers.ModKeysValid | pkg/cli/modifiers.go:15-22 | a key is kept exactly when it is one of the six modifiers and one of the lower-cased `_`-separated parts (also pkg/cli/modifiers.go:87-91) |
| Modifiers.CollectedSkip | pkg/cli/modifiers.go:83-99 | an entry that is not an `ACTION_` hotkey with valid keys and a known script adds nothing |
| Modifiers.CollectedAdd | pkg/cli/modifiers.go:101-102 | a selected entry adds its keys and its script |
| Modifiers.LoadModifiers | pkg/cli/modifiers.go:75-105 | exactly the `ACTION_` variables other than `ACTION_DEFAULT` that name a valid key and a known script give a modifier, each once, with its keys and that script |
| Modifiers.ActionKeys | pkg/cli/modifiers.go:86-91 | the keys come from the name after `ACTION_` |
| Modifiers.ModifierKeys | pkg/cli/modifiers.go:87-91 | the inner loop keeps the valid parts of the lower-cased name, in order |
| LegacyModifiers.NewModifier | modifiers.go:74-88 | no valid key is the error "invalid modifiers: " with the key; otherwise the `NAME_` variable, the keys and the template |
| LegacyModifiers.LoadModifiers | modifiers.go:43-63 | the loop keeps, in environment order, the modifier of every `URL_` entry with a non-empty template and a valid key |
| LegacyModifiers.LoadedModifiersValid | modifiers.go:43-88 | every loaded modifier has at least one key, only valid keys, and a non-empty template |
| LegacyModifiers.URLEntry | modifiers.go:46-55 | `URL_<keys>=<template>` gives a modifier exactly when the keys name a valid modifier, and then with the `NAME_` name, those keys and that template (also modifiers.go:74-88) |
| LegacyModifiers.Lookup | modifiers.go:23-25 | a name in the data reads as its value, one not in the data as "" |
| LegacyModifiers.VariantOfDataName | modifiers.go:31-33 | the ending of a template variable's name tells its variant |
| LegacyModifiers.SameDataName | modifiers.go:31-33 | two template variables with the same name come from the same field and variant |
| LegacyModifiers.DataNamerInjective | modifiers.go:30-34 | no two template variables share a name |
| LegacyModifiers.TemplateData | modifiers.go:29-34 | the loop builds exactly the template variables of the book's data |
| LegacyModifiers.For | modifiers.go:28-36 | the modifier's keys, and its template expanded with the book's template variables |
| LegacyModifiers.TemplateVariables | modifiers.go:31-33 | each field gives `<Field>` query-escaped, `<Field>Alt` path-escaped and `<Field>Raw` as it is |
| LegacyModifiers.TemplateOthersEmpty | modifiers.go:23-35 | any other name in a template expands to "" |
| LegacyGoodreads.AuthorEq | goodreads.go:54-68 | two authors compare equal exactly when their ID, name and URL all agree |
| LegacyGoodreads.BookEq | goodreads.go:98-132 | two books compare equal exactly when every field agrees, the zero date matching only itself |
| LegacyGoodreads.BookEqZeroDate | goodreads.go:110-112 | a book with a date never equals one without |
| LegacyGoodreads.FieldNameInjective | goodreads.go:137-149 | the eleven data names are distinct |
| LegacyGoodreads.AllFieldsComplete | goodreads.go:137-149 | the data holds all eleven fields |
| LegacyGoodreads.TrimSeriesPrefix | goodreads.go:332-342 | removing the series only cuts the end off a title |
| LegacyGoodreads.DataFields | goodreads.go:135-150 | every field is present; the title without series begins the title and is the title when the pattern does not match; the two author-and-title fields join the name and the title with one space |
| LegacyGoodreads.URLForQuery | goodreads.go:152-157 | no URL exactly for an empty query, otherwise the search URL with the key and then the query |
| LegacyGoodreads.URLForQueryInjective | goodreads.go:152-157 | with one key, different queries give different URLs |
| LegacyGoodreads.URLForAuthor | goodreads.go:159-164 | an author URL is never empty |
| LegacyGoodreads.URLForAuthorPages | goodreads.go:159-164 | page 0 is the URL of page 1, and other page numbers give different URLs |
| LegacyGoodreads.WorkBook | goodreads.go:247-267 | a search result keeps the record's ID, title, rating and image, and gets the book and author URLs built from their IDs |
| LegacyGoodreads.WorkBookAsCurrent | goodreads.go:247-267 | the first version and the current package read a search record into the same field values (also pkg/gr/book.go:236-260) |
| LegacyGoodreads.UnmarshalSearchResults | goodreads.go:229-271 | one book per record, in order |
| LegacyGoodreads.ListedBook | goodreads.go:302-326 | an author-list book keeps its ID and title, gets its URL from its ID, and takes the first listed author with that author's URL, or the zero author when none is listed |
| LegacyGoodreads.UnmarshalAuthorBooks | goodreads.go:273-330 | the list's start, end and total, and one book per record, in order |
| LegacyGoodreads.Answer | goodreads.go:177-190 | a transport error, a status above 299 and a decoding error are each passed on, and only a decoded answer gives a result (also goodreads.go:213-226) |
| LegacyGoodreads.Search | goodreads.go:166-191 | an empty escaped query is `errEmptyQuery` and sends nothing; otherwise exactly one request, to the query URL, whose answer is read into books |
| LegacyGoodreads.AuthorBooksPages | goodreads.go:199-227 | page 0 is page 1; the request fails exactly on a transport error, a status above 299 or a decoding error, and otherwise gives the page's books and paging attributes |
| LegacyMain.APIKeyOf | main.go:540-550 | a configured key is kept; otherwise the Keychain's key is used when found, and the key stays empty when it is missing or the lookup fails |
| LegacyMain.KeychainLog | main.go:543-546 | one line is logged exactly when the key is unset and the lookup fails for a reason other than a missing item |
| LegacyMain.ParsedLastRequest | main.go:551-555 | an empty setting keeps the parsed time; otherwise the parsed time, the zero time when it does not parse |
| LegacyMain.ParseLog | main.go:551-555 | one line is logged exactly when a non-empty setting does not parse |
| LegacyMain.APIKeyStable | main.go:540-550 | once set, the key is kept on the next run, whatever the Keychain says |
| LegacyMain.Settings.constructor | main.go:62-66 | 100 books per author, a day's cache age and the zero time (also main.go:39) |
| LegacyMain.Settings.PrepareOpts | main.go:516-556 | the trimmed first argument becomes the query, the book count, the cache age and the query length are raised to their minimums, the key is read from the Keychain when unset, and `LastRequest` is parsed; failures are only logged |
| LegacyMain.Settings.Normalise | main.go:524-538 | the query and the minimums: 30 books, one minute, a query length of 3 when unset |
| LegacyMain.Settings.LoadAPIKey | main.go:540-550 | the Keychain step, with what it logs |
| LegacyMain.Settings.ParseLastRequest | main.go:551-555 | the `LastRequest` step, with what it logs |
| LegacyMain.QueryTooShortIgnoresMinimum | main.go:104-107 | as written, the minimum makes no difference: a query is too short exactly when it is blank |
| LegacyMain.ShortQueryExample | main.go:104-107 | "ab" with the default minimum of 3 is searched as written, but too short by the setting (also main.go:536-538) |
| LegacyMain.QueryTooShortMonotone | main.go:104-107 | with the intended test a blank query is too short whenever a minimum applies, and a larger minimum rejects more (also main.go:73) |
| LegacyMain.DispatchFirst | main.go:564-607 | `run` runs the sub-command of the first raised flag in its order, and the search exactly when no flag is raised |
| LegacyMain.DelKeyAsWritten | main.go:119-120 | as written, `-delkey` runs the save-key command and no command line reaches the delete-key command (also main.go:579-587) |
| LegacyMain.BindingRoundTrip | main.go:113-121 | with each flag under its own name, a flag's name raises exactly that flag and runs its command |
| LegacyMain.AuthorPageOf | main.go:237 | a page of the loop fails exactly when `authorBooks` fails, and otherwise holds its books and paging data |
| LegacyMain.CacheBookList | main.go:203-265 | the key is `authors/` and the sharded double hash of the ID; the run is the page loop over 30-book pages capped at the book count, storing partial results when nothing was cached |
| LegacyMain.BookListPageCount | main.go:241-251 | a positive total gives enough 30-book pages for the capped total and no more |
| LegacyMain.RunAuthor | main.go:267-293 | the first `runAuthor` makes the decisions of `AuthorCommand.AuthorStart` under the author's doubly hashed key and the single cache age limit |
| LegacyMain.IconsStep | main.go:344-358 | queued covers start the download job exactly when they are saved and the job is not running; the script re-runs when asked before, while the job runs, or once the job started; one error line is logged for a failed save or a failed start (also main.go:700-714) |
| LegacyMain.StaleThresholds | main.go:450-475 | a file is deleted exactly when it is not a directory and is a `.json` file older than the cache age or a `.png` file older than 28 days |
| LegacyMain.Clean | main.go:450-475 | the walk removes the stale files and stops at the first failed visit or failed removal (also main.go:481) |
| LegacyMain.RunCheck | main.go:477-495 | the query cache and the cover cache are each cleaned, and each error is logged without stopping the other walk |
| LegacyMain.CleanRemovesOnlyStale | main.go:450-475 | only visited stale files are removed, and a walk without error leaves none of them |
| LegacyMain.KeysApart | main.go:207 | an author list and a search never share a cache key (also main.go:719) |
| LegacyMain.CachingSearchAsWritten | main.go:718-738 | as written, the entry is judged against the constant day of `maxCacheAge`, whatever the setting; a fetch sets `LAST_REQUEST` to `SendTime` |
| LegacyMain.CachingSearch | main.go:718-738 | a result younger than the configured age comes from the cache with no request; an older one is fetched, a failure passed on, a success stored under the query's key, the new `LAST_REQUEST` being exactly `SendTime`, the later of now and a second after the last request (also main.go:71) |
| LegacyMain.ConfiguredAgeIgnored | main.go:734 | a result older than a shorter configured age but younger than a day is served as written, and fetched again by the setting (also main.go:71) |
| LegacyMain.ExpiredMonotone | main.go:734 | a longer age never expires an entry that a shorter age keeps |
| LegacyMain.ItemOf | main.go:651-669 | an item shows the title, "author (year) ⭑ rating" with two decimals, opens the book URL, has the ID as UID, and passes the book's and the author's ID and name on |
| LegacyMain.ItemUIDs | main.go:664 | different books have different UIDs |
| LegacyMain.Search | main.go:629-716 | the intended search: no API key gives only the warning item; a query shorter than `MinQueryLength` ends the run with nothing; otherwise one item per cached or fetched result, the cache judged by the configured age, a fetch setting `LAST_REQUEST` to `SendTime`, a failed search being fatal |
| LegacyMain.SearchAsWritten | main.go:629-716 | the search as written: no API key gives only the warning item; only an empty trimmed query ends the run; otherwise one item per result cached within 24 hours or fetched, a fetch setting `LAST_REQUEST` to `SendTime`, a failed search being fatal |
| WorkflowVars.DeletedNotCleared | vars.py:25-27 | no variable is both deleted and cleared, since `ACTION_` and `USER_` exclude each other (also vars.py:51-61) |
| WorkflowVars.SaveAddRoundTrip | vars.py:40-79 | writing the saved variables back into the stripped plist gives the original variables |
| WorkflowVars.SaveIdempotent | vars.py:40-67 | after a save there is nothing left to save, and saving again changes nothing |
| WorkflowVars.SavedVariables | vars.py:44-61 | exactly the non-empty, non-whitelisted `ACTION_` and `USER_` variables are saved; the `ACTION_` ones leave the plist, the `USER_` ones stay emptied, all others are unchanged |
| WorkflowVars.SaveDelete | vars.py:51-55 | visiting a deletable variable records it and removes it from the plist's copy |
| WorkflowVars.SaveClear | vars.py:57-61 | visiting a clearable variable records it and empties it in the plist's copy |
| WorkflowVars.SaveFinish | vars.py:63-67 | once every variable is visited the recorded and the stripped variables are those of the whole plist, and with nothing recorded the plist is as it was |
| WorkflowVars.Files.constructor | vars.py:22-23 | the two files: the plist's variables and vars.json, if it exists |
| WorkflowVars.Files.SaveVars | vars.py:40-67 | the saved variables are returned; when there are any, vars.json holds them and the plist is stripped, and otherwise neither file changes |
| WorkflowVars.Files.AddVars | vars.py:70-79 | every variable of vars.json is written into the plist; a missing vars.json is an error that changes nothing |
| WorkflowVars.Files.Run | vars.py:104-110 | `--save` saves, anything else adds back |
| WorkflowVars.Files.SaveThenAdd | vars.py:40-79 | a save followed by an add restores the original plist whenever there was something to save |
| Strings.Index | pkg/cli/modifiers.go:65 | `strings.Index`: -1 exactly when the pattern does not occur, otherwise its first position |
| Strings.ReplaceAll | pkg/gr/text.go:52 | `strings.Replace(s, old, new, -1)` leaves a string without the pattern unchanged (also pkg/gr/text.go:82-85) |
| Strings.ReplaceCharRemovesIt | pkg/gr/text.go:85 | replacing every occurrence of a character by text without it leaves none |
| Strings.Split | pkg/cli/options.go:235 | `strings.Split` at one character gives at least one part, none of which holds the separator (also pkg/cli/modifiers.go:87) |
| Strings.SplitJoin | pkg/cli/options.go:235 | splitting undoes joining when no part holds the separator |
| Strings.SplitAfter | pkg/cli/options.go:235 | splitting at the first separator peels off the part before it |
| Strings.TrimLeft | pkg/cli/options.go:199 | the leading white space is dropped, and only that |
| Strings.TrimRight | pkg/cli/options.go:199 | the trailing white space is dropped, and only that |
| Strings.TrimSpaceSpec | pkg/cli/options.go:129 | `strings.TrimSpace` keeps a contiguous middle part and drops only white space around it (also pkg/cli/options.go:133, pkg/cli/options.go:199) |
| Strings.TrimSpaceEnds | pkg/cli/options.go:199 | a trimmed string neither starts nor ends with white space |
| Strings.TrimSpaceIdempotent | pkg/cli/options.go:129 | trimming twice is trimming once (also pkg/cli/options.go:199) |
| Strings.TrimSpaceKeeps | pkg/cli/options.go:199 | a string without white space at its ends is its own trimming |
| Strings.TrimSpaceEmpty | pkg/cli/options.go:129 | a string trims to "" exactly when it is all white space |
| Strings.ToLower | pkg/cli/modifiers.go:87 | every character is mapped to lower case, position by position (also pkg/cli/scripts.go:136) |
| Strings.ToUpper | pkg/gr/http.go:83 | every character is mapped to upper case, position by position |
| Strings.ByteLen | pkg/cli/options.go:133 | Go's `len` counts between one and four bytes a character |
| Strings.ByteLenAscii | pkg/cli/options.go:133 | an ASCII string has one byte a character |
| Strings.Ext | pkg/cli/scripts.go:136 | `filepath.Ext` is a suffix of the path, empty or a `.` with no further `.` or `/` (also pkg/cli/icons.go:114, pkg/cli/icons.go:313) |
| Strings.Base | pkg/gr/feed.go:34 | `path.Base` never returns "" |
| Strings.LastElementOf | pkg/gr/feed.go:34 | the last element of `p/x` is `x` |
| Strings.BaseOf | pkg/gr/feed.go:34 | `path.Base` of `p/x` is `x` for a non-empty element without `/` |
| Strings.LessIrreflexive | pkg/gr/shelf.go:59 | no string sorts before itself (also pkg/cli/scripts.go:116) |
| Strings.LessTransitive | pkg/gr/shelf.go:59 | Go's string order is transitive (also pkg/cli/scripts.go:116) |
| Strings.LessTotal | pkg/gr/shelf.go:59 | two different strings are ordered one way or the other (also pkg/cli/scripts.go:116) |
| Strings.PrefixLess | pkg/gr/shelf.go:59 | a proper prefix sorts before the longer string |
| Numbers.GoDiv | main.go:246 | Go's `/` truncates toward zero (also pkg/cli/author.go:129, pkg/cli/shelves.go:429, pkg/cli/shelves.go:482) |
| Numbers.GoRem | main.go:247 | Go's `%` satisfies `a == (a/b)*b + a%b` and takes the sign of the dividend (also pkg/cli/author.go:130) |
| Numbers.NatToDec | pkg/cli/icons.go:324 | the digits of a number, none leading zero, "0" exactly for zero |
| Numbers.DecValueOfNatToDec | pkg/cli/icons.go:182 | reading the printed digits gives the number back (also pkg/cli/icons.go:210) |
| Numbers.NatToDecInjective | pkg/cli/search.go:110 | different numbers print differently |
| Numbers.IntToDec | pkg/gr/book.go:71-79 | `%d` prints digits, with a leading `-` exactly for a negative number, and never a `.` or `/` (also pkg/cli/icons.go:210) |
| Numbers.IntToDecSign | pkg/gr/book.go:71-79 | the sign shows in the first character and the rest is the magnitude |
| Numbers.IntToDecInjective | pkg/cli/search.go:110 | different integers print differently (also main.go:664) |
| Numbers.ScanUintDigits | pkg/cli/icons.go:182 | a digit string that fits in 64 bits is read without error to its value |
| Numbers.ParseFormatInt64 | pkg/cli/icons.go:182 | `strconv.ParseInt` reads back every int64 `%d` printed, without error (also pkg/cli/icons.go:210) |
| Numbers.FormatFixed | pkg/cli/search.go:99 | `%.<n>f` is never empty and holds a `.` whenever there are decimals (also pkg/gr/book.go:82) |
| Numbers.PadDigits | pkg/cli/icons.go:324-330 | a digit string is left-padded with zeros to the width |
| Numbers.PadDigitsValue | pkg/cli/icons.go:324-330 | zero-padding keeps a digit string's digits and its value |
| Numbers.ParseDecimal | pkg/gr/book.go:389 | a decimal parses exactly when it has the plain decimal syntax (also pkg/gr/series.go:84) |
| Numbers.ParseDecimalOfDigits | pkg/gr/book.go:389 | a string of digits parses to its integer value |
| AuthorCommand.AuthorStartLaunch | pkg/cli/author.go:27-37 | at most the book-list job with `-savebooks` is launched, exactly when the list has expired, the job is not running and the launch succeeds; otherwise the runner is unchanged |
| AuthorCommand.AuthorStartView | pkg/cli/author.go:34-46 | a failed launch is fatal; after none, a failed read of a cached list is fatal; otherwise the cached list, or no books and the "Loading Books…" item when nothing is cached |
| AuthorCommand.AuthorStartRerun | pkg/cli/author.go:27-37 | when listing, the `rerun` variable is set exactly when the list had expired or the book-list job was running, so always while that job runs afterwards; the final `Rerun` decision of author.go:77, which also reruns while the icons job runs, is not part of this member |
| AuthorCommand.AuthorStartOnce | pkg/cli/author.go:31-37 | run again with the list still stale, the command launches nothing more and still asks for a rerun |
| AuthorCommand.RunAuthor | pkg/cli/author.go:19-46 | not authorised gives the authorise item and a client error is fatal, both with the runner unchanged; otherwise the runner and view are those of `AuthorStart` under the author's key |

## Findings

| source | as written | input that shows it | evidently intended | confidence | as-written member | corrected member |
|---|---|---|---|---|---|---|
| main.go:119-120 | the `-delkey` flag is bound to `FlagSaveKey`, so it runs the save-key command and nothing sets `FlagDelKey` | the command line `-delkey` | `-delkey` sets `FlagDelKey` and runs the delete-key command (main.go:579-587) | not executed; high, both flags' usage texts say what each does | LegacyMain.DelKeyAsWritten | LegacyMain.BindingRoundTrip |
| main.go:734 | `cachingSearch` judges a cached result against the constant `maxCacheAge` (24 hours) | `MaxCacheAge` set to 1 hour and a cached result 2 hours old: it is served | the configured `MaxCacheAge`, documented at main.go:71 as how long results are cached | not executed; high | LegacyMain.ConfiguredAgeIgnored | LegacyMain.CachingSearch |
| main.go:104-107 | `QueryTooShort` only tests for an empty query and ignores `MinQueryLength` | the query "ab" with the default minimum of 3 (main.go:536-538): it is searched | a query shorter than `MinQueryLength` is too short, as in pkg/cli/options.go | not executed; medium, the function's own comment agrees with its body | LegacyMain.ShortQueryExample | LegacyMain.QueryTooShortMonotone |

The corrected definitions (`LegacyMain.Binding`, `LegacyMain.CachingSearch`,
`LegacyMain.QueryTooShort`) are the ones `LegacyMain.CommandOf` and
`LegacyMain.Search` use; the as-written ones (`LegacyMain.BindingAsWritten`,
`LegacyMain.CachingSearchAsWritten`, `LegacyMain.QueryTooShortAsWritten`)
sit beside them.

## Left out

- Concurrency: the goroutine pools of both `ProcessQueue` methods and the goroutines of `runHousekeeping` and `runCheck` are one sequential pass over the entries, in order.
- Floating point: ratings and series positions are exact reals. `Numbers.FormatFixed` models the `%.2f` formatting of ratings on the exact value; the rounding of the binary float it formats is lost.
- Time: an integer nanosecond clock passed in as a parameter; the random jitter of the cover age is a parameter `k` in 0..71.
- `date.Date` is a calendar triple whose zero value is taken to be 1 January 1970; the date library's day arithmetic is not modelled.
- Case mapping (`strings.ToUpper`, `ToLower`) covers ASCII letters only; other Unicode case mappings are not modelled.
- The queue file is tab-separated text without quoting: `encoding/csv`'s quoting of fields that hold tabs, quotes or newlines is not modelled.
- awgo (`Cache`, `RunInBackground`, `IsRunning`, `Config.To`, `Rerun`, result items and their modifiers and icons), the Keychain, `flag` parsing and the fuzzy matcher are parameters or abstract state; flags arrive as a set of names.
- XML decoding (`encoding/xml`), SHA-256, bluemonday's sanitiser, `net/url` escaping and parsing, `os.Expand`, natefinch/atomic and image decoding and encoding are parameters; `squareImage` is modelled for the canvas size only.
- The network, OAuth (pkg/gr/auth.go), pkg/gr/user.go, `remoteImage` and the HTTP transports: the outcome of a request is a parameter.
- pkg/cli/config.go, pkg/cli/series.go, pkg/cli/script_helpers.go and magefile.go are not part of this model (host UI, export of variables, build tooling).
- The interface-only commands are not modelled: `runAPIKey`, `runSaveKey`, `runDelKey`, `runConfig`, `runHelp`, `runIcons`, `runScripts`, `runShelves`, `runShelf`, `runReloadShelf`, `runReloadShelves`, `runSeries` item building and the update check.
- vars.py: reading and writing info.plist and vars.json, and the osascript call that reloads the workflow; the model keeps the two dictionaries.
- `filepath.Join`, `MustExist` and `os.MkdirAll`: paths are strings joined with "/", and directories exist implicitly.
- Error values carry placeholder texts, not Go's exact messages; where Go panics (an index out of range, a failed `New`), the model returns an error value or leaves the case out.
- Paging.RunLoop: the source loop need not end (a stream of pages reporting `Total == 0` never does, `Paging.LoopNeverEnds`); the model's loop is bounded by `fuel` and reports `Exhausted` when it runs out.
- Options.LookupTokens: the Keychain item with no space makes Go panic on `parts[1]`; the model returns an error value instead.
- Options.Settings.Prepare: the workflow variables it exports (the tokens found in the Keychain) are returned as a map, not sent to Alfred.
- ShelfCommands.ToggleValue: the variable name is built with `fmt.Sprintf("shelf_" + name)`, which would rewrite a `%` in a shelf name; the model assumes shelf names without `%`.
- GrFeed.FeedURL: the URL is `list_rss/<user ID>?shelf=<escaped shelf>`, with no key; its own contract states the prefix, and `GrFeed.FeedURLInjective` that the user ID and escaped shelf can be read back; `url.Values.Encode` is the `escape` parameter.
- GrShelf.UserShelvesURL: a plain format of the user ID and page; its own contract states the prefix, and `GrShelf.UserShelvesURLInjective` that the user ID and page can be read back.
- LegacyMain.ItemOf: the item's title, subtitle, argument, UID and four variables are stated; it sets no match text, and its modifiers and icon are not modelled.
- LegacyMain.Search: composes the corrected `LegacyMain.QueryTooShort` and `LegacyMain.CachingSearch`; main.go:629-716 as written, with its empty-query test and the fixed 24-hour cache age, is `LegacyMain.SearchAsWritten`.
- Numbers.ParseDecimal: only plain decimals (optional sign, digits, optional fraction) are parsed; `strconv.ParseFloat`'s exponents ("1e2"), "inf", "Infinity" and "NaN", hexadecimal floats ("0x1p1") and its range error ("1e400") are not modelled. The series position in a title (pkg/gr/book.go:389) is text matched by `[0-9.]+`, so there only the range error of a number with over 308 integer digits is lost.
- GrSeries.SeriesBook, GrSeries.PositionFallback, GrSeries.UnmarshalSeries and GrClient.Client.Series: a `user_position` in any form `Numbers.ParseDecimal` does not accept (an exponent, "inf", "NaN", a hexadecimal float) gives position 0 here, where Go's `strconv.ParseFloat` would give its value; an out-of-range one gives 0 in both.
- `checkErr` and `logIfError` (pkg/cli/cli.go:461-474): the panic of `checkErr` is the `Aborted` status of a paging job or the `Fatal` view of a command, and `logIfError` only writes to the log, which is not modelled.
- Janitor.RunFeeds: the covers queued for each feed are modelled; storing `FeedsLastUpdate` in the cache afterwards is not.
- IconQueue.IconCache.New and IconQueue.IconCache.LoadQueue: one `failing` set stands for a queue file that can be neither read nor rewritten, so the "close queue" and "clear queue" errors of pkg/cli/icons.go:190-196 are not represented; for a file that reads but cannot be rewritten the source loads the queue and then fails with "clear queue", while the model reports "read icon queue" with an empty queue. `newIconCache` panics in both cases, so only the error text and the discarded queue differ.
- LegacyIcons: the constructor's panic on a directory it cannot create is not modelled.
