/** The shelf commands of pkg/cli/shelves.go: removing a book from a
  * shelf and its cached copy, marking the shelves the user has selected,
  * ordering and filtering them for display, the select toggle, and the
  * counts in the messages. */
module ShelfCommands {
  import opened Wrappers
  import opened Numbers
  import opened GrTypes
  import opened Seqs

  /** Workflow variables, as awgo's `Config` reads them. */
  type Config = map<string, string>

  /** `strconv.ParseBool`'s true spellings; every other value, and an
    * unparseable one, reads as false in `Config.GetBool`. */
  predicate ParseBool(v: string)
  {
    v in {"1", "t", "T", "TRUE", "true", "True"}
  }

  /** `Config.GetBool`: false for a missing variable. */
  predicate GetBool(config: Config, key: string)
  {
    key in config && ParseBool(config[key])
  }

  /** The variable that records whether a shelf is selected. */
  function SelectKey(name: string): string
  {
    "shelf_" + name
  }

  // ---------------------------------------------------------------
  // Removing a book from a cached shelf

  /** The test of the `cleaned` loop: a book that is not the removed one. */
  function OtherBook(bookID: int): Book -> bool
  {
    (b: Book) => b.id != bookID
  }

  /** The loop that rebuilds the cached shelf's books without `bookID`. */
  method CleanBooks(books: seq<Book>, bookID: int) returns (cleaned: seq<Book>)
    ensures cleaned == Filter(OtherBook(bookID), books)
  {
    cleaned := [];
    var i := 0;
    while i < |books|
      invariant 0 <= i <= |books|
      invariant cleaned == Filter(OtherBook(bookID), books[..i])
    {
      assert books[..i + 1] == books[..i] + [books[i]];
      FilterSnoc(OtherBook(bookID), books[..i], books[i]);
      if books[i].id != bookID {
        cleaned := cleaned + [books[i]];
      }
      i := i + 1;
    }
    assert books[..i] == books;
  }

  /** The cleaned list holds exactly the books with another ID, keeps
    * their order (cleaning distributes over concatenation), and is the
    * list itself when the book was not on it. */
  lemma CleanedBooks(books: seq<Book>, more: seq<Book>, bookID: int, b: Book)
    ensures b in Filter(OtherBook(bookID), books) <==> b in books && b.id != bookID
    ensures Filter(OtherBook(bookID), books + more)
         == Filter(OtherBook(bookID), books) + Filter(OtherBook(bookID), more)
    ensures (forall x :: x in books ==> x.id != bookID) ==> Filter(OtherBook(bookID), books) == books
  {
    FilterMembers(OtherBook(bookID), books, b);
    FilterConcat(OtherBook(bookID), books, more);
    if forall x :: x in books ==> x.id != bookID {
      FilterAll(OtherBook(bookID), books);
    }
  }

  /** A cache entry: a parsed shelf, or a file that does not decode. */
  datatype Cached = ShelfJSON(shelf: Shelf) | Undecodable

  /** The notification the command sends. */
  datatype Notice = Notice(title: string, text: string)

  datatype Removal =
    | RemoveUnauthorised
    | RemoveFailed(error: string)
    | Removed(notice: Notice, cache: map<string, Cached>)
    | CacheFailed(notice: Notice, error: string)

  /** The cache key of a shelf's books. */
  function ShelfKey(name: string): string
  {
    "shelves/" + name + ".json"
  }

  /** A title for the notification: the shelf's or else the query. */
  function RemovedText(shelfTitle: string, query: string): (t: string)
    ensures shelfTitle != "" ==> t == "Removed from “" + shelfTitle + "”"
    ensures shelfTitle == "" ==> t == "Removed from “" + query + "”"
  {
    "Removed from “" + (if shelfTitle == "" then query else shelfTitle) + "”"
  }

  /** The cache after the book is dropped from the shelf stored under
    * `key`; a missing or undecodable entry is left alone. */
  function CleanedCache(cache: map<string, Cached>, key: string, bookID: int): map<string, Cached>
  {
    if key !in cache || cache[key].Undecodable? then cache
    else
      var s := cache[key].shelf;
      cache[key := ShelfJSON(s.(books := Filter(OtherBook(bookID), s.books)))]
  }

  /** `runRemoveFromShelf`. The API call's and the cache write's errors are
    * inputs; a fatal log is an error outcome. */
  method RemoveFromShelf(authorised: bool, apiErr: Option<string>, bookID: int, bookTitle: string,
                         shelfName: string, shelfTitle: string, query: string,
                         cache: map<string, Cached>, storeFails: bool) returns (r: Removal)
    ensures !authorised ==> r == RemoveUnauthorised
    ensures authorised && apiErr.Some? ==> r == RemoveFailed(apiErr.value)
    ensures authorised && apiErr.None? ==>
      var notice := Notice(bookTitle, RemovedText(shelfTitle, query));
      var key := ShelfKey(shelfName);
      if key !in cache then r == Removed(notice, cache)
      else if cache[key].Undecodable? then r == CacheFailed(notice, "load cached shelf")
      else if storeFails then r == CacheFailed(notice, "cache shelf")
      else r == Removed(notice, CleanedCache(cache, key, bookID))
  {
    if !authorised {
      return RemoveUnauthorised;
    }
    if apiErr.Some? {
      return RemoveFailed(apiErr.value);
    }
    var notice := Notice(bookTitle, RemovedText(shelfTitle, query));
    var key := ShelfKey(shelfName);
    if key !in cache {
      return Removed(notice, cache);
    }
    if cache[key].Undecodable? {
      return CacheFailed(notice, "load cached shelf");
    }
    var shelf := cache[key].shelf;
    var cleaned := CleanBooks(shelf.books, bookID);
    if storeFails {
      return CacheFailed(notice, "cache shelf");
    }
    return Removed(notice, cache[key := ShelfJSON(shelf.(books := cleaned))]);
  }

  /** Removal touches only that shelf: with no cached shelf nothing is
    * written; otherwise no other entry changes, and the shelf keeps every
    * field (its size included) but loses exactly the books with that ID. */
  lemma CleanedCacheTouchesOnlyTheShelf(cache: map<string, Cached>, key: string, bookID: int)
    ensures key !in cache ==> CleanedCache(cache, key, bookID) == cache
    ensures CleanedCache(cache, key, bookID).Keys == cache.Keys
    ensures forall k :: k in cache && k != key ==> CleanedCache(cache, key, bookID)[k] == cache[k]
    ensures key in cache && cache[key].ShelfJSON? ==>
      var before := cache[key].shelf;
      var after := CleanedCache(cache, key, bookID)[key];
      after.ShelfJSON? && after.shelf.(books := before.books) == before &&
      (forall b :: b in after.shelf.books <==> b in before.books && b.id != bookID)
  {
    if key in cache && cache[key].ShelfJSON? {
      var before := cache[key].shelf;
      forall b ensures b in CleanedCache(cache, key, bookID)[key].shelf.books <==> b in before.books && b.id != bookID {
        FilterMembers(OtherBook(bookID), before.books, b);
      }
    }
  }

  // ---------------------------------------------------------------
  // Selecting shelves

  /** `s.Selected = wf.Config.GetBool("shelf_" + s.Name)`. */
  function Mark(config: Config): Shelf -> Shelf
  {
    (s: Shelf) => s.(selected := GetBool(config, SelectKey(s.name)))
  }

  function IsSelected(s: Shelf): bool
  {
    s.selected
  }

  function IsUnselected(s: Shelf): bool
  {
    !s.selected
  }

  function NameOf(s: Shelf): string
  {
    s.name
  }

  /** `bySelection.Less`: an unselected shelf goes before a selected one,
    * and no other pair is ordered. */
  predicate SelectionLess(a: Shelf, b: Shelf)
  {
    b.selected && !a.selected
  }

  /** Ordered by `bySelection`: no later shelf is Less than an earlier one. */
  predicate SortedBySelection(xs: seq<Shelf>)
  {
    forall i, j :: 0 <= i < j < |xs| ==> !SelectionLess(xs[j], xs[i])
  }

  /** The order `sort.Stable(bySelection(xs))` leaves: the unselected
    * shelves, then the selected ones, each group in its original order. */
  function BySelection(xs: seq<Shelf>): seq<Shelf>
  {
    Filter(IsUnselected, xs) + Filter(IsSelected, xs)
  }

  /** `BySelection` is what a stable sort by `bySelection.Less` produces:
    * it is sorted, a permutation of its input, and keeps the shelves of
    * each group in their input order. */
  lemma BySelectionIsStableSort(xs: seq<Shelf>)
    ensures SortedBySelection(BySelection(xs))
    ensures multiset(BySelection(xs)) == multiset(xs)
    ensures Filter(IsSelected, BySelection(xs)) == Filter(IsSelected, xs)
    ensures Filter(IsUnselected, BySelection(xs)) == Filter(IsUnselected, xs)
  {
    BySelectionSorted(xs);
    FilterSplit(IsUnselected, IsSelected, xs);
    BySelectionStable(xs);
  }

  lemma BySelectionSorted(xs: seq<Shelf>)
    ensures SortedBySelection(BySelection(xs))
  {
    var u := Filter(IsUnselected, xs);
    var t := Filter(IsSelected, xs);
    forall k | 0 <= k < |u| ensures !u[k].selected {
      FilterMembers(IsUnselected, xs, u[k]);
    }
    forall k | 0 <= k < |t| ensures t[k].selected {
      FilterMembers(IsSelected, xs, t[k]);
    }
    var m := u + t;
    forall i, j | 0 <= i < j < |m| ensures !SelectionLess(m[j], m[i]) {
      if j < |u| {
        assert !m[i].selected;
      } else if i >= |u| {
        assert m[j] == t[j - |u|];
      }
    }
  }

  lemma BySelectionStable(xs: seq<Shelf>)
    ensures Filter(IsSelected, BySelection(xs)) == Filter(IsSelected, xs)
    ensures Filter(IsUnselected, BySelection(xs)) == Filter(IsUnselected, xs)
  {
    var u := Filter(IsUnselected, xs);
    var t := Filter(IsSelected, xs);
    forall x | x in u ensures !IsSelected(x) {
      FilterMembers(IsUnselected, xs, x);
    }
    forall x | x in t ensures IsSelected(x) {
      FilterMembers(IsSelected, xs, x);
    }
    FilterConcat(IsSelected, u, t);
    FilterConcat(IsUnselected, u, t);
    FilterNone(IsSelected, u);
    FilterAll(IsSelected, t);
    FilterAll(IsUnselected, u);
    FilterNone(IsUnselected, t);
  }

  /** A test nothing passes keeps nothing. */
  lemma {:induction false} FilterNone(keep: Shelf -> bool, xs: seq<Shelf>)
    requires forall x :: x in xs ==> !keep(x)
    ensures Filter(keep, xs) == []
  {
    if xs != [] {
      var pre := xs[..|xs| - 1];
      assert forall x :: x in pre ==> x in xs;
      FilterNone(keep, pre);
    }
  }

  /** and it is the only such order: a sequence already sorted by
    * `bySelection` is its own `BySelection`, so any stable sort of `xs`
    * (sorted, and with the groups of `xs` in order) is `BySelection(xs)`. */
  lemma {:induction false} SortedIsBySelection(xs: seq<Shelf>)
    requires SortedBySelection(xs)
    ensures BySelection(xs) == xs
  {
    if xs != [] {
      var pre := xs[..|xs| - 1];
      var x := xs[|xs| - 1];
      assert xs == pre + [x];
      assert SortedBySelection(pre);
      SortedIsBySelection(pre);
      FilterSnoc(IsUnselected, pre, x);
      FilterSnoc(IsSelected, pre, x);
      if !x.selected {
        // nothing before an unselected last shelf is selected
        forall y | y in pre ensures !IsSelected(y) {
          var i :| 0 <= i < |pre| && pre[i] == y;
          assert xs[i] == y;
        }
        FilterNone(IsSelected, pre);
        FilterAll(IsUnselected, pre);
      }
    }
  }

  /** `selectShelves`: marks every shelf from the configuration in place,
    * returns the selected names in input order, then reorders the slice
    * stably by `bySelection`. */
  method SelectShelves(shelves: array<Shelf>, config: Config) returns (names: seq<string>)
    modifies shelves
    ensures names == Map(NameOf, Filter(IsSelected, Map(Mark(config), old(shelves[..]))))
    ensures shelves[..] == BySelection(Map(Mark(config), old(shelves[..])))
  {
    names := MarkAll(shelves, config);
    var sorted := BySelectionOf(shelves[..]);
    CopyInto(shelves, sorted);
  }

  /** One step of the marking loop, on values: the marked prefix grows by
    * the next shelf marked, and its name is added when it is selected. */
  lemma MarkStep(config: Config, before: seq<Shelf>, i: int, done: seq<Shelf>, names: seq<string>)
    requires 0 <= i < |before|
    requires done == Map(Mark(config), before[..i]) && names == Map(NameOf, Filter(IsSelected, done))
    ensures var s := Mark(config)(before[i]);
      done + [s] == Map(Mark(config), before[..i + 1]) &&
      (if s.selected then names + [s.name] else names) == Map(NameOf, Filter(IsSelected, done + [s]))
  {
    var s := Mark(config)(before[i]);
    assert before[..i + 1] == before[..i] + [before[i]];
    MapSnoc(Mark(config), before[..i], before[i]);
    FilterSnoc(IsSelected, done, s);
    if s.selected {
      MapSnoc(NameOf, Filter(IsSelected, done), s);
    }
  }

  /** The marking loop of `selectShelves`. */
  method MarkAll(shelves: array<Shelf>, config: Config) returns (names: seq<string>)
    modifies shelves
    ensures shelves[..] == Map(Mark(config), old(shelves[..]))
    ensures names == Map(NameOf, Filter(IsSelected, shelves[..]))
  {
    ghost var before := shelves[..];
    names := [];
    var i := 0;
    while i < shelves.Length
      invariant 0 <= i <= shelves.Length
      invariant shelves[..i] == Map(Mark(config), before[..i])
      invariant shelves[i..] == before[i..]
      invariant names == Map(NameOf, Filter(IsSelected, shelves[..i]))
    {
      ghost var done := shelves[..i];
      assert shelves[i] == before[i] by { assert shelves[i..][0] == before[i..][0]; }
      var s := Mark(config)(shelves[i]);
      MarkStep(config, before, i, done, names);
      shelves[i] := s;
      assert shelves[..i + 1] == done + [s];
      if s.selected {
        names := names + [s.name];
      }
      assert shelves[i + 1..] == before[i + 1..];
      i := i + 1;
    }
    assert shelves[..] == shelves[..i];
    assert before == before[..i];
  }

  /** The two groups that `sort.Stable` leaves, built by appending. */
  method BySelectionOf(xs: seq<Shelf>) returns (sorted: seq<Shelf>)
    ensures sorted == BySelection(xs)
    ensures |sorted| == |xs|
  {
    var unselected: seq<Shelf> := [];
    var selected: seq<Shelf> := [];
    var i := 0;
    while i < |xs|
      invariant 0 <= i <= |xs|
      invariant unselected == Filter(IsUnselected, xs[..i])
      invariant selected == Filter(IsSelected, xs[..i])
      invariant |unselected| + |selected| == i
    {
      assert xs[..i + 1] == xs[..i] + [xs[i]];
      FilterSnoc(IsUnselected, xs[..i], xs[i]);
      FilterSnoc(IsSelected, xs[..i], xs[i]);
      if xs[i].selected {
        selected := selected + [xs[i]];
      } else {
        unselected := unselected + [xs[i]];
      }
      i := i + 1;
    }
    assert xs[..i] == xs;
    sorted := unselected + selected;
  }

  /** A shelf is selected after marking exactly when its variable reads
    * true, and then its name is among the returned names. */
  lemma SelectedNames(xs: seq<Shelf>, config: Config, s: Shelf)
    requires s in xs
    ensures Mark(config)(s).selected == GetBool(config, SelectKey(s.name))
    ensures GetBool(config, SelectKey(s.name)) ==>
      s.name in Map(NameOf, Filter(IsSelected, Map(Mark(config), xs)))
  {
    var m := Map(Mark(config), xs);
    if GetBool(config, SelectKey(s.name)) {
      MapEach(Mark(config), xs);
      var i :| 0 <= i < |xs| && xs[i] == s;
      assert m[i] == Mark(config)(s);
      FilterMembers(IsSelected, m, m[i]);
      var f := Filter(IsSelected, m);
      var j :| 0 <= j < |f| && f[j] == m[i];
      MapEach(NameOf, f);
      assert Map(NameOf, f)[j] == s.name;
    }
  }

  /** Every returned name belongs to a shelf whose variable reads true. */
  lemma {:induction false} NamesAreSelected(xs: seq<Shelf>, config: Config)
    ensures forall n :: n in Map(NameOf, Filter(IsSelected, Map(Mark(config), xs))) ==>
      GetBool(config, SelectKey(n))
  {
    if xs != [] {
      var pre := xs[..|xs| - 1];
      var x := xs[|xs| - 1];
      assert xs == pre + [x];
      NamesAreSelected(pre, config);
      MapSnoc(Mark(config), pre, x);
      var m := Map(Mark(config), pre);
      FilterSnoc(IsSelected, m, Mark(config)(x));
      if Mark(config)(x).selected {
        MapSnoc(NameOf, Filter(IsSelected, m), Mark(config)(x));
      }
    }
  }

  // ---------------------------------------------------------------
  // Filtering shelves

  /** One result of the fuzzy matcher: a shelf and whether it matched. */
  datatype Ranked = Ranked(shelf: Shelf, matched: bool)

  /** The matched shelves whose selection is `selected`, in the matcher's
    * order: one of the two `groups`. */
  function Group(ranked: seq<Ranked>, selected: bool): seq<Shelf>
  {
    if ranked == [] then [] else
      var r := ranked[|ranked| - 1];
      Group(ranked[..|ranked| - 1], selected)
        + (if r.matched && r.shelf.selected == selected then [r.shelf] else [])
  }

  /** `filterShelves` over the matcher's results, in the matcher's order:
    * the two `groups` filled by appending, then joined. */
  method FilterShelves(ranked: seq<Ranked>) returns (matches: seq<Shelf>)
    ensures matches == Group(ranked, false) + Group(ranked, true)
  {
    var unselected: seq<Shelf> := [];
    var selected: seq<Shelf> := [];
    var i := 0;
    while i < |ranked|
      invariant 0 <= i <= |ranked|
      invariant unselected == Group(ranked[..i], false)
      invariant selected == Group(ranked[..i], true)
    {
      var r := ranked[i];
      assert ranked[..i + 1][..i] == ranked[..i];
      if r.matched {
        if r.shelf.selected {
          selected := selected + [r.shelf];
        } else {
          unselected := unselected + [r.shelf];
        }
      }
      i := i + 1;
    }
    assert ranked[..i] == ranked;
    matches := unselected + selected;
  }

  /** A group holds exactly the matched shelves of its selection. */
  lemma {:induction false} GroupMembers(ranked: seq<Ranked>, selected: bool, s: Shelf)
    ensures s in Group(ranked, selected) <==> Ranked(s, true) in ranked && s.selected == selected
  {
    if ranked != [] {
      var pre := ranked[..|ranked| - 1];
      assert ranked == pre + [ranked[|ranked| - 1]];
      GroupMembers(pre, selected, s);
    }
  }

  /** The filtered list holds every matched shelf and nothing else, and
    * no selected shelf comes before an unselected one. */
  lemma FilteredShelves(ranked: seq<Ranked>, s: Shelf)
    ensures SortedBySelection(Group(ranked, false) + Group(ranked, true))
    ensures s in Group(ranked, false) + Group(ranked, true) <==> Ranked(s, true) in ranked
  {
    var u := Group(ranked, false);
    var t := Group(ranked, true);
    forall k | 0 <= k < |u| ensures !u[k].selected {
      GroupMembers(ranked, false, u[k]);
    }
    forall k | 0 <= k < |t| ensures t[k].selected {
      GroupMembers(ranked, true, t[k]);
    }
    GroupMembers(ranked, false, s);
    GroupMembers(ranked, true, s);
    var m := u + t;
    forall i, j | 0 <= i < j < |m| ensures !SelectionLess(m[j], m[i]) {
      if j < |u| {
        assert !m[i].selected;
      } else if i >= |u| {
        assert m[j] == t[j - |u|];
      }
    }
  }

  // ---------------------------------------------------------------
  // The select toggle and the messages

  /** The value `-select` writes for a shelf whose flag is `current`. */
  function ToggleValue(current: bool): (v: string)
    ensures current <==> v == "false"
  {
    if current then "false" else "true"
  }

  /** Toggling flips the flag: reading the written value back gives the
    * opposite, and the variable it writes is the one `selectShelves`
    * reads. */
  lemma ToggleFlips(config: Config, name: string)
    ensures GetBool(config[SelectKey(name) := ToggleValue(GetBool(config, SelectKey(name)))], SelectKey(name))
         == !GetBool(config, SelectKey(name))
  {
  }

  /** The prompt on the save action of `runSelectShelves`. */
  function AddPrompt(selected: nat): (msg: string)
    ensures msg == "Add to 1 shelf" <==> selected == 1
  {
    if selected != 1 then "Add to " + IntToDec(selected) + " shelves" else "Add to 1 shelf"
  }

  /** The save action offered on every shelf item once something is
    * selected: its prompt and the arguments `-add name…`. */
  function SaveAction(selected: seq<string>): (a: Option<(string, seq<string>)>)
    ensures a.Some? <==> |selected| > 0
    ensures a.Some? ==> a.value.1 == ["-add"] + selected && a.value.0 == AddPrompt(|selected|)
  {
    if |selected| > 0 then Some((AddPrompt(|selected|), ["-add"] + selected)) else None
  }

  /** The confirmation of `runAddToShelves`: one shelf unless there were
    * more arguments than one (none included). */
  function AddedText(args: nat): (msg: string)
    ensures msg == "Added to 1 shelf" <==> args <= 1
  {
    if args > 1 then "Added to " + IntToDec(args) + " shelves" else "Added to 1 shelf"
  }

  datatype Addition = AddUnauthorised | AddFailed(error: string) | Added(vars: map<string, string>)

  /** `runAddToShelves`: the notification variables and a cleared
    * selection variable for every shelf the book was added to. */
  method AddToShelves(authorised: bool, apiErr: Option<string>, bookTitle: string, args: seq<string>)
    returns (r: Addition)
    ensures !authorised ==> r == AddUnauthorised
    ensures authorised && apiErr.Some? ==> r == AddFailed(apiErr.value)
    ensures authorised && apiErr.None? ==> (r.Added? &&
      r.vars.Keys == {"notification_title", "notification_text"} + (set s | s in args :: SelectKey(s)) &&
      r.vars["notification_title"] == bookTitle &&
      r.vars["notification_text"] == AddedText(|args|) &&
      forall s :: s in args ==> r.vars[SelectKey(s)] == "")
  {
    if !authorised {
      return AddUnauthorised;
    }
    if apiErr.Some? {
      return AddFailed(apiErr.value);
    }
    var vars := map["notification_title" := bookTitle, "notification_text" := AddedText(|args|)];
    var i := 0;
    while i < |args|
      invariant 0 <= i <= |args|
      invariant vars.Keys == {"notification_title", "notification_text"} + (set s | s in args[..i] :: SelectKey(s))
      invariant vars["notification_title"] == bookTitle
      invariant vars["notification_text"] == AddedText(|args|)
      invariant forall s :: s in args[..i] ==> vars[SelectKey(s)] == ""
    {
      PrefixedKeyDiffers(args[i]);
      assert args[..i + 1] == args[..i] + [args[i]];
      vars := vars[SelectKey(args[i]) := ""];
      i := i + 1;
    }
    assert args[..i] == args;
    return Added(vars);
  }

  /** A selection variable never overwrites the notification variables. */
  lemma PrefixedKeyDiffers(name: string)
    ensures SelectKey(name) != "notification_title" && SelectKey(name) != "notification_text"
  {
    assert SelectKey(name)[0] == 's';
  }

  /** Cleared selections read as unselected on the next `selectShelves`. */
  lemma AddedDeselects(vars: map<string, string>, args: seq<string>, s: string)
    requires forall a :: a in args ==> SelectKey(a) in vars && vars[SelectKey(a)] == ""
    requires s in args
    ensures !GetBool(vars, SelectKey(s))
  {
  }
}
