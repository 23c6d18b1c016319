/** The workflow's scripts (pkg/cli/scripts.go): merging the built-in and
  * user script directories into named scripts with icons, their order,
  * the book details a script may ask for, and the variables exported to
  * it.
  *
  * A directory listing is the list of file names `ioutil.ReadDir` gives,
  * or None when the directory cannot be read. Whether a file can be run
  * (awgo's `Runners.CanRun`), URL escaping and running the script are
  * parameters. */
module ScriptCommands {
  import opened Wrappers
  import opened Strings
  import opened GrTypes
  import opened GrBook
  import opened CacheKeys
  import JsonCache
  import opened BookVars

  /** The extensions of the files that are icons, not scripts. */
  const ImageExts: set<string> := {".png", ".icns", ".gif", ".jpg", ".jpeg"}

  /** The icon of a script without an image of its own. */
  const IconScript: string := "icons/script.png"

  /** A listed file: the directory and the file's name within it. */
  datatype Listed = Listed(dir: string, file: string)

  datatype Script = Script(name: string, path: string, icon: string)

  function PathOf(e: Listed): string
  {
    e.dir + "/" + e.file
  }

  /** The lower-cased final extension of a file name. */
  function LowerExt(file: string): (x: string)
    ensures |x| <= |file|
  {
    ToLower(Ext(file))
  }

  /** The name a file registers under: the file name without its final
    * extension. */
  function NameOf(file: string): (n: string)
    ensures HasPrefix(file, n)
  {
    file[..|file| - |LowerExt(file)|]
  }

  /** What a listed file registers as. */
  datatype Kind = ScriptFile | IconFile | Ignored

  function KindOf(e: Listed, canRun: string -> bool): (k: Kind)
    ensures k == IconFile <==> LowerExt(e.file) in ImageExts
    ensures k == ScriptFile <==> LowerExt(e.file) !in ImageExts && canRun(PathOf(e))
  {
    if LowerExt(e.file) in ImageExts then IconFile
    else if canRun(PathOf(e)) then ScriptFile
    else Ignored
  }

  /** The kind and the name of each file. */
  type Classify = Listed -> (Kind, string)

  function Classifier(canRun: string -> bool): Classify
  {
    (e: Listed) => (KindOf(e, canRun), NameOf(e.file))
  }

  /** The scripts and the icons found so far, by name. */
  datatype Found = Found(files: map<string, string>, icons: map<string, string>)

  /** One file of the loop: an image registers an icon, a runnable file a
    * script, each replacing an earlier entry of the same name. */
  function Register(f: Found, e: Listed, classify: Classify): Found
  {
    var (kind, name) := classify(e);
    match kind
    case IconFile => Found(f.files, f.icons[name := PathOf(e)])
    case ScriptFile => Found(f.files[name := PathOf(e)], f.icons)
    case Ignored => f
  }

  /** The files, in the order the loop visits them. */
  function Scan(es: seq<Listed>, classify: Classify): Found
  {
    if es == [] then Found(map[], map[])
    else Register(Scan(es[..|es| - 1], classify), es[|es| - 1], classify)
  }

  /** One more file of a directory. */
  lemma ScanPrefixStep(done: seq<Listed>, listing: seq<Listed>, i: nat, classify: Classify)
    requires i < |listing|
    ensures Scan(done + listing[..i + 1], classify) == Register(Scan(done + listing[..i], classify), listing[i], classify)
  {
    var xs := done + listing[..i + 1];
    assert xs[..|xs| - 1] == done + listing[..i];
  }

  /** The files of one directory; an unreadable directory has none. */
  function Listing(dir: string, names: Option<seq<string>>): (es: seq<Listed>)
    ensures names.None? ==> es == []
    ensures names.Some? ==> (|es| == |names.value| &&
      forall i :: 0 <= i < |es| ==> es[i] == Listed(dir, names.value[i]))
  {
    match names
    case None => []
    case Some(ns) => seq(|ns|, i requires 0 <= i < |ns| => Listed(dir, ns[i]))
  }

  /** The script of each registered name, with the image of the same name
    * as its icon when there is one. */
  function ScriptFor(f: Found, name: string): Script
    requires name in f.files
  {
    Script(name, f.files[name], if name in f.icons then f.icons[name] else IconScript)
  }

  function Merge(f: Found): map<string, Script>
  {
    map name | name in f.files :: ScriptFor(f, name)
  }

  /** The map a kind of file registers into. */
  function Registry(f: Found, k: Kind): map<string, string>
    requires k != Ignored
  {
    if k == ScriptFile then f.files else f.icons
  }

  predicate Registers(e: Listed, classify: Classify, k: Kind, name: string)
  {
    classify(e) == (k, name)
  }

  /** A name is registered exactly when some file of that kind has it, and
    * it holds the path of the last such file. */
  lemma {:induction false} ScanLatest(es: seq<Listed>, classify: Classify, k: Kind, name: string)
    requires k != Ignored
    ensures name in Registry(Scan(es, classify), k) <==>
      exists i :: 0 <= i < |es| && Registers(es[i], classify, k, name)
    ensures name in Registry(Scan(es, classify), k) ==>
      exists i :: 0 <= i < |es| && Registers(es[i], classify, k, name) &&
        Registry(Scan(es, classify), k)[name] == PathOf(es[i]) &&
        forall j :: i < j < |es| ==> !Registers(es[j], classify, k, name)
  {
    if es != [] {
      var init, e := es[..|es| - 1], es[|es| - 1];
      var before, after := Registry(Scan(init, classify), k), Registry(Scan(es, classify), k);
      assert Scan(es, classify) == Register(Scan(init, classify), e, classify);
      ScanLatest(init, classify, k, name);
      RegisterStep(Scan(init, classify), e, classify, k, name);
      if Registers(e, classify, k, name) {
        assert Registers(es[|es| - 1], classify, k, name) && after[name] == PathOf(es[|es| - 1]);
      } else {
        if exists i :: 0 <= i < |es| && Registers(es[i], classify, k, name) {
          var i :| 0 <= i < |es| && Registers(es[i], classify, k, name);
          assert i < |init| && init[i] == es[i];
        }
        if name in before {
          var i :| 0 <= i < |init| && Registers(init[i], classify, k, name) &&
            before[name] == PathOf(init[i]) &&
            forall j :: i < j < |init| ==> !Registers(init[j], classify, k, name);
          assert init[i] == es[i];
          assert forall j :: i < j < |es| ==> !Registers(es[j], classify, k, name) by {
            forall j | i < j < |es|
              ensures !Registers(es[j], classify, k, name)
            {
              if j < |init| {
                assert init[j] == es[j];
              } else {
                assert es[j] == e;
              }
            }
          }
        }
      }
    }
  }

  /** One step of the loop: a file registers its own name and kind only. */
  lemma RegisterStep(f: Found, e: Listed, classify: Classify, k: Kind, name: string)
    requires k != Ignored
    ensures Registers(e, classify, k, name) ==>
      name in Registry(Register(f, e, classify), k) && Registry(Register(f, e, classify), k)[name] == PathOf(e)
    ensures !Registers(e, classify, k, name) ==>
      (name in Registry(Register(f, e, classify), k) <==> name in Registry(f, k)) &&
      (name in Registry(f, k) ==> Registry(Register(f, e, classify), k)[name] == Registry(f, k)[name])
  {
  }

  /** The loop over both directories: the built-in one first, then the
    * user's. */
  function Entries(scriptsDir: string, builtin: Option<seq<string>>, userDir: string,
                   user: Option<seq<string>>): seq<Listed>
  {
    Listing(scriptsDir, builtin) + Listing(userDir, user)
  }

  /** `LoadScripts`: the two nested loops over the directories, then the
    * loop that gives every script its icon. */
  method LoadScripts(scriptsDir: string, builtin: Option<seq<string>>, userDir: string,
                     user: Option<seq<string>>, canRun: string -> bool)
    returns (scripts: map<string, Script>)
    ensures scripts == Merge(Scan(Entries(scriptsDir, builtin, userDir, user), Classifier(canRun)))
  {
    var dirs := [(scriptsDir, builtin), (userDir, user)];
    var found := ScanDirs(dirs, canRun);
    TwoListings(scriptsDir, builtin, userDir, user);
    scripts := MergeLoop(found);
  }

  lemma TwoListings(scriptsDir: string, builtin: Option<seq<string>>, userDir: string, user: Option<seq<string>>)
    ensures Listings([(scriptsDir, builtin), (userDir, user)]) == Entries(scriptsDir, builtin, userDir, user)
  {
    var dirs := [(scriptsDir, builtin), (userDir, user)];
    assert dirs[..1][..0] == [];
    assert Listings(dirs[..1]) == [] + Listing(scriptsDir, builtin);
    assert dirs[..1] == dirs[..|dirs| - 1];
  }

  /** The files of the directories in turn. */
  function Listings(dirs: seq<(string, Option<seq<string>>)>): seq<Listed>
  {
    if dirs == [] then [] else Listings(dirs[..|dirs| - 1]) + Listing(dirs[|dirs| - 1].0, dirs[|dirs| - 1].1)
  }

  /** The outer loop over the directories, each read or unreadable. */
  method ScanDirs(dirs: seq<(string, Option<seq<string>>)>, canRun: string -> bool) returns (found: Found)
    ensures found == Scan(Listings(dirs), Classifier(canRun))
  {
    var files: map<string, string> := map[];
    var icons: map<string, string> := map[];
    for d := 0 to |dirs|
      invariant Found(files, icons) == Scan(Listings(dirs[..d]), Classifier(canRun))
    {
      var (dir, infos) := dirs[d];
      files, icons := ScanListing(files, icons, dir, infos, canRun, Listings(dirs[..d]));
      assert dirs[..d + 1][..d] == dirs[..d];
    }
    assert dirs[..|dirs|] == dirs;
    found := Found(files, icons);
  }

  /** One directory of the outer loop: read, its files are scanned;
    * unreadable, it is skipped. */
  method ScanListing(files0: map<string, string>, icons0: map<string, string>, dir: string,
                     infos: Option<seq<string>>, canRun: string -> bool, ghost done: seq<Listed>)
    returns (files: map<string, string>, icons: map<string, string>)
    requires Found(files0, icons0) == Scan(done, Classifier(canRun))
    ensures Found(files, icons) == Scan(done + Listing(dir, infos), Classifier(canRun))
  {
    if infos.Some? {
      files, icons := ScanDir(files0, icons0, dir, infos.value, canRun, done);
    } else {
      assert done + Listing(dir, infos) == done;
      files, icons := files0, icons0;
    }
  }

  /** The inner loop, over the files of one readable directory. */
  method ScanDir(files0: map<string, string>, icons0: map<string, string>, dir: string, names: seq<string>,
                 canRun: string -> bool, ghost done: seq<Listed>)
    returns (files: map<string, string>, icons: map<string, string>)
    requires Found(files0, icons0) == Scan(done, Classifier(canRun))
    ensures Found(files, icons) == Scan(done + Listing(dir, Some(names)), Classifier(canRun))
  {
    files, icons := files0, icons0;
    ghost var c := Classifier(canRun);
    ghost var listing := Listing(dir, Some(names));
    assert done + listing[..0] == done;
    for i := 0 to |names|
      invariant Found(files, icons) == Scan(done + listing[..i], c)
    {
      var filename := names[i];
      var path := dir + "/" + filename;
      var ext := ToLower(Ext(filename));
      var name := filename[0..|filename| - |ext|];
      ghost var before := Found(files, icons);
      assert listing[i] == Listed(dir, filename) && path == PathOf(listing[i]);
      assert c(listing[i]) == (KindOf(listing[i], canRun), name);
      if ext in ImageExts {
        icons := icons[name := path];
      } else if canRun(path) {
        files := files[name := path];
      }
      assert Found(files, icons) == Register(before, listing[i], c);
      ScanPrefixStep(done, listing, i, c);
    }
    assert listing[..|names|] == listing;
  }

  /** The merge loop over the scripts found. */
  method MergeLoop(f: Found) returns (scripts: map<string, Script>)
    ensures scripts == Merge(f)
  {
    scripts := map[];
    var todo := f.files.Keys;
    while todo != {}
      invariant todo <= f.files.Keys
      invariant scripts.Keys == f.files.Keys - todo
      invariant forall n :: n in scripts ==> scripts[n] == ScriptFor(f, n)
      decreases |todo|
    {
      var name :| name in todo;
      var icon := IconScript;
      if name in f.icons {
        icon := f.icons[name];
      }
      scripts := scripts[name := Script(name, f.files[name], icon)];
      todo := todo - {name};
    }
  }

  /** A script is a runnable non-image file, named after its file; its
    * path is that of the last such file; its icon is the last image of
    * that name, or the generic script icon when there is none. */
  lemma LoadedScripts(es: seq<Listed>, canRun: string -> bool, name: string)
    ensures var c := Classifier(canRun);
      name in Merge(Scan(es, c)) <==> exists i :: 0 <= i < |es| && Registers(es[i], c, ScriptFile, name)
    ensures var c := Classifier(canRun);
      name in Merge(Scan(es, c)) ==>
      var s := Merge(Scan(es, c))[name];
      s.name == name &&
      (exists i :: 0 <= i < |es| && Registers(es[i], c, ScriptFile, name) && s.path == PathOf(es[i]) &&
        forall j :: i < j < |es| ==> !Registers(es[j], c, ScriptFile, name)) &&
      ((forall i :: 0 <= i < |es| ==> !Registers(es[i], c, IconFile, name)) ==> s.icon == IconScript) &&
      ((exists i :: 0 <= i < |es| && Registers(es[i], c, IconFile, name)) ==>
        exists i :: 0 <= i < |es| && Registers(es[i], c, IconFile, name) && s.icon == PathOf(es[i]) &&
          forall j :: i < j < |es| ==> !Registers(es[j], c, IconFile, name))
  {
    ScanLatest(es, Classifier(canRun), ScriptFile, name);
    ScanLatest(es, Classifier(canRun), IconFile, name);
  }

  /** What registering means: an image of that name, or a runnable
    * non-image file of that name. */
  lemma RegistersMeans(e: Listed, canRun: string -> bool, name: string)
    ensures Registers(e, Classifier(canRun), IconFile, name) <==>
      LowerExt(e.file) in ImageExts && NameOf(e.file) == name
    ensures Registers(e, Classifier(canRun), ScriptFile, name) <==>
      LowerExt(e.file) !in ImageExts && canRun(PathOf(e)) && NameOf(e.file) == name
  {
  }

  /** A runnable non-image file in the user directory wins over every
    * built-in file of its name. */
  lemma UserOverrides(scriptsDir: string, builtin: Option<seq<string>>, userDir: string,
                      names: seq<string>, canRun: string -> bool, name: string)
    requires exists f :: f in names && Registers(Listed(userDir, f), Classifier(canRun), ScriptFile, name)
    ensures var scripts := Merge(Scan(Entries(scriptsDir, builtin, userDir, Some(names)), Classifier(canRun)));
      name in scripts && exists f :: f in names && scripts[name].path == userDir + "/" + f
  {
    var c := Classifier(canRun);
    var u := Listing(userDir, Some(names));
    var f :| f in names && Registers(Listed(userDir, f), c, ScriptFile, name);
    var k :| 0 <= k < |names| && names[k] == f;
    assert Registers(u[k], c, ScriptFile, name);
    LaterListingWins(Listing(scriptsDir, builtin), u, c, name);
    var j :| 0 <= j < |u| && Scan(Listing(scriptsDir, builtin) + u, c).files[name] == PathOf(u[j]);
    assert PathOf(u[j]) == userDir + "/" + names[j];
  }

  /** A name registered as a script by the later listing takes its path
    * from that listing. */
  lemma LaterListingWins(earlier: seq<Listed>, later: seq<Listed>, classify: Classify, name: string)
    requires exists j :: 0 <= j < |later| && Registers(later[j], classify, ScriptFile, name)
    ensures name in Scan(earlier + later, classify).files
    ensures exists j :: 0 <= j < |later| && Scan(earlier + later, classify).files[name] == PathOf(later[j])
  {
    var es := earlier + later;
    var j :| 0 <= j < |later| && Registers(later[j], classify, ScriptFile, name);
    assert es[|earlier| + j] == later[j];
    ScanLatest(es, classify, ScriptFile, name);
    var i :| 0 <= i < |es| && Registers(es[i], classify, ScriptFile, name) &&
      Registry(Scan(es, classify), ScriptFile)[name] == PathOf(es[i]) &&
      forall j :: i < j < |es| ==> !Registers(es[j], classify, ScriptFile, name);
    assert i >= |earlier|;
    assert es[i] == later[i - |earlier|];
  }

  /** `Scripts.Less`: by name. */
  predicate ScriptLess(a: Script, b: Script)
  {
    Less(a.name, b.name)
  }

  /** The scripts of the merged map carry their keys as names, so the order
    * by name is strict and total on them. */
  lemma ScriptOrder(scripts: map<string, Script>, f: Found, m: string, n: string)
    requires scripts == Merge(f) && m in scripts && n in scripts
    ensures scripts[m].name == m && scripts[n].name == n
    ensures !ScriptLess(scripts[m], scripts[m])
    ensures m != n ==> ScriptLess(scripts[m], scripts[n]) != ScriptLess(scripts[n], scripts[m])
  {
    LessIrreflexive(m);
    if m != n {
      LessTotal(m, n);
      if Less(m, n) && Less(n, m) {
        LessTransitive(m, n, m);
        LessIrreflexive(m);
      }
    }
  }

  function VarName(k: DataKey, v: Variant): string
  {
    KeyName(k) + Suffix(v)
  }

  function VarNamer(): Namer<DataKey>
  {
    (k: DataKey, v: Variant) => VarName(k, v)
  }

  /** No two variables share a name. */
  lemma VarNamerInjective()
    ensures Injective(VarNamer())
  {
    VarNameInjective();
  }

  /** `vars` are the variables of `bookVariables` for `data`. */
  ghost predicate IsVariables(vars: map<string, string>, data: map<DataKey, string>,
                              pathEscape: string -> string, queryEscape: string -> string)
  {
    IsSpread(vars, data, VarNamer(), pathEscape, queryEscape)
  }

  lemma KeyNameEnds(k: DataKey)
    ensures !HasSuffix(KeyName(k), "_QUOTED") && !HasSuffix(KeyName(k), "_QUOTED_PLUS")
  {
  }

  lemma KeyNameInjective(a: DataKey, b: DataKey)
    requires KeyName(a) == KeyName(b)
    ensures a == b
  {
  }

  lemma VariantOfVarName(k: DataKey, v: Variant)
    ensures VariantOf(VarName(k, v)) == v
  {
    KeyNameEnds(k);
    VariantOfSuffix(KeyName(k), v);
  }

  /** No two variables share a name. */
  lemma VarNameInjective()
    ensures forall a, v, b, w :: VarName(a, v) == VarName(b, w) ==> a == b && v == w
  {
    forall a, v, b, w | VarName(a, v) == VarName(b, w)
      ensures a == b && v == w
    {
      SameName(a, v, b, w);
    }
  }

  lemma SameName(a: DataKey, v: Variant, b: DataKey, w: Variant)
    requires VarName(a, v) == VarName(b, w)
    ensures a == b && v == w
  {
    var s := VarName(a, v);
    VariantOfVarName(a, v);
    VariantOfVarName(b, w);
    assert KeyName(a) == s[..|s| - |Suffix(v)|] == KeyName(b);
    KeyNameInjective(a, b);
  }

  /** The names of the three variants. */
  lemma VarNames(k: DataKey)
    ensures VarName(k, Raw) == KeyName(k)
    ensures VarName(k, Quoted) == KeyName(k) + "_QUOTED"
    ensures VarName(k, QuotedPlus) == KeyName(k) + "_QUOTED_PLUS"
  {
  }

  /** Each data key gives three variables: the value under its own name,
    * path-escaped under `_QUOTED` and query-escaped under `_QUOTED_PLUS`. */
  lemma VariablesOf(vars: map<string, string>, data: map<DataKey, string>,
                    pathEscape: string -> string, queryEscape: string -> string)
    requires IsVariables(vars, data, pathEscape, queryEscape)
    ensures forall k :: k in data ==>
      KeyName(k) in vars && vars[KeyName(k)] == data[k] &&
      KeyName(k) + "_QUOTED" in vars && vars[KeyName(k) + "_QUOTED"] == pathEscape(data[k]) &&
      KeyName(k) + "_QUOTED_PLUS" in vars && vars[KeyName(k) + "_QUOTED_PLUS"] == queryEscape(data[k])
  {
    var n := VarNamer();
    forall k | k in data
      ensures KeyName(k) in vars && vars[KeyName(k)] == data[k] &&
        KeyName(k) + "_QUOTED" in vars && vars[KeyName(k) + "_QUOTED"] == pathEscape(data[k]) &&
        KeyName(k) + "_QUOTED_PLUS" in vars && vars[KeyName(k) + "_QUOTED_PLUS"] == queryEscape(data[k])
    {
      VarNames(k);
      assert n(k, Raw) == KeyName(k);
      assert n(k, Quoted) == KeyName(k) + "_QUOTED";
      assert n(k, QuotedPlus) == KeyName(k) + "_QUOTED_PLUS";
    }
  }

  /** There are no other variables than those of the data keys. */
  lemma VariablesOnly(vars: map<string, string>, data: map<DataKey, string>,
                      pathEscape: string -> string, queryEscape: string -> string, s: string)
    requires IsVariables(vars, data, pathEscape, queryEscape)
    requires s in vars
    ensures exists k, v :: k in data && s == VarName(k, v)
  {
    var n := VarNamer();
    assert exists k, v :: k in data && s == n(k, v);
    var k, v :| k in data && s == n(k, v);
    assert n(k, v) == VarName(k, v);
  }

  /** No other map is the variables of the same data. */
  lemma VariablesUnique(vars: map<string, string>, other: map<string, string>, data: map<DataKey, string>,
                        pathEscape: string -> string, queryEscape: string -> string)
    requires IsVariables(vars, data, pathEscape, queryEscape)
    requires IsVariables(other, data, pathEscape, queryEscape)
    ensures other == vars
  {
    SpreadUnique(other, vars, data, VarNamer(), pathEscape, queryEscape);
  }

  /** `bookVariables`: the loop over the book's data. */
  method BookVariables(pol: Policies, b: Book, pathEscape: string -> string, queryEscape: string -> string)
    returns (vars: map<string, string>)
    ensures IsVariables(vars, KeptData(RawData(pol, b)), pathEscape, queryEscape)
  {
    var data := Data(pol, b);
    vars := map[];
    var todo := data.Keys;
    ghost var done: map<DataKey, string> := map[];
    SpreadEmpty(VarNamer(), pathEscape, queryEscape);
    while todo != {}
      invariant todo <= data.Keys
      invariant done.Keys == data.Keys - todo
      invariant forall k :: k in done ==> done[k] == data[k]
      invariant IsVariables(vars, done, pathEscape, queryEscape)
      decreases |todo|
    {
      var k :| k in todo;
      var v := data[k];
      VariablesAdd(vars, done, k, v, pathEscape, queryEscape);
      vars := vars[KeyName(k) := v];
      vars := vars[KeyName(k) + "_QUOTED" := pathEscape(v)];
      vars := vars[KeyName(k) + "_QUOTED_PLUS" := queryEscape(v)];
      done := done[k := v];
      todo := todo - {k};
    }
    assert done == data;
  }

  /** One step of `bookVariables`: a new key adds its three variables. */
  lemma VariablesAdd(vars: map<string, string>, done: map<DataKey, string>, k: DataKey, v: string,
                     pathEscape: string -> string, queryEscape: string -> string)
    requires k !in done && IsVariables(vars, done, pathEscape, queryEscape)
    ensures IsVariables(vars[KeyName(k) := v][KeyName(k) + "_QUOTED" := pathEscape(v)]
                            [KeyName(k) + "_QUOTED_PLUS" := queryEscape(v)],
                        done[k := v], pathEscape, queryEscape)
  {
    var n := VarNamer();
    VarNamerInjective();
    VarNames(k);
    assert n(k, Raw) == KeyName(k) && n(k, Quoted) == KeyName(k) + "_QUOTED";
    assert n(k, QuotedPlus) == KeyName(k) + "_QUOTED_PLUS";
    SpreadAdd(vars, done, n, k, v, pathEscape, queryEscape);
  }

  /** The cache key of a book's details. */
  function DetailsKey(id: int): string
  {
    "books/" + CacheFileID(id, [])
  }

  /** What `bookDetails` gives: the book, or the zero book and an error. */
  datatype Details = Details(book: Book, err: Option<string>, cache: JsonCache.Cache<Book>, lastRequest: Option<int>)

  /** `bookDetails`: `LoadOrStoreJSON` under the book's key with the default
    * age limit, the reload throttled like the search's; a failure gives
    * the zero book and the error wrapped as "book details". */
  method BookDetails(id: int, maxAge: int, cache: JsonCache.Cache<Book>, now: int, last: Option<int>,
                     fetch: Result<Book>, written: int) returns (r: Details)
    ensures var key := DetailsKey(id);
      !JsonCache.Expired(cache, key, maxAge, now) ==> r == Details(cache[key].value, None, cache, None)
    ensures var key := DetailsKey(id);
      (JsonCache.Expired(cache, key, maxAge, now) && fetch.Err?) ==>
        r.book == ZeroBook && r.err == Some("book details: " + fetch.error)
    ensures var key := DetailsKey(id);
      (JsonCache.Expired(cache, key, maxAge, now) && fetch.Ok?) ==>
        r.book == fetch.value && r.err.None? && r.lastRequest.Some? &&
        r.cache == cache[key := JsonCache.Entry(fetch.value, written)] &&
        r.lastRequest.value >= now && (last.Some? ==> r.lastRequest.value >= last.value + Numbers.Second) &&
        r.lastRequest.value == JsonCache.SendTime(last, now)
  {
    var loaded := JsonCache.LoadOrStore(cache, DetailsKey(id), maxAge, now, last, fetch, written);
    if loaded.LoadFailed? {
      return Details(ZeroBook, Some("book details: " + loaded.error), cache, None);
    }
    return Details(loaded.value, None, loaded.cache, loaded.lastRequest);
  }

  /** What `runScript` does. */
  datatype ScriptRun =
    | UnknownScript(notice: string)
    | DetailsFailed(error: string)
    | RunFailed(name: string, error: string)
    | Ran(path: string, env: map<string, string>, output: string)

  /** Running the script at its path in `env`. */
  function Outcome(s: Script, run: (string, map<string, string>) -> Result<string>, env: map<string, string>)
    : ScriptRun
  {
    match run(s.path, env)
    case Err(e) => RunFailed(s.name, e)
    case Ok(out) => Ran(s.path, env, out)
  }

  /** `runScript`: a script not found by name runs nothing and notifies
    * "Unknown Script" with the query; otherwise, when book details are to
    * be exported, the book's variables are added to the environment, and
    * the script is run there. `details` is what `bookDetails` gave and
    * `run` runs a path in an environment. */
  method RunScript(scripts: map<string, Script>, query: string, exportDetails: bool, details: Result<Book>,
                   pol: Policies, pathEscape: string -> string, queryEscape: string -> string,
                   env: map<string, string>, run: (string, map<string, string>) -> Result<string>)
    returns (r: ScriptRun)
    ensures query !in scripts <==> r == UnknownScript(query)
    ensures query in scripts && exportDetails && details.Err? ==> r == DetailsFailed(details.error)
    ensures query in scripts && !exportDetails ==> r == Outcome(scripts[query], run, env)
    ensures query in scripts && exportDetails && details.Ok? ==>
      exists vars :: IsVariables(vars, KeptData(RawData(pol, details.value)), pathEscape, queryEscape) &&
        r == Outcome(scripts[query], run, env + vars)
  {
    if query !in scripts {
      return UnknownScript(query);
    }
    var s := scripts[query];
    var environ := env;
    if exportDetails {
      if details.Err? {
        return DetailsFailed(details.error);
      }
      var vars := BookVariables(pol, details.value, pathEscape, queryEscape);
      environ := environ + vars;
    }
    var out := run(s.path, environ);
    if out.Err? {
      return RunFailed(s.name, out.error);
    }
    return Ran(s.path, environ, out.value);
  }
}
