/** The URL templates of the first version (modifiers.go): an environment
  * variable `URL_<keys>=<template>` binds a hotkey to a URL template,
  * and `NAME_<keys>` names it. `For` fills a template from a book's
  * data.
  *
  * The process environment is the parameter `environ`, `os.Getenv` the
  * parameter `getenv`; `os.Expand` and the two URL escapes are
  * parameters too. */
module LegacyModifiers {
  import opened Wrappers
  import opened Strings
  import Modifiers
  import opened BookVars
  import LegacyGoodreads

  /** A URL template bound to modifier keys. */
  datatype Modifier = Modifier(name: string, keys: seq<string>, value: string)

  /** `newModifier`, with the `NAME_` variable looked up by `getenv`: the
    * keys the name spells, or an error when it spells none. */
  method NewModifier(key: string, value: string, getenv: string -> string) returns (r: Result<Modifier>)
    ensures Modifiers.ModKeys(key) == [] ==> r == Err("invalid modifiers: " + key)
    ensures Modifiers.ModKeys(key) != [] ==> r == Ok(Modifier(getenv("NAME_" + key), Modifiers.ModKeys(key), value))
  {
    var keys := Modifiers.ModifierKeys(key);
    if |keys| == 0 {
      return Err("invalid modifiers: " + key);
    }
    return Ok(Modifier(getenv("NAME_" + key), keys, value));
  }

  /** The modifier an environment entry gives, if any: a `URL_` variable
    * with a non-empty value whose name spells at least one key. */
  function ModifierOf(s: string, getenv: string -> string): Option<Modifier>
  {
    match Modifiers.EnvEntry(s)
    case None => None
    case Some((key, value)) =>
      if !HasPrefix(key, "URL_") then None
      else
        var k := key[4..];
        if Modifiers.ModKeys(k) == [] then None else Some(Modifier(getenv("NAME_" + k), Modifiers.ModKeys(k), value))
  }

  /** The modifiers of an environment, in its order. */
  function LoadedModifiers(environ: seq<string>, getenv: string -> string): seq<Modifier>
  {
    if environ == [] then []
    else
      var pre := LoadedModifiers(environ[..|environ| - 1], getenv);
      match ModifierOf(environ[|environ| - 1], getenv)
      case None => pre
      case Some(m) => pre + [m]
  }

  /** `LoadModifiers`: the loop over the environment, splitting each entry
    * at its first `=` as `parseEnv` does. */
  method LoadModifiers(environ: seq<string>, getenv: string -> string) returns (mods: seq<Modifier>)
    ensures mods == LoadedModifiers(environ, getenv)
  {
    mods := [];
    for n := 0 to |environ|
      invariant mods == LoadedModifiers(environ[..n], getenv)
    {
      var s := environ[n];
      assert environ[..n + 1][..n] == environ[..n] && environ[..n + 1][n] == s;
      Modifiers.IndexOfEquals(s);
      var i := Index(s, "=");
      if i < 0 || i == |s| - 1 {
        assert Modifiers.EnvEntry(s).None?;
        continue;
      }
      var key, value := s[0..i], s[i + 1..];
      assert Modifiers.EnvEntry(s) == Some((key, value));
      if !HasPrefix(key, "URL_") {
        continue;
      }
      key := key[4..];
      var m := NewModifier(key, value, getenv);
      if m.Ok? {
        mods := mods + [m.value];
      }
    }
    assert environ[..|environ|] == environ;
  }

  /** Every loaded modifier names at least one key, only valid modifier
    * keys, and a non-empty template. */
  lemma {:induction false} LoadedModifiersValid(environ: seq<string>, getenv: string -> string)
    ensures forall m :: m in LoadedModifiers(environ, getenv) ==>
      m.keys != [] && m.value != "" && forall k :: k in m.keys ==> k in Modifiers.ValidMods
  {
    if environ != [] {
      var s := environ[|environ| - 1];
      LoadedModifiersValid(environ[..|environ| - 1], getenv);
      match Modifiers.EnvEntry(s)
      case None =>
      case Some((key, value)) =>
        Modifiers.EnvEntryOf(s);
        if HasPrefix(key, "URL_") {
          forall k | k in Modifiers.ModKeys(key[4..])
            ensures k in Modifiers.ValidMods
          {
            Modifiers.ModKeysValid(key[4..], k);
          }
        }
    }
  }

  /** An entry `URL_<keys>=<template>` with a non-empty template gives its
    * modifier exactly when the keys name a valid modifier. */
  lemma URLEntry(keys: string, template: string, getenv: string -> string)
    requires '=' !in keys && template != ""
    ensures var m := ModifierOf("URL_" + keys + "=" + template, getenv);
      (m.Some? <==> Modifiers.ModKeys(keys) != []) &&
      (m.Some? ==> m.value == Modifier(getenv("NAME_" + keys), Modifiers.ModKeys(keys), template))
  {
    var key := "URL_" + keys;
    assert '=' !in key by {
      assert forall c :: c in key ==> c in "URL_" || c in keys;
    }
    Modifiers.EnvEntryRoundTrip(key, template);
    assert key + "=" + template == "URL_" + keys + "=" + template;
    assert key[..4] == "URL_" && key[4..] == keys;
  }

  /* ---------- filling a template ---------- */

  /** `lookup`: a name's value, and "" for a name the data lacks. */
  function Lookup(data: map<string, string>): (f: string -> string)
    ensures forall k :: k in data ==> f(k) == data[k]
    ensures forall k :: k !in data ==> f(k) == ""
  {
    (k: string) => if k in data then data[k] else ""
  }

  /** The suffix of each variant in `For`: the query-escaped value under
    * the field's own name, the path-escaped one under `Alt`, the raw one
    * under `Raw`. */
  function LegacySuffix(v: Variant): string
  {
    match v
    case Raw => "Raw"
    case Quoted => "Alt"
    case QuotedPlus => ""
  }

  function DataName(f: LegacyGoodreads.Field, v: Variant): string
  {
    LegacyGoodreads.FieldName(f) + LegacySuffix(v)
  }

  function DataNamer(): Namer<LegacyGoodreads.Field>
  {
    (f: LegacyGoodreads.Field, v: Variant) => DataName(f, v)
  }

  /** The variant a name ends in. */
  function LegacyVariantOf(s: string): Variant
  {
    if HasSuffix(s, "Raw") then Raw else if HasSuffix(s, "Alt") then Quoted else QuotedPlus
  }

  /** No field name ends in `Raw` or `Alt`. */
  lemma FieldNameEnds(f: LegacyGoodreads.Field)
    ensures !HasSuffix(LegacyGoodreads.FieldName(f), "Raw") && !HasSuffix(LegacyGoodreads.FieldName(f), "Alt")
  {
  }

  lemma VariantOfDataName(f: LegacyGoodreads.Field, v: Variant)
    ensures LegacyVariantOf(DataName(f, v)) == v
  {
    var n := LegacyGoodreads.FieldName(f);
    var s := DataName(f, v);
    FieldNameEnds(f);
    match v
    case Raw =>
      assert s[|s| - 3..] == "Raw";
    case Quoted =>
      assert s[|s| - 3..] == "Alt";
      assert s[|s| - 1] == 't';
    case QuotedPlus =>
      assert s == n;
  }

  lemma SameDataName(a: LegacyGoodreads.Field, v: Variant, b: LegacyGoodreads.Field, w: Variant)
    requires DataName(a, v) == DataName(b, w)
    ensures a == b && v == w
  {
    var s := DataName(a, v);
    VariantOfDataName(a, v);
    VariantOfDataName(b, w);
    assert LegacyGoodreads.FieldName(a) == s[..|s| - |LegacySuffix(v)|] == LegacyGoodreads.FieldName(b);
    LegacyGoodreads.FieldNameInjective(a, b);
  }

  /** No two template variables share a name. */
  lemma DataNamerInjective()
    ensures Injective(DataNamer())
  {
    forall a, v, b, w | DataNamer()(a, v) == DataNamer()(b, w)
      ensures a == b && v == w
    {
      SameDataName(a, v, b, w);
    }
  }

  /** The template variables of a book: the three variants of every data
    * field. */
  method TemplateData(b: LegacyGoodreads.Book, pathEscape: string -> string, queryEscape: string -> string)
    returns (data: map<string, string>)
    ensures IsSpread(data, LegacyGoodreads.Data(b), DataNamer(), pathEscape, queryEscape)
  {
    var fields := LegacyGoodreads.Data(b);
    data := map[];
    var todo := fields.Keys;
    ghost var done: map<LegacyGoodreads.Field, string> := map[];
    SpreadEmpty(DataNamer(), pathEscape, queryEscape);
    DataNamerInjective();
    while todo != {}
      invariant todo <= fields.Keys
      invariant done.Keys == fields.Keys - todo
      invariant forall f :: f in done ==> done[f] == fields[f]
      invariant IsSpread(data, done, DataNamer(), pathEscape, queryEscape)
      decreases |todo|
    {
      var k :| k in todo;
      var v := fields[k];
      var name := LegacyGoodreads.FieldName(k);
      SpreadAdd(data, done, DataNamer(), k, v, pathEscape, queryEscape);
      assert DataNamer()(k, Raw) == name + "Raw" && DataNamer()(k, Quoted) == name + "Alt";
      assert DataNamer()(k, QuotedPlus) == name;
      data := data[name + "Raw" := v];
      data := data[name + "Alt" := pathEscape(v)];
      data := data[name := queryEscape(v)];
      done := done[k := v];
      todo := todo - {k};
    }
    assert done == fields;
  }

  /** `Modifier.For`: the modifier's keys, and its template expanded with
    * the book's template variables, unknown names reading as "". */
  method For(m: Modifier, b: LegacyGoodreads.Book, pathEscape: string -> string, queryEscape: string -> string,
             expand: (string, string -> string) -> string) returns (keys: seq<string>, value: string)
    ensures keys == m.keys
    ensures exists data ::
      (IsSpread(data, LegacyGoodreads.Data(b), DataNamer(), pathEscape, queryEscape) &&
       value == expand(m.value, Lookup(data)))
  {
    var data := TemplateData(b, pathEscape, queryEscape);
    return m.keys, expand(m.value, Lookup(data));
  }

  /** Each field gives three template variables: `<Field>` query-escaped,
    * `<Field>Alt` path-escaped and `<Field>Raw` as it is. */
  lemma TemplateVariables(data: map<string, string>, b: LegacyGoodreads.Book,
                          pathEscape: string -> string, queryEscape: string -> string, f: LegacyGoodreads.Field)
    requires IsSpread(data, LegacyGoodreads.Data(b), DataNamer(), pathEscape, queryEscape)
    ensures var name, v := LegacyGoodreads.FieldName(f), LegacyGoodreads.FieldValue(b, f);
      name in data && data[name] == queryEscape(v) &&
      name + "Alt" in data && data[name + "Alt"] == pathEscape(v) &&
      name + "Raw" in data && data[name + "Raw"] == v
  {
    LegacyGoodreads.AllFieldsComplete(f);
    var d := LegacyGoodreads.Data(b);
    assert f in d && d[f] == LegacyGoodreads.FieldValue(b, f);
    SpreadAt(data, d, DataNamer(), f, pathEscape, queryEscape);
    var n := DataNamer();
    assert n(f, QuotedPlus) == LegacyGoodreads.FieldName(f);
    assert n(f, Quoted) == LegacyGoodreads.FieldName(f) + "Alt";
    assert n(f, Raw) == LegacyGoodreads.FieldName(f) + "Raw";
  }

  /** Any other name in a template reads as "". */
  lemma TemplateOthersEmpty(data: map<string, string>, b: LegacyGoodreads.Book,
                            pathEscape: string -> string, queryEscape: string -> string, s: string)
    requires IsSpread(data, LegacyGoodreads.Data(b), DataNamer(), pathEscape, queryEscape)
    requires forall f, v :: s != DataName(f, v)
    ensures Lookup(data)(s) == ""
  {
  }
}
