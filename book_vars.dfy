/** The three variables `bookVariables` (pkg/cli/scripts.go) makes of each
  * data entry, for any way of naming them that keeps them apart. */
module BookVars {
  import opened Strings

  /** The three forms of each book variable. */
  datatype Variant = Raw | Quoted | QuotedPlus

  function Suffix(v: Variant): string
  {
    match v
    case Raw => ""
    case Quoted => "_QUOTED"
    case QuotedPlus => "_QUOTED_PLUS"
  }

  /** The variant a variable name ends in. */
  function VariantOf(s: string): Variant
  {
    if HasSuffix(s, "_QUOTED_PLUS") then QuotedPlus
    else if HasSuffix(s, "_QUOTED") then Quoted
    else Raw
  }

  /** A name that ends in neither suffix keeps its variants apart. */
  lemma VariantOfSuffix(base: string, v: Variant)
    requires !HasSuffix(base, "_QUOTED") && !HasSuffix(base, "_QUOTED_PLUS")
    ensures VariantOf(base + Suffix(v)) == v
  {
    var s := base + Suffix(v);
    match v
    case Raw =>
      assert s == base;
    case Quoted =>
      assert s[|s| - 7..] == "_QUOTED";
      assert s[|s| - 1] == 'D';
    case QuotedPlus =>
      assert s[|s| - 12..] == "_QUOTED_PLUS";
  }

  /** The value of a variant: as is, path-escaped or query-escaped. */
  function Escaped(v: Variant, value: string, pathEscape: string -> string, queryEscape: string -> string): string
  {
    match v
    case Raw => value
    case Quoted => pathEscape(value)
    case QuotedPlus => queryEscape(value)
  }

  /** A way of naming the variants of each key. */
  type Namer<!K> = (K, Variant) -> string

  ghost predicate Injective<K(!new)>(name: Namer<K>)
  {
    forall a, v, b, w :: name(a, v) == name(b, w) ==> a == b && v == w
  }

  /** `vars` holds the three variables of every key of `data`, named by
    * `name`, and nothing else. */
  ghost predicate IsSpread<K(!new)>(vars: map<string, string>, data: map<K, string>, name: Namer<K>,
                                   pathEscape: string -> string, queryEscape: string -> string)
  {
    (forall k, v :: k in data ==>
      name(k, v) in vars && vars[name(k, v)] == Escaped(v, data[k], pathEscape, queryEscape)) &&
    (forall s :: s in vars ==> exists k, v :: k in data && s == name(k, v))
  }

  /** At most one map is the spread of a data map. */
  lemma SpreadUnique<K(!new)>(a: map<string, string>, b: map<string, string>, data: map<K, string>,
                              name: Namer<K>, pathEscape: string -> string, queryEscape: string -> string)
    requires IsSpread(a, data, name, pathEscape, queryEscape)
    requires IsSpread(b, data, name, pathEscape, queryEscape)
    ensures a == b
  {
    forall s | s in a
      ensures s in b && a[s] == b[s]
    {
      var k, v :| k in data && s == name(k, v);
    }
    forall s | s in b
      ensures s in a
    {
      var k, v :| k in data && s == name(k, v);
    }
  }

  /** The three variables of one key of the data. */
  lemma SpreadAt<K(!new)>(vars: map<string, string>, data: map<K, string>, name: Namer<K>, k: K,
                          pathEscape: string -> string, queryEscape: string -> string)
    requires IsSpread(vars, data, name, pathEscape, queryEscape) && k in data
    ensures name(k, Raw) in vars && vars[name(k, Raw)] == data[k]
    ensures name(k, Quoted) in vars && vars[name(k, Quoted)] == pathEscape(data[k])
    ensures name(k, QuotedPlus) in vars && vars[name(k, QuotedPlus)] == queryEscape(data[k])
  {
    assert Escaped(Raw, data[k], pathEscape, queryEscape) == data[k];
    assert Escaped(Quoted, data[k], pathEscape, queryEscape) == pathEscape(data[k]);
    assert Escaped(QuotedPlus, data[k], pathEscape, queryEscape) == queryEscape(data[k]);
  }

  /** The spread of no data is empty. */
  lemma SpreadEmpty<K(!new)>(name: Namer<K>, pathEscape: string -> string, queryEscape: string -> string)
    ensures IsSpread(map[], map[], name, pathEscape, queryEscape)
  {
  }

  /** Adding a key adds its three variables, when the names keep every
    * variable apart. */
  lemma SpreadAdd<K(!new)>(vars: map<string, string>, data: map<K, string>, name: Namer<K>, k: K, value: string,
                           pathEscape: string -> string, queryEscape: string -> string)
    requires Injective(name) && k !in data
    requires IsSpread(vars, data, name, pathEscape, queryEscape)
    ensures IsSpread(vars[name(k, Raw) := value][name(k, Quoted) := pathEscape(value)]
                         [name(k, QuotedPlus) := queryEscape(value)],
                     data[k := value], name, pathEscape, queryEscape)
  {
    var out := vars[name(k, Raw) := value][name(k, Quoted) := pathEscape(value)]
      [name(k, QuotedPlus) := queryEscape(value)];
    var d := data[k := value];
    forall j, v | j in d
      ensures name(j, v) in out && out[name(j, v)] == Escaped(v, d[j], pathEscape, queryEscape)
    {
      if j == k {
        match v
        case Raw =>
          assert name(k, Raw) != name(k, Quoted) && name(k, Raw) != name(k, QuotedPlus);
        case Quoted =>
          assert name(k, Quoted) != name(k, QuotedPlus);
        case QuotedPlus =>
      } else {
        assert name(j, v) != name(k, Raw) && name(j, v) != name(k, Quoted) && name(j, v) != name(k, QuotedPlus);
      }
    }
    forall s | s in out
      ensures exists j, v :: j in d && s == name(j, v)
    {
      if s == name(k, Raw) || s == name(k, Quoted) || s == name(k, QuotedPlus) {
        assert k in d;
      } else {
        var j, v :| j in data && s == name(j, v);
        assert j in d;
      }
    }
  }
}
