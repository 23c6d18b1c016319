/** The user's hotkeys (pkg/cli/modifiers.go): the environment read as a
  * map, and the `ACTION_<keys>=<script>` entries turned into modifiers.
  *
  * The process environment is the parameter `environ`, the scripts are
  * those `LoadScripts` found. */
module Modifiers {
  import opened Wrappers
  import opened Strings
  import opened Seqs
  import ScriptCommands

  /** The modifier keys a hotkey may name. */
  const ValidMods: set<string> := {"cmd", "alt", "opt", "ctrl", "shift", "fn"}

  /** An `=` occurs at `i` exactly when that character is `=`. */
  lemma EqualsAt(s: string, i: nat)
    ensures OccursAt(s, "=", i) <==> i < |s| && s[i] == '='
  {
    if i < |s| && s[i] == '=' {
      assert s[i..i + 1] == "=";
    }
  }

  /** The first `=` of an entry, or -1. */
  lemma IndexOfEquals(s: string)
    ensures Index(s, "=") == -1 <==> '=' !in s
    ensures Index(s, "=") >= 0 ==> Index(s, "=") < |s| && s[Index(s, "=")] == '=' && '=' !in s[..Index(s, "=")]
  {
    var i := Index(s, "=");
    if i >= 0 {
      EqualsAt(s, i);
      forall j | 0 <= j < i
        ensures s[j] != '='
      {
        EqualsAt(s, j);
      }
    } else if '=' in s {
      var j :| 0 <= j < |s| && s[j] == '=';
      EqualsAt(s, j);
      assert Contains(s, "=") by {
        assert OccursAt(s, "=", j);
      }
    }
  }

  /** One entry of `parseEnv`: split at its first `=`; an entry without
    * one, or whose first `=` is its last character, is skipped. */
  function EnvEntry(s: string): Option<(string, string)>
  {
    IndexOfEquals(s);
    var i := Index(s, "=");
    if i < 0 || i == |s| - 1 then None else Some((s[0..i], s[i + 1..]))
  }

  /** An entry is skipped exactly when it has no `=` or only a final one;
    * otherwise it is the key, `=`, and a non-empty value, and the key has
    * no `=`. */
  lemma EnvEntryOf(s: string)
    ensures EnvEntry(s).None? <==> '=' !in s || '=' !in s[..|s| - 1]
    ensures EnvEntry(s).Some? ==>
      var (k, v) := EnvEntry(s).value;
      s == k + "=" + v && '=' !in k && v != ""
  {
    IndexOfEquals(s);
    var i := Index(s, "=");
    if i < 0 || i == |s| - 1 {
      assert i >= 0 ==> s[..|s| - 1] == s[..i];
    } else {
      assert s == s[0..i] + "=" + s[i + 1..];
      assert s[i] in s[..|s| - 1];
    }
  }

  /** An entry written as `key=value` is read back as that pair when the
    * key has no `=` and the value is not empty. */
  lemma EnvEntryRoundTrip(key: string, value: string)
    requires '=' !in key && value != ""
    ensures EnvEntry(key + "=" + value) == Some((key, value))
  {
    var s := key + "=" + value;
    assert s[|key|] == '=';
    assert s[..|key|] == key;
    IndexOfEquals(s);
    var i := Index(s, "=");
    assert i == |key|;
    assert s[i + 1..] == value;
  }

  /** An entry read into the map: a skipped entry changes nothing. */
  function Put(m: map<string, string>, e: Option<(string, string)>): map<string, string>
  {
    if e.None? then m else m[e.value.0 := e.value.1]
  }

  /** The map `parseEnv` builds, entry by entry. */
  function EnvMap(environ: seq<string>): map<string, string>
  {
    if environ == [] then map[] else Put(EnvMap(environ[..|environ| - 1]), EnvEntry(environ[|environ| - 1]))
  }

  /** Whether entry `i` sets `key`. */
  predicate Sets(environ: seq<string>, i: int, key: string)
    requires 0 <= i < |environ|
  {
    EnvEntry(environ[i]).Some? && EnvEntry(environ[i]).value.0 == key
  }

  /** An entry that does not set `key` leaves it as it was. */
  lemma PutOther(m: map<string, string>, e: Option<(string, string)>, key: string)
    requires e.None? || e.value.0 != key
    ensures key in Put(m, e) <==> key in m
    ensures key in m ==> Put(m, e)[key] == m[key]
  {
  }

  /** The entries before the last set a key as they do in the prefix. */
  lemma SetsPrefix(environ: seq<string>, key: string)
    requires environ != []
    ensures forall i :: 0 <= i < |environ| - 1 ==>
      Sets(environ, i, key) == Sets(environ[..|environ| - 1], i, key)
  {
    forall i | 0 <= i < |environ| - 1
      ensures Sets(environ, i, key) == Sets(environ[..|environ| - 1], i, key)
    {
      assert environ[i] == environ[..|environ| - 1][i];
    }
  }

  /** A key is in the map exactly when some entry sets it, and it holds
    * the value of the last entry that does: later duplicates win. */
  lemma {:induction false} EnvMapLatest(environ: seq<string>, key: string)
    ensures key in EnvMap(environ) <==> exists i :: 0 <= i < |environ| && Sets(environ, i, key)
    ensures key in EnvMap(environ) ==>
      exists i :: 0 <= i < |environ| && Sets(environ, i, key) &&
        EnvMap(environ)[key] == EnvEntry(environ[i]).value.1 &&
        forall j :: i < j < |environ| ==> !Sets(environ, j, key)
  {
    if environ != [] {
      var n := |environ| - 1;
      var init := environ[..n];
      EnvMapLatest(init, key);
      SetsPrefix(environ, key);
      if Sets(environ, n, key) {
        assert EnvMap(environ)[key] == EnvEntry(environ[n]).value.1;
      } else {
        PutOther(EnvMap(init), EnvEntry(environ[n]), key);
        if exists i :: 0 <= i < |environ| && Sets(environ, i, key) {
          var i :| 0 <= i < |environ| && Sets(environ, i, key);
          assert i != n;
          assert Sets(init, i, key);
        }
        if key in EnvMap(init) {
          var i :| 0 <= i < |init| && Sets(init, i, key) &&
            EnvMap(init)[key] == EnvEntry(init[i]).value.1 &&
            forall j :: i < j < |init| ==> !Sets(init, j, key);
          assert init[i] == environ[i];
          assert Sets(environ, i, key) && EnvMap(environ)[key] == EnvEntry(environ[i]).value.1;
        }
      }
    }
  }

  /** `parseEnv`: the loop over the environment. */
  method ParseEnv(environ: seq<string>) returns (env: map<string, string>)
    ensures env == EnvMap(environ)
  {
    env := map[];
    for n := 0 to |environ|
      invariant env == EnvMap(environ[..n])
    {
      var s := environ[n];
      assert environ[..n + 1][..n] == environ[..n] && environ[..n + 1][n] == s;
      IndexOfEquals(s);
      var i := Index(s, "=");
      if i < 0 || i == |s| - 1 {
        assert EnvEntry(s).None?;
        continue;
      }
      assert EnvEntry(s) == Some((s[0..i], s[i + 1..]));
      env := env[s[0..i] := s[i + 1..]];
    }
    assert environ[..|environ|] == environ;
  }

  /** A hotkey: the modifier keys and the script it runs. */
  datatype Modifier = Modifier(keys: seq<string>, script: ScriptCommands.Script)

  function IsMod(): string -> bool
  {
    (s: string) => s in ValidMods
  }

  /** The modifier keys a name spells: lower-cased and split at `_`,
    * keeping the valid keys in order. */
  function ModKeys(s: string): seq<string>
  {
    Filter(IsMod(), Split(ToLower(s), '_'))
  }

  /** Every key named is a valid modifier, and every valid modifier among
    * the parts is named. */
  lemma ModKeysValid(s: string, m: string)
    ensures m in ModKeys(s) <==> m in ValidMods && m in Split(ToLower(s), '_')
  {
    FilterMembers(IsMod(), Split(ToLower(s), '_'), m);
  }

  /** The modifier keys of an `ACTION_` variable: those the rest of its
    * name spells. */
  function KeysOf(k: string): seq<string>
    requires |k| >= 7
  {
    ModKeys(k[7..])
  }

  /** An environment entry `LoadModifiers` turns into a modifier: an
    * `ACTION_` variable other than `ACTION_DEFAULT`, naming at least one
    * valid key and a known script. */
  predicate Selected(env: map<string, string>, scripts: map<string, ScriptCommands.Script>, k: string)
  {
    k in env && k != "ACTION_DEFAULT" && HasPrefix(k, "ACTION_") && KeysOf(k) != [] && env[k] in scripts
  }

  /** The selected entries among those already visited (all but `todo`)
    * have been collected, each once, with their modifiers. */
  ghost predicate Collected(env: map<string, string>, scripts: map<string, ScriptCommands.Script>,
                            todo: set<string>, mods: seq<Modifier>, order: seq<string>)
  {
    |mods| == |order| &&
    (forall k :: k in order <==> k !in todo && Selected(env, scripts, k)) &&
    (forall i, j :: 0 <= i < j < |order| ==> order[i] != order[j]) &&
    (forall i :: 0 <= i < |order| ==>
      Selected(env, scripts, order[i]) && mods[i] == Modifier(KeysOf(order[i]), scripts[env[order[i]]]))
  }

  /** Visiting an entry that is not selected collects nothing. */
  lemma CollectedSkip(env: map<string, string>, scripts: map<string, ScriptCommands.Script>,
                      todo: set<string>, mods: seq<Modifier>, order: seq<string>, k: string)
    requires Collected(env, scripts, todo, mods, order) && k in todo && !Selected(env, scripts, k)
    ensures Collected(env, scripts, todo - {k}, mods, order)
  {
  }

  /** Visiting a selected entry collects its modifier. */
  lemma CollectedAdd(env: map<string, string>, scripts: map<string, ScriptCommands.Script>,
                     todo: set<string>, mods: seq<Modifier>, order: seq<string>, k: string)
    requires Collected(env, scripts, todo, mods, order) && k in todo && Selected(env, scripts, k)
    ensures Collected(env, scripts, todo - {k}, mods + [Modifier(KeysOf(k), scripts[env[k]])], order + [k])
  {
  }

  /** `LoadModifiers`, given the parsed environment and the scripts: the
    * modifiers of exactly the selected entries, each once, in the
    * environment map's (unspecified) order, recorded in `order`. */
  method LoadModifiers(env: map<string, string>, scripts: map<string, ScriptCommands.Script>)
    returns (mods: seq<Modifier>, ghost order: seq<string>)
    ensures |mods| == |order|
    ensures forall k :: k in order <==> Selected(env, scripts, k)
    ensures forall i, j :: 0 <= i < j < |order| ==> order[i] != order[j]
    ensures forall i :: 0 <= i < |order| ==>
      Selected(env, scripts, order[i]) && mods[i] == Modifier(KeysOf(order[i]), scripts[env[order[i]]])
    ensures forall m :: m in mods ==> m.keys != [] && m.script in scripts.Values
  {
    mods, order := [], [];
    var todo := env.Keys;
    while todo != {}
      invariant todo <= env.Keys
      invariant Collected(env, scripts, todo, mods, order)
      decreases |todo|
    {
      var k :| k in todo;
      ghost var visiting := todo;
      todo := todo - {k};
      var name := env[k];
      if k == "ACTION_DEFAULT" || !HasPrefix(k, "ACTION_") {
        CollectedSkip(env, scripts, visiting, mods, order, k);
        continue;
      }
      var keys := ActionKeys(k);
      if |keys| == 0 {
        CollectedSkip(env, scripts, visiting, mods, order, k);
        continue;
      }
      if name !in scripts {
        CollectedSkip(env, scripts, visiting, mods, order, k);
        continue;
      }
      CollectedAdd(env, scripts, visiting, mods, order, k);
      mods := mods + [Modifier(keys, scripts[name])];
      order := order + [k];
    }
    forall m | m in mods
      ensures m.keys != [] && m.script in scripts.Values
    {
      var i :| 0 <= i < |mods| && mods[i] == m;
    }
  }

  /** The keys of an `ACTION_` variable, by the inner loop. */
  method ActionKeys(k: string) returns (keys: seq<string>)
    requires |k| >= 7
    ensures keys == KeysOf(k)
  {
    keys := ModifierKeys(k[7..]);
  }

  /** The inner loop of `LoadModifiers` over the parts of the name. */
  method ModifierKeys(s: string) returns (keys: seq<string>)
    ensures keys == ModKeys(s)
  {
    var parts := Split(ToLower(s), '_');
    keys := [];
    for j := 0 to |parts|
      invariant keys == Filter(IsMod(), parts[..j])
    {
      FilterSnoc(IsMod(), parts[..j], parts[j]);
      assert parts[..j + 1] == parts[..j] + [parts[j]];
      if parts[j] in ValidMods {
        keys := keys + [parts[j]];
      }
    }
    assert parts[..|parts|] == parts;
  }
}
