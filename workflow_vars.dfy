/** The release helper vars.py: before a commit, `save_vars` moves the
  * user's own workflow variables out of info.plist into vars.json
  * (deleting the `ACTION_` ones and clearing the `USER_` ones); after
  * it, `add_vars` writes them back.
  *
  * The two files are the fields of `Files`: the plist's variables and
  * the JSON map, absent until first written. Reading and writing them
  * whole is all the script does with them. */
module WorkflowVars {
  import opened Wrappers
  import opened Strings

  /** Variables `save_vars` never touches. */
  const Whitelist: set<string> := {"ACTION_DEFAULT", "ACTION_ALT"}

  /** A variable `save_vars` deletes from the plist. */
  predicate Deleted(key: string, value: string)
  {
    value != "" && key !in Whitelist && HasPrefix(key, "ACTION_")
  }

  /** A variable `save_vars` sets to "" in the plist. */
  predicate Cleared(key: string, value: string)
  {
    value != "" && key !in Whitelist && HasPrefix(key, "USER_")
  }

  /** No variable is both deleted and cleared. */
  lemma DeletedNotCleared(key: string, value: string)
    ensures !(Deleted(key, value) && Cleared(key, value))
  {
    assert HasPrefix(key, "ACTION_") ==> key[..7][0] == 'A';
    assert HasPrefix(key, "USER_") ==> key[..5][0] == 'U';
  }

  /** The variables saved to vars.json: those deleted or cleared, with
    * their values. */
  function Saved(vars: map<string, string>): map<string, string>
  {
    map k | k in vars && (Deleted(k, vars[k]) || Cleared(k, vars[k])) :: vars[k]
  }

  /** The plist's variables after `save_vars`. */
  function Stripped(vars: map<string, string>): map<string, string>
  {
    map k | k in vars && !Deleted(k, vars[k]) :: if Cleared(k, vars[k]) then "" else vars[k]
  }

  /** `add_vars` writing every saved variable back into the plist. */
  function Restored(vars: map<string, string>, saved: map<string, string>): map<string, string>
  {
    vars + saved
  }

  /** Saving and then adding back gives the original variables. */
  lemma SaveAddRoundTrip(vars: map<string, string>)
    ensures Restored(Stripped(vars), Saved(vars)) == vars
  {
    var r := Restored(Stripped(vars), Saved(vars));
    assert r.Keys == vars.Keys;
    forall k | k in vars
      ensures r[k] == vars[k]
    {
      DeletedNotCleared(k, vars[k]);
    }
  }

  /** After `save_vars` there is nothing left to save. */
  lemma SaveIdempotent(vars: map<string, string>)
    ensures Saved(Stripped(vars)) == map[]
    ensures Stripped(Stripped(vars)) == Stripped(vars)
  {
    var s := Stripped(vars);
    forall k | k in s
      ensures !Deleted(k, s[k]) && !Cleared(k, s[k])
    {
      DeletedNotCleared(k, vars[k]);
    }
    assert Saved(s).Keys == {};
  }

  /** What is saved: exactly the non-empty, non-whitelisted `ACTION_` and
    * `USER_` variables. What stays: everything else unchanged, the
    * `USER_` variables emptied. */
  lemma SavedVariables(vars: map<string, string>, k: string)
    ensures k in Saved(vars) <==>
      k in vars && vars[k] != "" && k !in Whitelist && (HasPrefix(k, "ACTION_") || HasPrefix(k, "USER_"))
    ensures k in Stripped(vars) <==> k in vars && !Deleted(k, vars[k])
    ensures k in vars && !Deleted(k, vars[k]) && !Cleared(k, vars[k]) ==> Stripped(vars)[k] == vars[k]
    ensures k in vars && Cleared(k, vars[k]) ==> k in Stripped(vars) && Stripped(vars)[k] == ""
  {
    if k in vars {
      DeletedNotCleared(k, vars[k]);
    }
  }

  /** Progress of the `save_vars` loop: the variables already visited
    * are recorded in `saved` and deleted or cleared in `data`; the rest
    * are as they were. */
  ghost predicate SaveProgress(vars: map<string, string>, todo: set<string>,
                               saved: map<string, string>, data: map<string, string>)
  {
    (forall k :: k in saved <==> k in vars && k !in todo && (Deleted(k, vars[k]) || Cleared(k, vars[k]))) &&
    (forall k :: k in saved ==> saved[k] == vars[k]) &&
    (forall k :: k in data <==> k in vars && (k in todo || !Deleted(k, vars[k]))) &&
    (forall k :: k in data ==> data[k] == if k !in todo && Cleared(k, vars[k]) then "" else vars[k])
  }

  lemma SaveStart(vars: map<string, string>)
    ensures SaveProgress(vars, vars.Keys, map[], vars)
  {
  }

  lemma SaveFinish(vars: map<string, string>, saved: map<string, string>, data: map<string, string>)
    requires SaveProgress(vars, {}, saved, data)
    ensures saved == Saved(vars) && data == Stripped(vars)
    ensures saved == map[] ==> data == vars
  {
    if saved == map[] {
      forall k | k in vars
        ensures !Deleted(k, vars[k]) && !Cleared(k, vars[k])
      {
        assert k !in saved;
      }
    }
  }

  /** One visited variable that is neither deleted nor cleared. */
  lemma SaveKeep(vars: map<string, string>, todo: set<string>, saved: map<string, string>,
                 data: map<string, string>, key: string)
    requires SaveProgress(vars, todo, saved, data) && key in todo && key in vars
    requires !Deleted(key, vars[key]) && !Cleared(key, vars[key])
    ensures SaveProgress(vars, todo - {key}, saved, data)
  {
  }

  /** One visited variable that is deleted. */
  lemma SaveDelete(vars: map<string, string>, todo: set<string>, saved: map<string, string>,
                   data: map<string, string>, key: string)
    requires SaveProgress(vars, todo, saved, data) && key in todo && key in vars
    requires Deleted(key, vars[key])
    ensures SaveProgress(vars, todo - {key}, saved[key := vars[key]], data - {key})
  {
    DeletedNotCleared(key, vars[key]);
  }

  /** One visited variable that is cleared. */
  lemma SaveClear(vars: map<string, string>, todo: set<string>, saved: map<string, string>,
                  data: map<string, string>, key: string)
    requires SaveProgress(vars, todo, saved, data) && key in todo && key in vars
    requires Cleared(key, vars[key])
    ensures SaveProgress(vars, todo - {key}, saved[key := vars[key]], data[key := ""])
  {
    DeletedNotCleared(key, vars[key]);
  }

  /** Progress of the `add_vars` loop: the saved variables already visited
    * override the plist's. */
  ghost predicate AddProgress(base: map<string, string>, saved: map<string, string>,
                              todo: set<string>, data: map<string, string>)
  {
    (forall k :: k in data <==> k in base || (k in saved && k !in todo)) &&
    (forall k :: k in data ==> data[k] == if k in saved && k !in todo then saved[k] else base[k])
  }

  lemma AddFinish(base: map<string, string>, saved: map<string, string>, data: map<string, string>)
    requires AddProgress(base, saved, {}, data)
    ensures data == Restored(base, saved)
  {
  }

  class Files {
    /** The `variables` of info.plist. */
    var plist: map<string, string>
    /** vars.json, once written. */
    var varCache: Option<map<string, string>>

    constructor (plist: map<string, string>, varCache: Option<map<string, string>>)
      ensures this.plist == plist && this.varCache == varCache
    {
      this.plist := plist;
      this.varCache := varCache;
    }

    /** `save_vars`: the loop over the variables, deleting and clearing in
      * the plist's copy and recording in `saved`. Both files are written
      * only when something was recorded. */
    method SaveVars() returns (saved: map<string, string>)
      modifies this
      ensures saved == Saved(old(plist))
      ensures saved != map[] ==> plist == Stripped(old(plist)) && varCache == Some(saved)
      ensures saved == map[] ==> plist == old(plist) && varCache == old(varCache)
    {
      var vars := plist;
      var data := plist;
      saved := map[];
      var todo := vars.Keys;
      SaveStart(vars);
      while todo != {}
        invariant todo <= vars.Keys
        invariant SaveProgress(vars, todo, saved, data)
        invariant plist == vars && varCache == old(varCache)
        decreases |todo|
      {
        var key :| key in todo;
        var value := vars[key];
        if value == "" || key in Whitelist {
          SaveKeep(vars, todo, saved, data, key);
          todo := todo - {key};
          continue;
        }
        if HasPrefix(key, "ACTION_") {
          SaveDelete(vars, todo, saved, data, key);
          saved := saved[key := value];
          data := data - {key};
        } else if HasPrefix(key, "USER_") {
          SaveClear(vars, todo, saved, data, key);
          saved := saved[key := value];
          data := data[key := ""];
        } else {
          SaveKeep(vars, todo, saved, data, key);
        }
        todo := todo - {key};
      }
      SaveFinish(vars, saved, data);
      if saved != map[] {
        varCache := Some(saved);
        plist := data;
      }
    }

    /** `add_vars`: every variable of vars.json written into the plist. A
      * missing vars.json is an error and changes nothing. */
    method AddVars() returns (err: Option<string>)
      modifies this`plist
      ensures old(varCache).None? ==> err == Some("no vars.json") && plist == old(plist)
      ensures old(varCache).Some? ==> err.None? && plist == Restored(old(plist), old(varCache).value)
    {
      if varCache.None? {
        return Some("no vars.json");
      }
      var saved := varCache.value;
      var base := plist;
      var data := plist;
      var todo := saved.Keys;
      while todo != {}
        invariant todo <= saved.Keys
        invariant AddProgress(base, saved, todo, data)
        invariant plist == base
        decreases |todo|
      {
        var key :| key in todo;
        data := data[key := saved[key]];
        todo := todo - {key};
      }
      AddFinish(base, saved, data);
      plist := data;
      return None;
    }

    /** `main`: `--save` saves, anything else adds back. */
    method Run(save: bool) returns (err: Option<string>)
      modifies this
      ensures save ==>
        err.None? &&
        (if Saved(old(plist)) != map[] then plist == Stripped(old(plist)) && varCache == Some(Saved(old(plist)))
         else plist == old(plist) && varCache == old(varCache))
      ensures !save && old(varCache).None? ==> err.Some? && plist == old(plist) && varCache == old(varCache)
      ensures !save && old(varCache).Some? ==>
        err.None? && plist == Restored(old(plist), old(varCache).value) && varCache == old(varCache)
    {
      if save {
        var _ := SaveVars();
        return None;
      }
      err := AddVars();
    }

    /** A save followed by an add gives back the original variables, when
      * there was something to save. With nothing to save, vars.json is
      * left as it was, and the add writes back what an earlier save
      * left there. */
    method SaveThenAdd() returns (err: Option<string>)
      modifies this
      ensures Saved(old(plist)) != map[] ==> err.None? && plist == old(plist)
      ensures Saved(old(plist)) == map[] && old(varCache).Some? ==>
        err.None? && plist == Restored(old(plist), old(varCache).value)
      ensures Saved(old(plist)) == map[] && old(varCache).None? ==> err.Some? && plist == old(plist)
    {
      SaveAddRoundTrip(plist);
      var _ := SaveVars();
      err := AddVars();
    }
  }
}
