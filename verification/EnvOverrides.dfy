/** Temporary environment overrides: what is saved, and that restoring gives the environment back. */
module EnvOverrides {
  import opened Common

  type Env = map<string, string>
  type Saved = map<string, Option<string>>

  function Lookup(env: Env, key: string): Option<string> {
    if key in env then Some(env[key]) else None
  }

  /** The environment after writing every override. */
  function Overridden(env: Env, overrides: Env): Env { env + overrides }

  function Previous(env: Env, overrides: Env): Saved {
    map k | k in overrides :: Lookup(env, k)
  }

  /** Saved keys get their old value, or disappear if they had none. */
  function Restored(env: Env, previous: Saved): Env {
    map k | k in env.Keys + previous.Keys && (k in previous ==> previous[k].Some?) ::
      if k in previous then previous[k].value else env[k]
  }

  lemma StartOverride(env: Env, overrides: Env)
    ensures Previous(env, overrides - overrides.Keys) == map[]
    ensures Overridden(env, overrides - overrides.Keys) == env
  {
    assert overrides - overrides.Keys == map[];
  }

  /** One more key written and saved; its own old value is still in place. */
  lemma OverrideStep(env: Env, overrides: Env, keys: set<string>, key: string)
    requires key in keys && keys <= overrides.Keys
    ensures var before, after := overrides - keys, overrides - (keys - {key});
      && Previous(env, after) == Previous(env, before)[key := Lookup(Overridden(env, before), key)]
      && Overridden(env, after) == Overridden(env, before)[key := overrides[key]]
  {
  }

  lemma PreviousMeans(env: Env, overrides: Env)
    ensures var previous := Previous(env, overrides);
      && previous.Keys == overrides.Keys
      && forall k :: k in overrides ==> previous[k] == if k in env then Some(env[k]) else None
  {
  }

  lemma RestoredMeans(env: Env, previous: Saved)
    ensures var vars := Restored(env, previous);
      && (forall k :: k !in previous ==> Lookup(vars, k) == Lookup(env, k))
      && (forall k :: k in previous ==> Lookup(vars, k) == previous[k])
  {
  }

  lemma StartRestore(env: Env, previous: Saved)
    ensures Restored(env, previous - previous.Keys) == env
  {
    assert previous - previous.Keys == map[];
  }

  /** One more key put back or removed. */
  lemma RestoreStep(env: Env, previous: Saved, keys: set<string>, key: string)
    requires key in keys && keys <= previous.Keys
    ensures var before := Restored(env, previous - keys);
      Restored(env, previous - (keys - {key})) ==
        if previous[key].None? then before - {key} else before[key := previous[key].value]
  {
  }

  /** `os.environ`. */
  class Environment {
    var vars: Env

    constructor (vars: Env)
      ensures this.vars == vars
    {
      this.vars := vars;
    }

    method WithEnv(overrides: Env) returns (previous: Saved)
      modifies this
      ensures vars == Overridden(old(vars), overrides)
      ensures previous == Previous(old(vars), overrides)
      ensures vars == old(vars) + overrides && previous.Keys == overrides.Keys
      ensures forall k :: k in overrides ==> previous[k] == if k in old(vars) then Some(old(vars)[k]) else None
    {
      hide Previous;
      StartOverride(vars, overrides);
      previous := map[];
      var keys := overrides.Keys;
      while keys != {}
        invariant keys <= overrides.Keys
        invariant previous == Previous(old(vars), overrides - keys)
        invariant vars == Overridden(old(vars), overrides - keys)
        decreases keys
      {
        var key :| key in keys;
        OverrideStep(old(vars), overrides, keys, key);
        previous := previous[key := Lookup(vars, key)];
        vars := vars[key := overrides[key]];
        keys := keys - {key};
      }
      assert overrides - {} == overrides;
      PreviousMeans(old(vars), overrides);
    }

    method RestoreEnv(previous: Saved)
      modifies this
      ensures vars == Restored(old(vars), previous)
      ensures forall k :: k !in previous ==> Lookup(vars, k) == Lookup(old(vars), k)
      ensures forall k :: k in previous ==> (k in vars <==> previous[k].Some?)
      ensures forall k :: k in previous && k in vars ==> Some(vars[k]) == previous[k]
    {
      hide Restored;
      StartRestore(vars, previous);
      var keys := previous.Keys;
      while keys != {}
        invariant keys <= previous.Keys
        invariant vars == Restored(old(vars), previous - keys)
        decreases keys
      {
        var key :| key in keys;
        RestoreStep(old(vars), previous, keys, key);
        if previous[key].None? {
          vars := vars - {key};
        } else {
          vars := vars[key := previous[key].value];
        }
        keys := keys - {key};
      }
      assert previous - {} == previous;
      RestoredMeans(old(vars), previous);
    }
  }

  /** Restoring undoes the override whatever happened to the overridden keys in between. */
  lemma RestoreUndoesOverride(env: Env, overrides: Env, later: Env)
    requires forall k :: k !in overrides ==> Lookup(later, k) == Lookup(Overridden(env, overrides), k)
    ensures Restored(later, Previous(env, overrides)) == env
  {
    var back := Restored(later, Previous(env, overrides));
    forall k
      ensures Lookup(back, k) == Lookup(env, k)
    {
    }
    SameLookups(back, env);
  }

  lemma SameLookups(a: Env, b: Env)
    requires forall k :: Lookup(a, k) == Lookup(b, k)
    ensures a == b
  {
    forall k: string
      ensures k in a <==> k in b
      ensures k in a ==> a[k] == b[k]
    {
      assert Lookup(a, k) == Lookup(b, k);
    }
  }

  // ----- well-nested overrides

  /** Code that writes variables, may raise, and brackets parts of itself in override/restore. */
  datatype Script =
    | SetVar(key: string, value: string)
    | PopVar(key: string)
    | Raise
    | Then(first: Script, second: Script)
    | Scoped(overrides: Env, body: Script)

  datatype Outcome = Outcome(env: Env, raised: bool)

  /** A scope restores in its `finally` part, also when the body raises. */
  function Run(s: Script, env: Env): Outcome {
    match s
    case SetVar(key, value) => Outcome(env[key := value], false)
    case PopVar(key) => Outcome(env - {key}, false)
    case Raise => Outcome(env, true)
    case Then(first, second) =>
      var o := Run(first, env);
      if o.raised then o else Run(second, o.env)
    case Scoped(overrides, body) =>
      var o := Run(body, Overridden(env, overrides));
      Outcome(Restored(o.env, Previous(env, overrides)), o.raised)
  }

  /** Keys written outside every scope that overrides them. */
  function Escaping(s: Script): set<string> {
    match s
    case SetVar(key, _) => {key}
    case PopVar(key) => {key}
    case Raise => {}
    case Then(first, second) => Escaping(first) + Escaping(second)
    case Scoped(overrides, body) => Escaping(body) - overrides.Keys
  }

  /** Any nesting of scopes leaves every key alone that no inner code writes outside its scopes. */
  lemma {:induction false} ScopesContainTheirWrites(s: Script, env: Env, key: string)
    requires key !in Escaping(s)
    ensures Lookup(Run(s, env).env, key) == Lookup(env, key)
  {
    match s
    case SetVar(_, _) =>
    case PopVar(_) =>
    case Raise =>
    case Then(first, second) =>
      ScopesContainTheirWrites(first, env, key);
      ScopesContainTheirWrites(second, Run(first, env).env, key);
    case Scoped(overrides, body) =>
      if key !in overrides {
        ScopesContainTheirWrites(body, Overridden(env, overrides), key);
      }
  }

  /** What comes after a raise is not run; without one the second part starts where the first ended. */
  lemma RaiseEndsTheRun(first: Script, second: Script, env: Env)
    ensures Run(first, env).raised ==> Run(Then(first, second), env) == Run(first, env)
    ensures !Run(first, env).raised ==> Run(Then(first, second), env) == Run(second, Run(first, env).env)
  {
  }

  /** In particular well-nested override/restore pairs compose to the identity, raising or not. */
  lemma WellNestedIsIdentity(s: Script, env: Env)
    requires Escaping(s) == {}
    ensures Run(s, env).env == env
  {
    forall k
      ensures Lookup(Run(s, env).env, k) == Lookup(env, k)
    {
      ScopesContainTheirWrites(s, env, k);
    }
    SameLookups(Run(s, env).env, env);
  }
}
