/** What the environment operations promise: lookup finds the innermost
    binding, set! overwrites exactly that binding, define touches only the
    first frame, and extension puts a new frame in front of an unchanged
    base. */
module EnvironmentLaws {
  import opened Values
  import opened Pairs
  import opened Environment

  /** When values and variables line up, scanning a frame finds the first
      position of the variable or reports it absent. */
  lemma ScanMatchesFirstIndex(variable: Value, f: Frame)
    requires |f.vars| == |f.vals|
    ensures ScanFrame(variable, f) ==
      match FirstIndex(variable, f.vars)
      case Some(j) => Found(j)
      case None => Absent
  {
    var s := ScanFrame(variable, f);
    var r := FirstIndex(variable, f.vars);
    if s.Found? {
      assert f.vars[s.position] == variable;
      assert f.vars[r.value] == variable;
    }
  }

  /** There is at most one innermost binding. */
  lemma InnermostUnique(variable: Value, env: Env, frames: seq<Frame>, k: nat, j: nat, k': nat, j': nat)
    requires EnvOk(env, frames)
    requires Innermost(variable, env, frames, k, j) && Innermost(variable, env, frames, k', j')
    ensures k == k' && j == j'
  {
    assert frames[env[k]].vars[j] == variable;
    assert frames[env[k']].vars[j'] == variable;
  }

  /** lookupVariableValue returns the value at the position of the innermost
      binding, or, when the variable is bound nowhere, the "Unbound
      variable" message as an ordinary value. */
  lemma {:induction false} LookupFindsInnermost(name: string, env: Env, frames: seq<Frame>)
    requires StoreOk(frames) && EnvOk(env, frames)
    ensures LookupVariableValue(name, env, frames) ==
      match Locate(Sym(name), env, frames)
      case Some(p) => Ok(frames[env[p.0]].vals[p.1])
      case None => Ok(UnboundMessage(name))
    decreases |env|
  {
    if |env| > 0 {
      ScanMatchesFirstIndex(Sym(name), frames[env[0]]);
      assert EnvOk(env[1..], frames);
      LookupFindsInnermost(name, env[1..], frames);
    }
  }

  /** The same, stated without the search: whichever position is the
      innermost binding, lookup returns the value there. */
  lemma LookupValueAtInnermost(name: string, env: Env, frames: seq<Frame>, k: nat, j: nat)
    requires StoreOk(frames) && EnvOk(env, frames)
    requires Innermost(Sym(name), env, frames, k, j)
    ensures j < |frames[env[k]].vals| && LookupVariableValue(name, env, frames) == Ok(frames[env[k]].vals[j])
  {
    LookupFindsInnermost(name, env, frames);
    var p := Locate(Sym(name), env, frames);
    InnermostUnique(Sym(name), env, frames, p.value.0, p.value.1, k, j);
  }

  /** Lookup never fails when the frames are consistent. */
  lemma LookupUnbound(name: string, env: Env, frames: seq<Frame>)
    requires StoreOk(frames) && EnvOk(env, frames)
    requires Unbound(Sym(name), env, frames)
    ensures LookupVariableValue(name, env, frames) == Ok(UnboundMessage(name))
  {
    LookupFindsInnermost(name, env, frames);
  }

  /** setVariableValue fails with UnboundVariable exactly when no frame binds
      the variable; otherwise it overwrites the innermost binding's value
      cell and nothing else. */
  lemma {:induction false} SetVariableValueSpec(variable: Value, val: Value, env: Env, frames: seq<Frame>)
    requires StoreOk(frames) && EnvOk(env, frames)
    ensures SetVariableValue(variable, val, env, frames) ==
      match Locate(variable, env, frames)
      case Some(p) => Ok(SetCell(frames, env[p.0], p.1, val))
      case None => Err(UnboundVariable)
    decreases |env|
  {
    if |env| > 0 {
      ScanMatchesFirstIndex(variable, frames[env[0]]);
      assert EnvOk(env[1..], frames);
      SetVariableValueSpec(variable, val, env[1..], frames);
    }
  }

  /** Overwriting a value cell keeps every frame consistent, keeps every
      variable list, and changes no other cell. */
  lemma SetCellKeepsShape(frames: seq<Frame>, f: nat, j: nat, val: Value)
    requires StoreOk(frames) && f < |frames| && j < |frames[f].vals|
    ensures var fs := SetCell(frames, f, j, val);
      StoreOk(fs) && |fs| == |frames|
      && (forall i :: 0 <= i < |frames| ==> fs[i].vars == frames[i].vars)
      && (forall i :: 0 <= i < |frames| && i != f ==> fs[i] == frames[i])
      && fs[f].vals[j] == val
      && (forall i :: 0 <= i < |frames[f].vals| && i != j ==> fs[f].vals[i] == frames[f].vals[i])
  {
  }

  /** The search reads only variable lists. */
  lemma {:induction false} LocateIgnoresValues(variable: Value, env: Env, frames: seq<Frame>, frames': seq<Frame>)
    requires EnvOk(env, frames) && |frames'| == |frames|
    requires forall i :: 0 <= i < |frames| ==> frames'[i].vars == frames[i].vars
    ensures EnvOk(env, frames') && Locate(variable, env, frames') == Locate(variable, env, frames)
    decreases |env|
  {
    if |env| > 0 {
      assert EnvOk(env[1..], frames);
      LocateIgnoresValues(variable, env[1..], frames, frames');
    }
  }

  /** After `set!` of a bound variable, looking it up gives the new value. */
  lemma LookupAfterSet(name: string, val: Value, env: Env, frames: seq<Frame>)
    requires StoreOk(frames) && EnvOk(env, frames) && !Unbound(Sym(name), env, frames)
    ensures SetVariableValue(Sym(name), val, env, frames).Ok?
    ensures var fs := SetVariableValue(Sym(name), val, env, frames).value;
      StoreOk(fs) && EnvOk(env, fs) && LookupVariableValue(name, env, fs) == Ok(val)
  {
    SetVariableValueSpec(Sym(name), val, env, frames);
    var p := Locate(Sym(name), env, frames).value;
    var fs := SetCell(frames, env[p.0], p.1, val);
    SetCellKeepsShape(frames, env[p.0], p.1, val);
    LocateIgnoresValues(Sym(name), env, frames, fs);
    LookupFindsInnermost(name, env, fs);
  }

  /** defineVariable touches only the first frame of the environment: a
      variable already there has its value overwritten in place; otherwise
      the variable and the value are put in front of the two lists
      together. Every other frame, including any outer binding of the same
      variable, is left as it was, and the frames stay consistent. */
  lemma DefineVariableSpec(variable: Value, val: Value, env: Env, frames: seq<Frame>)
    requires StoreOk(frames) && EnvOk(env, frames) && |env| > 0
    ensures DefineVariable(variable, val, env, frames).Ok?
    ensures var fs := DefineVariable(variable, val, env, frames).value;
      var f := frames[env[0]];
      |fs| == |frames| && StoreOk(fs)
      && (forall i :: 0 <= i < |frames| && i != env[0] ==> fs[i] == frames[i])
      && fs[env[0]] == match FirstIndex(variable, f.vars)
        case Some(j) => Frame(f.vars, f.vals[j := val])
        case None => Frame([variable] + f.vars, [val] + f.vals)
  {
    ScanMatchesFirstIndex(variable, frames[env[0]]);
  }

  /** With no frame at all there is nothing to define into. */
  lemma DefineInEmptyEnvironment(variable: Value, val: Value, frames: seq<Frame>)
    ensures DefineVariable(variable, val, [], frames) == Err(TypeError)
  {
  }

  /** After `define`, looking the variable up gives the defined value. */
  lemma LookupAfterDefine(name: string, val: Value, env: Env, frames: seq<Frame>)
    requires StoreOk(frames) && EnvOk(env, frames) && |env| > 0
    ensures DefineVariable(Sym(name), val, env, frames).Ok?
    ensures var fs := DefineVariable(Sym(name), val, env, frames).value;
      EnvOk(env, fs) && LookupVariableValue(name, env, fs) == Ok(val)
  {
    DefineVariableSpec(Sym(name), val, env, frames);
    var fs := DefineVariable(Sym(name), val, env, frames).value;
    ScanMatchesFirstIndex(Sym(name), fs[env[0]]);
  }

  /** Lookup in an environment is not affected by frames added to the store. */
  lemma {:induction false} LookupIgnoresNewFrames(name: string, env: Env, frames: seq<Frame>, more: seq<Frame>)
    requires EnvOk(env, frames)
    ensures LookupVariableValue(name, env, frames + more) == LookupVariableValue(name, env, frames)
    decreases |env|
  {
    if |env| > 0 {
      assert (frames + more)[env[0]] == frames[env[0]];
      assert EnvOk(env[1..], frames);
      LookupIgnoresNewFrames(name, env[1..], frames, more);
    }
  }

  /** extendEnvironment succeeds exactly when the variables and the values
      are proper lists of the same length. Then the new environment's first
      frame pairs them position by position, its rest is the base
      environment, the existing frames are untouched, and consistency is
      kept. */
  lemma ExtendEnvironmentSpec(vars: Value, vals: Value, base: Env, frames: seq<Frame>)
    requires StoreOk(frames) && EnvOk(base, frames)
    ensures ExtendEnvironment(vars, vals, base, frames).Ok? <==>
      IsList(vars) && IsList(vals) && Length(vars) == Length(vals)
    ensures ExtendEnvironment(vars, vals, base, frames).Err? ==>
      ExtendEnvironment(vars, vals, base, frames).error == ArityMismatch
    ensures ExtendEnvironment(vars, vals, base, frames).Ok? ==>
      var (env, fs) := ExtendEnvironment(vars, vals, base, frames).value;
      StoreOk(fs) && EnvOk(env, fs) && fs[..|frames|] == frames
      && |env| == |base| + 1 && env[1..] == base
      && fs[env[0]].vars == Elements(vars) && fs[env[0]].vals == Elements(vals)
  {
    if IsList(vars) && IsList(vals) && Length(vars) == Length(vals) {
      LengthIsElementCount(vars);
      LengthIsElementCount(vals);
    }
  }

  /** Looking a name up in an extended environment finds the new frame's
      binding first and otherwise answers as the base environment did. */
  lemma LookupAfterExtend(name: string, vars: Value, vals: Value, base: Env, frames: seq<Frame>)
    requires StoreOk(frames) && EnvOk(base, frames)
    requires IsList(vars) && IsList(vals) && |Elements(vars)| == |Elements(vals)|
    ensures ExtendEnvironment(vars, vals, base, frames).Ok?
    ensures var (env, fs) := ExtendEnvironment(vars, vals, base, frames).value;
      LookupVariableValue(name, env, fs) ==
        match FirstIndex(Sym(name), Elements(vars))
        case Some(j) => Ok(Elements(vals)[j])
        case None => LookupVariableValue(name, base, frames)
  {
    LengthIsElementCount(vars);
    LengthIsElementCount(vals);
    ExtendEnvironmentSpec(vars, vals, base, frames);
    var (env, fs) := ExtendEnvironment(vars, vals, base, frames).value;
    ScanMatchesFirstIndex(Sym(name), fs[env[0]]);
    LookupIgnoresNewFrames(name, base, frames, [fs[|frames|]]);
    assert fs == frames + [fs[|frames|]];
  }

  // ---- the arity guard as written -----------------------------------

  /** The guard as written passes any two non-empty lists: both are
      two-element arrays. */
  lemma ArityGuardAsWrittenPassesPairs(vars: Value, vals: Value, base: Env, frames: seq<Frame>)
    requires vars.Pair? && vals.Pair?
    ensures ExtendEnvironmentAsWritten(vars, vals, base, frames).Ok?
  {
  }

  /** The chain of pairs of a proper list is its elements. */
  lemma {:induction false} ItemsOfList(v: Value)
    requires IsList(v)
    ensures Items(v) == Elements(v)
  {
    if v.Pair? { ItemsOfList(v.cdr); }
  }

  /** Where the two guards part: on two non-empty proper lists of the same
      length, extension as written and as intended build the same frame. */
  lemma ArityGuardsAgree(vars: Value, vals: Value, base: Env, frames: seq<Frame>)
    requires vars.Pair? && vals.Pair? && IsList(vars) && IsList(vals)
    requires |Elements(vars)| == |Elements(vals)|
    ensures ExtendEnvironmentAsWritten(vars, vals, base, frames) == ExtendEnvironment(vars, vals, base, frames)
  {
    ItemsOfList(vars);
    ItemsOfList(vals);
    LengthIsElementCount(vars);
    LengthIsElementCount(vals);
  }

  /** Two parameters and one argument: the guard as written lets the frame
      through, and looking up the second parameter then reads past the end
      of the values (a car of null); the intended guard reports the
      mismatch. */
  lemma ArityGuardMissesMismatch(base: Env, frames: seq<Frame>)
    ensures var vars := Pair(Sym("a"), Pair(Sym("b"), Nil));
      var vals := Pair(Num(1), Nil);
      && ExtendEnvironmentAsWritten(vars, vals, base, frames).Ok?
      && var (env, fs) := ExtendEnvironmentAsWritten(vars, vals, base, frames).value;
      && LookupVariableValue("b", env, fs) == Err(TypeError)
      && ExtendEnvironment(vars, vals, base, frames) == Err(ArityMismatch)
  {
    var vars := Pair(Sym("a"), Pair(Sym("b"), Nil));
    var vals := Pair(Num(1), Nil);
    var (env, fs) := ExtendEnvironmentAsWritten(vars, vals, base, frames).value;
    assert fs[env[0]] == Frame([Sym("a"), Sym("b")], [Num(1)]);
    assert ScanFrom(Sym("b"), fs[env[0]], 1) == Broken;
  }

  /** No parameters and no arguments: as written the guard reads `.length`
      of null and throws, so a procedure without parameters can never be
      called; the intended guard binds an empty frame. */
  lemma ZeroParametersRejectedAsWritten(base: Env, frames: seq<Frame>)
    ensures ExtendEnvironmentAsWritten(Nil, Nil, base, frames) == Err(TypeError)
    ensures ExtendEnvironment(Nil, Nil, base, frames) == Ok(([|frames|] + base, frames + [Frame([], [])]))
  {
  }
}
