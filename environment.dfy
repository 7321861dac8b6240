/** The environment model: frames held in a store and named by index,
    environments as chains of frame indices, and the operations that look
    up, assign, define and extend (scheme-on-coffee/eval.js). Every
    operation here takes the store and gives back the new one; the class
    in store.dfy performs the same updates in place. */
module Environment {
  import opened Values
  import opened Pairs

  /** Every frame lists as many values as variables. */
  predicate StoreOk(frames: seq<Frame>) {
    forall i :: 0 <= i < |frames| ==> |frames[i].vars| == |frames[i].vals|
  }

  /** Every frame of the environment is in the store. */
  predicate EnvOk(env: Env, frames: seq<Frame>) {
    forall k :: 0 <= k < |env| ==> env[k] < |frames|
  }

  // ---- the specification of a search --------------------------------

  /** The first position of the variable in a variable list. */
  function FirstIndex(variable: Value, vars: seq<Value>): (r: Option<nat>)
    ensures r.Some? ==>
      r.value < |vars| && vars[r.value] == variable && forall j :: 0 <= j < r.value ==> vars[j] != variable
    ensures r.None? <==> variable !in vars
    decreases |vars|
  {
    if |vars| == 0 then None
    else if vars[0] == variable then Some(0)
    else match FirstIndex(variable, vars[1..])
      case Some(j) => Some(j + 1)
      case None => None
  }

  /** Frame k of the environment holds the innermost binding of the
      variable, at position j: no frame before it and no earlier position
      in it names the variable. */
  predicate Innermost(variable: Value, env: Env, frames: seq<Frame>, k: nat, j: nat)
    requires EnvOk(env, frames)
  {
    k < |env| && j < |frames[env[k]].vars| && frames[env[k]].vars[j] == variable
    && (forall i :: 0 <= i < k ==> variable !in frames[env[i]].vars)
    && (forall i :: 0 <= i < j ==> frames[env[k]].vars[i] != variable)
  }

  /** No frame of the environment names the variable. */
  predicate Unbound(variable: Value, env: Env, frames: seq<Frame>)
    requires EnvOk(env, frames)
  {
    forall k :: 0 <= k < |env| ==> variable !in frames[env[k]].vars
  }

  /** Where the innermost binding is, searching the innermost frame first
      and then the enclosing ones. */
  function Locate(variable: Value, env: Env, frames: seq<Frame>): (r: Option<(nat, nat)>)
    requires EnvOk(env, frames)
    ensures r.Some? ==> Innermost(variable, env, frames, r.value.0, r.value.1)
    ensures r.None? <==> Unbound(variable, env, frames)
    decreases |env|
  {
    if |env| == 0 then None
    else match FirstIndex(variable, frames[env[0]].vars)
      case Some(j) => Some((0, j))
      case None =>
        match Locate(variable, env[1..], frames)
        case Some(p) =>
          assert forall i :: 1 <= i < p.0 + 1 ==> env[i] == env[1..][i - 1];
          Some((p.0 + 1, p.1))
        case None =>
          assert forall i :: 1 <= i < |env| ==> env[i] == env[1..][i - 1];
          None
  }

  // ---- the operations as the source performs them -------------------

  /** The result of scanning one frame's variable and value lists together. */
  datatype Scan = Found(position: nat) | Absent | Broken

  /** `scan`: walk the two lists side by side from position i; reaching the
      end of the variables means absent; running out of values first is a
      car/cdr of null. */
  function ScanFrom(variable: Value, f: Frame, i: nat): (s: Scan)
    requires i <= |f.vars|
    ensures s.Found? ==>
      i <= s.position < |f.vals| && s.position < |f.vars| && f.vars[s.position] == variable
      && forall j :: i <= j < s.position ==> f.vars[j] != variable
    ensures s.Absent? ==> forall j :: i <= j < |f.vars| ==> f.vars[j] != variable
    ensures s.Broken? ==> |f.vals| < |f.vars|
    decreases |f.vars| - i
  {
    if i == |f.vars| then Absent
    else if i >= |f.vals| then Broken
    else if f.vars[i] == variable then Found(i)
    else ScanFrom(variable, f, i + 1)
  }

  function ScanFrame(variable: Value, f: Frame): (s: Scan)
    ensures s.Found? ==> s.position < |f.vals| && s.position < |f.vars|
  {
    ScanFrom(variable, f, 0)
  }

  /** What lookupVariableValue returns, as an ordinary value, when the
      variable is bound nowhere. */
  function UnboundMessage(name: string): Value {
    Sym("Error: Unbound variable: \"" + name + "\"")
  }

  /** lookupVariableValue. */
  function LookupVariableValue(name: string, env: Env, frames: seq<Frame>): Result<Value>
    decreases |env|
  {
    if |env| == 0 then Ok(UnboundMessage(name))
    else if env[0] >= |frames| then Err(TypeError)
    else match ScanFrame(Sym(name), frames[env[0]])
      case Found(j) => Ok(frames[env[0]].vals[j])
      case Absent => LookupVariableValue(name, env[1..], frames)
      case Broken => Err(TypeError)
  }

  /** The store with one value cell overwritten (setCar on a value list). */
  function SetCell(frames: seq<Frame>, f: nat, j: nat, val: Value): seq<Frame>
    requires f < |frames| && j < |frames[f].vals|
  {
    frames[f := Frame(frames[f].vars, frames[f].vals[j := val])]
  }

  /** setVariableValue: overwrite the innermost binding; unbound is an error. */
  function SetVariableValue(variable: Value, val: Value, env: Env, frames: seq<Frame>): (r: Result<seq<Frame>>)
    ensures r.Ok? ==> |r.value| == |frames| && (StoreOk(frames) ==> StoreOk(r.value))
    decreases |env|
  {
    if |env| == 0 then Err(UnboundVariable)
    else if env[0] >= |frames| then Err(TypeError)
    else match ScanFrame(variable, frames[env[0]])
      case Found(j) => Ok(SetCell(frames, env[0], j, val))
      case Absent => SetVariableValue(variable, val, env[1..], frames)
      case Broken => Err(TypeError)
  }

  /** addBindingToFrame: put the variable and the value at the front of the
      frame's two lists. */
  function AddBindingToFrame(variable: Value, val: Value, f: Frame): Frame {
    Frame([variable] + f.vars, [val] + f.vals)
  }

  /** defineVariable: only the first frame is touched. */
  function DefineVariable(variable: Value, val: Value, env: Env, frames: seq<Frame>): (r: Result<seq<Frame>>)
    ensures r.Ok? ==> |r.value| == |frames| && (StoreOk(frames) ==> StoreOk(r.value))
  {
    if |env| == 0 || env[0] >= |frames| then Err(TypeError)
    else match ScanFrame(variable, frames[env[0]])
      case Found(j) => Ok(SetCell(frames, env[0], j, val))
      case Absent => Ok(frames[env[0] := AddBindingToFrame(variable, val, frames[env[0]])])
      case Broken => Err(TypeError)
  }

  /** What defineVariable returns: "ok" for a compound procedure, the value
      itself otherwise. */
  function DefinitionResult(val: Value): Value {
    if val.Compound? || val.Compiled? then Sym("ok") else val
  }

  /** extendEnvironment as intended: a new frame binding the variables to the
      values, in front of the base environment, when both are proper lists
      of the same length. The new frame is appended to the store. */
  function ExtendEnvironment(vars: Value, vals: Value, base: Env, frames: seq<Frame>): (r: Result<(Env, seq<Frame>)>)
    ensures r.Ok? ==> |r.value.1| == |frames| + 1 && (StoreOk(frames) ==> StoreOk(r.value.1))
  {
    if IsList(vars) && IsList(vals) && Length(vars) == Length(vals) then
      LengthIsElementCount(vars);
      LengthIsElementCount(vals);
      Ok(([|frames|] + base, frames + [Frame(Elements(vars), Elements(vals))]))
    else Err(ArityMismatch)
  }

  // ---- extendEnvironment's guard as written --------------------------

  /** The host's `.length` of a value standing for a list: a pair is a
      two-element array, whatever the list's length; a procedure object is
      a list and so a pair too; a string has its character count; a
      number or boolean has none; null has no properties at all. */
  datatype HostLength = Len(n: nat) | NoLength

  function HostLengthOf(v: Value): Result<HostLength> {
    match v
    case Nil => Err(TypeError)
    case Sym(s) => Ok(Len(|s|))
    case Num(_) => Ok(NoLength)
    case Bool(_) => Ok(NoLength)
    case _ => Ok(Len(2))
  }

  /** The elements of the chain of pairs starting at v, up to the first tail
      that is not a pair. */
  function Items(v: Value): seq<Value> {
    if v.Pair? then [v.car] + Items(v.cdr) else []
  }

  /** extendEnvironment as written: it compares the two `.length`s, and the
      frame it builds holds the two lists as they are. */
  function ExtendEnvironmentAsWritten(vars: Value, vals: Value, base: Env, frames: seq<Frame>): Result<(Env, seq<Frame>)> {
    var varsLength :- HostLengthOf(vars);
    var valsLength :- HostLengthOf(vals);
    if varsLength != valsLength then Err(ArityMismatch)
    else Ok(([|frames|] + base, frames + [Frame(Items(vars), Items(vals))]))
  }
}
