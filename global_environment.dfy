/** setupEnvironment: the global frame binds the primitive procedures by
    name, then `true`, `false`, `null` and `nil` are defined in it. */
module GlobalEnvironment {
  import opened Values
  import opened Pairs
  import opened Environment
  import opened EnvironmentLaws

  /** The names of the primitive table, in table order. */
  const PrimitiveNames: seq<string> := [
    "car", "cdr", "cons", "list", "list-ref", "length", "append", "reverse",
    "true?", "false?", "pair?", "null?", "=", "eq", ">", ">=", "<", "<=",
    "+", "*", "min", "max", "abs", "-", "/"]

  /** The primitive object bound to a name: `car`, `cdr` and `cons` are the
      ones applyPrimitiveProcedure recognises; the rest are host functions. */
  function PrimitiveObject(name: string): Value {
    if name == "car" then Primitive(CarOp)
    else if name == "cdr" then Primitive(CdrOp)
    else if name == "cons" then Primitive(ConsOp)
    else Primitive(HostOp(name))
  }

  function Symbols(names: seq<string>): (r: seq<Value>)
    ensures |r| == |names| && forall i :: 0 <= i < |names| ==> r[i] == Sym(names[i])
  {
    seq(|names|, i requires 0 <= i < |names| => Sym(names[i]))
  }

  function PrimitiveObjects(names: seq<string>): (r: seq<Value>)
    ensures |r| == |names| && forall i :: 0 <= i < |names| ==> r[i] == PrimitiveObject(names[i])
  {
    seq(|names|, i requires 0 <= i < |names| => PrimitiveObject(names[i]))
  }

  /** What a global name is bound to. */
  function GlobalValue(name: string): Value {
    if name == "nil" || name == "null" then Nil
    else if name == "false" then Bool(false)
    else if name == "true" then Bool(true)
    else PrimitiveObject(name)
  }

  const DefinedNames: seq<string> := ["nil", "null", "false", "true"]

  /** The global frame once the four definitions have been put in front of
      the primitive table's names. */
  function GlobalFrame(names: seq<string>): Frame {
    Frame([Sym("nil"), Sym("null"), Sym("false"), Sym("true")] + Symbols(names),
          [Nil, Nil, Bool(false), Bool(true)] + PrimitiveObjects(names))
  }

  /** setupEnvironment on a store: extend the empty environment with the
      primitive table, then define the four constants in order. */
  function SetupEnvironment(names: seq<string>, frames: seq<Frame>): Result<(Env, seq<Frame>)> {
    var extended :- ExtendEnvironment(List(Symbols(names)), List(PrimitiveObjects(names)), [], frames);
    var fs :- DefineConstants(extended.0, extended.1);
    Ok((extended.0, fs))
  }

  /** The four `defineVariable` calls of setupEnvironment. */
  function DefineConstants(env: Env, frames: seq<Frame>): Result<seq<Frame>> {
    var fs1 :- DefineVariable(Sym("true"), Bool(true), env, frames);
    var fs2 :- DefineVariable(Sym("false"), Bool(false), env, fs1);
    var fs3 :- DefineVariable(Sym("null"), Nil, env, fs2);
    DefineVariable(Sym("nil"), Nil, env, fs3)
  }

  /** None of the four constants is a primitive's name. */
  lemma ConstantsAreNotPrimitives()
    ensures forall n :: n in DefinedNames ==> n !in PrimitiveNames
  {
    forall n | n in DefinedNames
      ensures n !in PrimitiveNames
    {
      assert forall i :: 0 <= i < |PrimitiveNames| ==> |PrimitiveNames[i]| != |n| || PrimitiveNames[i] != n;
    }
  }

  /** Defining a name the first frame does not bind adds it in front. */
  lemma DefineFresh(variable: Value, val: Value, f: nat, frames: seq<Frame>)
    requires f < |frames| && variable !in frames[f].vars && |frames[f].vars| == |frames[f].vals|
    ensures DefineVariable(variable, val, [f], frames) == Ok(frames[f := AddBindingToFrame(variable, val, frames[f])])
  {
    ScanMatchesFirstIndex(variable, frames[f]);
  }

  /** The primitive table as one frame. */
  lemma ExtendWithTable(names: seq<string>, frames: seq<Frame>)
    ensures ExtendEnvironment(List(Symbols(names)), List(PrimitiveObjects(names)), [], frames)
         == Ok(([|frames|], frames + [Frame(Symbols(names), PrimitiveObjects(names))]))
  {
    ListElements(Symbols(names));
    ListElements(PrimitiveObjects(names));
    assert [|frames|] + [] == [|frames|];
  }

  /** Defining the four constants in a frame that binds none of them puts
      them in front, the last defined first. */
  lemma DefineConstantsInFront(f: nat, frames: seq<Frame>)
    requires f < |frames| && |frames[f].vars| == |frames[f].vals|
    requires forall n :: n in DefinedNames ==> Sym(n) !in frames[f].vars
    ensures DefineConstants([f], frames) == Ok(frames[f := Frame(
      [Sym("nil"), Sym("null"), Sym("false"), Sym("true")] + frames[f].vars,
      [Nil, Nil, Bool(false), Bool(true)] + frames[f].vals)])
  {
    var f0 := frames[f];
    DefineFresh(Sym("true"), Bool(true), f, frames);
    var fs1 := frames[f := AddBindingToFrame(Sym("true"), Bool(true), f0)];
    DefineFresh(Sym("false"), Bool(false), f, fs1);
    var fs2 := fs1[f := AddBindingToFrame(Sym("false"), Bool(false), fs1[f])];
    DefineFresh(Sym("null"), Nil, f, fs2);
    var fs3 := fs2[f := AddBindingToFrame(Sym("null"), Nil, fs2[f])];
    DefineFresh(Sym("nil"), Nil, f, fs3);
    var fs4 := fs3[f := AddBindingToFrame(Sym("nil"), Nil, fs3[f])];
    assert fs4[f].vars == [Sym("nil"), Sym("null"), Sym("false"), Sym("true")] + f0.vars;
    assert fs4[f].vals == [Nil, Nil, Bool(false), Bool(true)] + f0.vals;
    assert DefineConstants([f], frames) == Ok(fs4);
    assert fs4 == frames[f := Frame(
      [Sym("nil"), Sym("null"), Sym("false"), Sym("true")] + f0.vars,
      [Nil, Nil, Bool(false), Bool(true)] + f0.vals)];
  }

  /** Setting up adds exactly one frame, the global frame, and changes no
      existing frame, whenever no primitive is named like a constant. */
  lemma SetupAddsGlobalFrame(names: seq<string>, frames: seq<Frame>)
    requires forall n :: n in DefinedNames ==> n !in names
    ensures SetupEnvironment(names, frames) == Ok(([|frames|], frames + [GlobalFrame(names)]))
  {
    var syms := Symbols(names);
    assert forall n :: n in DefinedNames ==> Sym(n) !in syms;
    ExtendWithTable(names, frames);
    var fs0 := frames + [Frame(syms, PrimitiveObjects(names))];
    DefineConstantsInFront(|frames|, fs0);
    assert fs0[|frames| := GlobalFrame(names)] == frames + [GlobalFrame(names)];
  }

  /** The global frame lists the names of DefinedNames + names, in that
      order; the first four values are the constants' and the rest the
      primitive objects. */
  lemma GlobalFrameLayout(names: seq<string>)
    ensures GlobalLayout(names, GlobalFrame(names).vars, GlobalFrame(names).vals)
  {
  }

  /** Looking up in an environment of one consistent frame finds the
      first position of the name there, or nothing. */
  lemma LookupInOneFrame(name: string, frames: seq<Frame>, g: Frame)
    requires |g.vars| == |g.vals|
    ensures LookupVariableValue(name, [|frames|], frames + [g]) ==
      match FirstIndex(Sym(name), g.vars)
      case Some(j) => Ok(g.vals[j])
      case None => Ok(UnboundMessage(name))
  {
    var fs := frames + [g];
    assert fs[|frames|] == g;
    ScanMatchesFirstIndex(Sym(name), g);
    assert [|frames|][1..] == [];
  }

  /** The lists of a frame laid out like the global frame: the names of
      DefinedNames + names, the constants' values, then the primitive
      objects. */
  predicate GlobalLayout(names: seq<string>, vars: seq<Value>, vals: seq<Value>) {
    |vars| == |vals| == |DefinedNames + names|
    && (forall i :: 0 <= i < |DefinedNames + names| ==> vars[i] == Sym((DefinedNames + names)[i]))
    && (forall i :: 0 <= i < |DefinedNames| ==> vals[i] == GlobalValue(DefinedNames[i]))
    && (forall i :: |DefinedNames| <= i < |DefinedNames + names| ==> vals[i] == PrimitiveObject(names[i - |DefinedNames|]))
  }

  /** A name found past the four constants is not one of them, and its
      value there is its primitive object. */
  lemma FoundAmongPrimitives(name: string, names: seq<string>, vars: seq<Value>, vals: seq<Value>, j: nat)
    requires GlobalLayout(names, vars, vals)
    requires |DefinedNames| <= j < |vars| && vars[j] == Sym(name)
    requires forall i :: 0 <= i < j ==> vars[i] != Sym(name)
    ensures name in DefinedNames + names && vals[j] == GlobalValue(name)
  {
    var all := DefinedNames + names;
    assert all[j] == name;
    forall i | 0 <= i < |DefinedNames|
      ensures DefinedNames[i] != name
    {
      assert vars[i] == Sym(all[i]);
    }
    assert name != DefinedNames[0] && name != DefinedNames[1] && name != DefinedNames[2] && name != DefinedNames[3];
    assert GlobalValue(name) == PrimitiveObject(name);
    assert vals[j] == PrimitiveObject(names[j - |DefinedNames|]);
  }

  /** A name found among the first four positions is that constant. */
  lemma FoundAmongConstants(name: string, names: seq<string>, vars: seq<Value>, vals: seq<Value>, j: nat)
    requires GlobalLayout(names, vars, vals)
    requires j < |DefinedNames| && vars[j] == Sym(name)
    ensures name in DefinedNames + names && vals[j] == GlobalValue(name)
  {
    var all := DefinedNames + names;
    assert all[j] == name;
    assert DefinedNames[j] == name;
  }

  /** The first position of a name in lists laid out like the global
      frame holds its global value. */
  lemma FirstPositionInLayout(name: string, names: seq<string>, vars: seq<Value>, vals: seq<Value>)
    requires GlobalLayout(names, vars, vals)
    ensures match FirstIndex(Sym(name), vars)
      case Some(j) => name in DefinedNames + names && j < |vals| && vals[j] == GlobalValue(name)
      case None => name !in DefinedNames + names
  {
    var all := DefinedNames + names;
    match FirstIndex(Sym(name), vars)
    case None =>
      forall i | 0 <= i < |all|
        ensures all[i] != name
      {
        assert vars[i] == Sym(all[i]);
      }
    case Some(j) =>
      if j < |DefinedNames| {
        FoundAmongConstants(name, names, vars, vals, j);
      } else {
        FoundAmongPrimitives(name, names, vars, vals, j);
      }
  }

  /** In the global environment a name means its global value when the
      global frame binds it, and is unbound otherwise. */
  lemma GlobalLookup(name: string, names: seq<string>, frames: seq<Frame>)
    ensures LookupVariableValue(name, [|frames|], frames + [GlobalFrame(names)]) ==
      if name in DefinedNames + names then Ok(GlobalValue(name)) else Ok(UnboundMessage(name))
  {
    var g := GlobalFrame(names);
    GlobalFrameLayout(names);
    LookupInOneFrame(name, frames, g);
    FirstPositionInLayout(name, names, g.vars, g.vals);
  }

  /** The global environment of the source: setting up the primitive table
      in any store adds the global frame and nothing else. */
  lemma TheGlobalEnvironment(frames: seq<Frame>)
    ensures SetupEnvironment(PrimitiveNames, frames) == Ok(([|frames|], frames + [GlobalFrame(PrimitiveNames)]))
  {
    ConstantsAreNotPrimitives();
    SetupAddsGlobalFrame(PrimitiveNames, frames);
  }
}
