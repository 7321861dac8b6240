/** The frame store updated in place. The source mutates frames through
    setCar/setCdr on the cells of their variable and value lists; here the
    frames live in one mutable store, and every environment, closure and
    procedure names frames by index, so a change made through one
    environment is seen through every other that shares the frame. Each
    method does what the pure function of the same concern in the
    Environment or Execution module computes, and its contract says so. */
module Store {
  import opened Values
  import opened Pairs
  import opened Environment
  import opened Analyzer
  import opened Execution
  import opened GlobalEnvironment

  class Machine {
    /** Every frame ever made, by index. */
    var frames: seq<Frame>
    /** The host side of the primitive procedures. */
    const host: Host

    constructor(host: Host)
      ensures frames == [] && this.host == host
    {
      frames := [];
      this.host := host;
    }

    /** `scan` over one frame: walk the variables and values together. */
    method Scan(variable: Value, f: nat) returns (s: Scan)
      requires f < |frames|
      ensures s == ScanFrame(variable, frames[f])
    {
      var frame := frames[f];
      var i := 0;
      while i < |frame.vars|
        invariant 0 <= i <= |frame.vars|
        invariant ScanFrame(variable, frame) == ScanFrom(variable, frame, i)
        decreases |frame.vars| - i
      {
        if i >= |frame.vals| { return Broken; }
        if frame.vars[i] == variable { return Found(i); }
        i := i + 1;
      }
      return Absent;
    }

    /** lookupVariableValue: frames from the innermost outward. */
    method Lookup(name: string, env: Env) returns (r: Result<Value>)
      ensures r == LookupVariableValue(name, env, frames)
    {
      var k := 0;
      while k < |env|
        invariant 0 <= k <= |env|
        invariant LookupVariableValue(name, env, frames) == LookupVariableValue(name, env[k..], frames)
        decreases |env| - k
      {
        if env[k] >= |frames| { return Err(TypeError); }
        var s := Scan(Sym(name), env[k]);
        match s {
          case Found(j) => return Ok(frames[env[k]].vals[j]);
          case Broken => return Err(TypeError);
          case Absent =>
        }
        assert env[k..][1..] == env[k + 1..];
        k := k + 1;
      }
      return Ok(UnboundMessage(name));
    }

    /** setCar on the value list at position j of frame f. */
    method SetValueCell(f: nat, j: nat, val: Value)
      requires f < |frames| && j < |frames[f].vals|
      modifies this
      ensures frames == SetCell(old(frames), f, j, val)
    {
      frames := frames[f := Frame(frames[f].vars, frames[f].vals[j := val])];
    }

    /** setVariableValue: find the innermost binding, then overwrite its
      value cell; the value assigned is the answer. */
    method Assign(variable: Value, val: Value, env: Env) returns (r: Result<Value>)
      modifies this
      ensures match SetVariableValue(variable, val, env, old(frames))
        case Ok(fs) => r == Ok(val) && frames == fs
        case Err(e) => r == Err(e) && frames == old(frames)
    {
      var k := 0;
      while k < |env|
        invariant 0 <= k <= |env|
        invariant frames == old(frames)
        invariant SetVariableValue(variable, val, env, frames) == SetVariableValue(variable, val, env[k..], frames)
        decreases |env| - k
      {
        if env[k] >= |frames| { return Err(TypeError); }
        var s := Scan(variable, env[k]);
        match s {
          case Found(j) =>
            SetValueCell(env[k], j, val);
            return Ok(val);
          case Broken => return Err(TypeError);
          case Absent =>
        }
        assert env[k..][1..] == env[k + 1..];
        k := k + 1;
      }
      return Err(UnboundVariable);
    }

    /** addBindingToFrame: setCar of the variables, then setCdr of the
      values, each with one more element in front. */
    method AddBinding(variable: Value, val: Value, f: nat)
      requires f < |frames|
      modifies this
      ensures frames == old(frames)[f := AddBindingToFrame(variable, val, old(frames)[f])]
    {
      frames := frames[f := Frame([variable] + frames[f].vars, frames[f].vals)];
      frames := frames[f := Frame(frames[f].vars, [val] + frames[f].vals)];
    }

    /** defineVariable: overwrite in the first frame, or add to it. */
    method Define(variable: Value, val: Value, env: Env) returns (r: Result<Value>)
      modifies this
      ensures match DefineVariable(variable, val, env, old(frames))
        case Ok(fs) => r == Ok(DefinitionResult(val)) && frames == fs
        case Err(e) => r == Err(e) && frames == old(frames)
    {
      if |env| == 0 || env[0] >= |frames| { return Err(TypeError); }
      var s := Scan(variable, env[0]);
      match s {
        case Found(j) =>
          SetValueCell(env[0], j, val);
        case Absent =>
          AddBinding(variable, val, env[0]);
        case Broken =>
          return Err(TypeError);
      }
      return Ok(DefinitionResult(val));
    }

    /** extendEnvironment with the intended guard: a new frame in the
      store, named first in the new environment. */
    method Extend(vars: Value, vals: Value, base: Env) returns (r: Result<Env>)
      modifies this
      ensures match ExtendEnvironment(vars, vals, base, old(frames))
        case Ok((env, fs)) => r == Ok(env) && frames == fs
        case Err(e) => r == Err(e) && frames == old(frames)
    {
      if !(IsList(vars) && IsList(vals) && Length(vars) == Length(vals)) {
        return Err(ArityMismatch);
      }
      var index := |frames|;
      frames := frames + [Frame(Elements(vars), Elements(vals))];
      return Ok([index] + base);
    }

    /** setupEnvironment in place: one new frame for the primitive table,
      then the four constants defined in it. The answer is the global
      environment, naming only that frame. */
    method Setup(names: seq<string>) returns (env: Env)
      requires forall n :: n in DefinedNames ==> n !in names
      modifies this
      ensures env == [|old(frames)|]
      ensures frames == old(frames) + [GlobalFrame(names)]
    {
      SetupAddsGlobalFrame(names, frames);
      ExtendWithTable(names, frames);
      var extended := Extend(List(Symbols(names)), List(PrimitiveObjects(names)), []);
      env := extended.value;
      var _ := Define(Sym("true"), Bool(true), env);
      var _ := Define(Sym("false"), Bool(false), env);
      var _ := Define(Sym("null"), Nil, env);
      var _ := Define(Sym("nil"), Nil, env);
    }

    /** The execution procedures, run in place. */
    method Exec(code: Code, env: Env, fuel: nat) returns (r: Result<Value>)
      modifies this
      ensures Outcome(r, frames) == Run(code, env, old(frames), host, fuel)
      decreases fuel, CodeSize(code), 0
    {
      match code {
        case Const(v) =>
          r := Ok(v);
        case Var(name) =>
          r := Lookup(name, env);
        case Assign(variable, valueCode) =>
          r := Exec(valueCode, env, fuel);
          if r.Ok? {
            r := Assign(variable, r.value, env);
            if r.Ok? { r := Ok(Sym("ok")); }
          }
        case Define(variable, valueCode) =>
          r := Exec(valueCode, env, fuel);
          if r.Ok? {
            r := Define(variable, r.value, env);
            if r.Ok? { r := Ok(Sym("ok")); }
          }
        case If(test, consequent, alternative) =>
          r := Exec(test, env, fuel);
          if r.Ok? {
            if r.value == Bool(true) {
              r := Exec(consequent, env, fuel);
            } else {
              r := Exec(alternative, env, fuel);
            }
          }
        case Lambda(params, body) =>
          r := Ok(Compiled(params, body, env));
        case Sequence(first, second) =>
          r := Exec(first, env, fuel);
          if r.Ok? {
            r := Exec(second, env, fuel);
          }
        case Let(procedure, bindings) =>
          r := Exec(procedure, env, fuel);
          if r.Ok? {
            var proc := r.value;
            var vs := ExecLetValues(bindings, env, fuel);
            if vs.Err? {
              r := Err(vs.error);
            } else {
              r := ExecuteApplicationInPlace(proc, List(vs.value), fuel);
            }
          }
        case Apply(operator, operands) =>
          r := Exec(operator, env, fuel);
          if r.Ok? {
            var proc := r.value;
            var vs := ExecOperands(operands, env, fuel);
            if vs.Err? {
              r := Err(vs.error);
            } else {
              r := ExecuteApplicationInPlace(proc, List(vs.value), fuel);
            }
          }
      }
    }

    method ExecOperands(codes: seq<Code>, env: Env, fuel: nat) returns (r: Result<seq<Value>>)
      modifies this
      ensures Outcome(r, frames) == RunOperands(codes, env, old(frames), host, fuel)
      decreases fuel, CodesSize(codes), 1
    {
      if |codes| == 0 { return Ok([]); }
      var first := Exec(codes[0], env, fuel);
      if first.Err? { return Err(first.error); }
      r := ExecOperands(codes[1..], env, fuel);
      if r.Ok? { r := Ok([first.value] + r.value); }
    }

    method ExecLetValues(bindings: Value, env: Env, fuel: nat) returns (r: Result<seq<Value>>)
      modifies this
      ensures Outcome(r, frames) == RunLetValues(bindings, env, old(frames), host, fuel)
      decreases fuel, 0, Size(bindings)
    {
      match bindings {
        case Nil => return Ok([]);
        case Pair(binding, rest) =>
          var valueExp := Cadr(binding);
          if valueExp.Err? { return Err(valueExp.error); }
          var code := Analyze(valueExp.value);
          if code.Err? { return Err(code.error); }
          if fuel == 0 { return Err(OutOfFuel); }
          var first := Exec(code.value, env, fuel - 1);
          if first.Err? { return Err(first.error); }
          r := ExecLetValues(rest, env, fuel);
          if r.Ok? { r := Ok([first.value] + r.value); }
        case _ => return Err(TypeError);
      }
    }

    /** executeApplication. */
    method ExecuteApplicationInPlace(proc: Value, args: Value, fuel: nat) returns (r: Result<Value>)
      modifies this
      ensures Outcome(r, frames) == ExecuteApplication(proc, args, old(frames), host, fuel)
      decreases fuel, 0, 0
    {
      match proc {
        case Primitive(op) =>
          r := ApplyPrimitiveProcedure(op, args, host);
        case Compiled(params, body, penv) =>
          if fuel == 0 { return Err(OutOfFuel); }
          var env := Extend(params, args, penv);
          if env.Err? { return Err(env.error); }
          r := Exec(body, env.value, fuel - 1);
        case Compound(params, _, penv) =>
          var env := Extend(params, args, penv);
          if env.Err? { return Err(env.error); }
          r := Err(TypeError);
        case _ =>
          r := Err(UnknownProcedureType);
      }
    }

    /** `LispMachine.eval`: analyze, then run in place. */
    method Eval(exp: Value, env: Env, fuel: nat) returns (r: Result<Value>)
      modifies this
      ensures Outcome(r, frames) == Execution.Eval(exp, env, old(frames), host, fuel)
    {
      var code := Analyze(exp);
      if code.Err? { return Err(code.error); }
      r := Exec(code.value, env, fuel);
    }
  }
}
