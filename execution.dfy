/** The analyzing evaluator's second half: running analyzed code in an
    environment. Every execution procedure the source builds as a closure
    is one case of Run here; `LispMachine.eval` after the rebinding is Eval
    (analyze, then run). The frame store is threaded through and survives
    an error with every change made before it. Recursion of user programs
    is bounded by fuel, spent once per compound-procedure call and once per
    `let` binding (whose expression is analyzed afresh at run time). */
module Execution {
  import opened Values
  import opened Pairs
  import opened Environment
  import opened Analyzer

  /** What running something gives: a value or an error, and the store. */
  datatype Outcome<+T> = Outcome(result: Result<T>, frames: seq<Frame>)

  /** The number of nodes of a piece of code. */
  function CodeSize(c: Code): nat
    ensures CodeSize(c) >= 1
  {
    match c
    case Assign(_, valueCode) => 1 + CodeSize(valueCode)
    case Define(_, valueCode) => 1 + CodeSize(valueCode)
    case If(test, consequent, alternative) => 1 + CodeSize(test) + CodeSize(consequent) + CodeSize(alternative)
    case Lambda(_, body) => 1 + CodeSize(body)
    case Sequence(first, second) => 1 + CodeSize(first) + CodeSize(second)
    case Let(procedure, _) => 1 + CodeSize(procedure)
    case Apply(operator, operands) => 1 + CodeSize(operator) + CodesSize(operands)
    case _ => 1
  }

  function CodesSize(cs: seq<Code>): nat
  {
    if |cs| == 0 then 0 else CodeSize(cs[0]) + CodesSize(cs[1..])
  }

  /** applyPrimitiveProcedure's argument convention. `car` and `cdr` are
      handed the argument list itself, which the host spreads, so they act
      on the first argument; `cons` gets the first two arguments; every
      other primitive gets the arguments flattened into a host array. */
  function ApplyPrimitiveProcedure(op: PrimOp, args: Value, host: Host): (r: Result<Value>)
    ensures op == CarOp ==>
      (r.Ok? <==> args.Pair? && args.car.Pair?) && (r.Ok? ==> r.value == args.car.car)
    ensures op == CdrOp ==>
      (r.Ok? <==> args.Pair? && args.car.Pair?) && (r.Ok? ==> r.value == args.car.cdr)
    ensures op == ConsOp ==>
      (r.Ok? <==> args.Pair? && args.cdr.Pair?) && (r.Ok? ==> r.value == Pair(args.car, args.cdr.car))
    ensures op.HostOp? ==> r == host(op.name, ListToArray(args))
  {
    match op
    case CarOp =>
      var first :- Car(args);
      Car(first)
    case CdrOp =>
      var first :- Car(args);
      Cdr(first)
    case ConsOp =>
      var x :- Car(args);
      var y :- Cadr(args);
      Ok(Pair(x, y))
    case HostOp(name) => host(name, ListToArray(args))
  }

  /** One execution procedure applied to an environment. The store only
      grows, and every frame keeps as many values as variables. */
  function Run(code: Code, env: Env, frames: seq<Frame>, host: Host, fuel: nat): (o: Outcome<Value>)
    ensures |o.frames| >= |frames|
    ensures StoreOk(frames) ==> StoreOk(o.frames)
    decreases fuel, CodeSize(code), 0
  {
    match code
    case Const(v) => Outcome(Ok(v), frames)
    case Var(name) => Outcome(LookupVariableValue(name, env, frames), frames)
    case Assign(variable, valueCode) =>
      var o := Run(valueCode, env, frames, host, fuel);
      if o.result.Err? then o
      else (match SetVariableValue(variable, o.result.value, env, o.frames)
        case Ok(fs) => Outcome(Ok(Sym("ok")), fs)
        case Err(e) => Outcome(Err(e), o.frames))
    case Define(variable, valueCode) =>
      var o := Run(valueCode, env, frames, host, fuel);
      if o.result.Err? then o
      else (match DefineVariable(variable, o.result.value, env, o.frames)
        case Ok(fs) => Outcome(Ok(Sym("ok")), fs)
        case Err(e) => Outcome(Err(e), o.frames))
    case If(test, consequent, alternative) =>
      var o := Run(test, env, frames, host, fuel);
      if o.result.Err? then o
      else if o.result.value == Bool(true) then Run(consequent, env, o.frames, host, fuel)
      else Run(alternative, env, o.frames, host, fuel)
    case Lambda(params, body) => Outcome(Ok(Compiled(params, body, env)), frames)
    case Sequence(first, second) =>
      var o := Run(first, env, frames, host, fuel);
      if o.result.Err? then o
      else Run(second, env, o.frames, host, fuel)
    case Let(procedure, bindings) =>
      var p := Run(procedure, env, frames, host, fuel);
      if p.result.Err? then p
      else
        var vs := RunLetValues(bindings, env, p.frames, host, fuel);
        if vs.result.Err? then Outcome(Err(vs.result.error), vs.frames)
        else ExecuteApplication(p.result.value, List(vs.result.value), vs.frames, host, fuel)
    case Apply(operator, operands) =>
      var f := Run(operator, env, frames, host, fuel);
      if f.result.Err? then f
      else
        var vs := RunOperands(operands, env, f.frames, host, fuel);
        if vs.result.Err? then Outcome(Err(vs.result.error), vs.frames)
        else ExecuteApplication(f.result.value, List(vs.result.value), vs.frames, host, fuel)
  }

  /** The operand procedures run first to last (`map` over them). */
  function RunOperands(codes: seq<Code>, env: Env, frames: seq<Frame>, host: Host, fuel: nat): (o: Outcome<seq<Value>>)
    ensures |o.frames| >= |frames|
    ensures StoreOk(frames) ==> StoreOk(o.frames)
    ensures o.result.Ok? ==> |o.result.value| == |codes|
    decreases fuel, CodesSize(codes), 1
  {
    if |codes| == 0 then Outcome(Ok([]), frames)
    else
      var first := Run(codes[0], env, frames, host, fuel);
      if first.result.Err? then Outcome(Err(first.result.error), first.frames)
      else
        var rest := RunOperands(codes[1..], env, first.frames, host, fuel);
        if rest.result.Err? then rest
        else Outcome(Ok([first.result.value] + rest.result.value), rest.frames)
  }

  /** letValues: the second element of every binding, analyzed and run in
      the let's environment, first to last. */
  function RunLetValues(bindings: Value, env: Env, frames: seq<Frame>, host: Host, fuel: nat): (o: Outcome<seq<Value>>)
    ensures |o.frames| >= |frames|
    ensures StoreOk(frames) ==> StoreOk(o.frames)
    decreases fuel, 0, Size(bindings)
  {
    match bindings
    case Nil => Outcome(Ok([]), frames)
    case Pair(binding, rest) =>
      (match Cadr(binding)
      case Err(e) => Outcome(Err(e), frames)
      case Ok(valueExp) =>
        (match Analyze(valueExp)
        case Err(e) => Outcome(Err(e), frames)
        case Ok(code) =>
          if fuel == 0 then Outcome(Err(OutOfFuel), frames)
          else
            var first := Run(code, env, frames, host, fuel - 1);
            if first.result.Err? then Outcome(Err(first.result.error), first.frames)
            else
              var others := RunLetValues(rest, env, first.frames, host, fuel);
              if others.result.Err? then others
              else Outcome(Ok([first.result.value] + others.result.value), others.frames)))
    case _ => Outcome(Err(TypeError), frames)
  }

  /** executeApplication: a primitive goes through the argument convention;
      a compound procedure's code runs in a new frame binding its
      parameters to the arguments, in front of the environment it was made
      in; anything else is not a procedure. A procedure made by the direct
      evaluator has a body that is a list, not code, and calling it fails
      once the frame is built. */
  function ExecuteApplication(proc: Value, args: Value, frames: seq<Frame>, host: Host, fuel: nat): (o: Outcome<Value>)
    ensures |o.frames| >= |frames|
    ensures StoreOk(frames) ==> StoreOk(o.frames)
    decreases fuel, 0, 0
  {
    match proc
    case Primitive(op) => Outcome(ApplyPrimitiveProcedure(op, args, host), frames)
    case Compiled(params, body, penv) =>
      if fuel == 0 then Outcome(Err(OutOfFuel), frames)
      else
        (match ExtendEnvironment(params, args, penv, frames)
        case Err(e) => Outcome(Err(e), frames)
        case Ok((env, fs)) => Run(body, env, fs, host, fuel - 1))
    case Compound(params, _, penv) =>
      (match ExtendEnvironment(params, args, penv, frames)
      case Err(e) => Outcome(Err(e), frames)
      case Ok((_, fs)) => Outcome(Err(TypeError), fs))
    case _ => Outcome(Err(UnknownProcedureType), frames)
  }

  /** `LispMachine.eval` once rebound: analyze, then run. An expression that
      cannot be analyzed changes nothing. */
  function Eval(exp: Value, env: Env, frames: seq<Frame>, host: Host, fuel: nat): (o: Outcome<Value>)
    ensures Analyze(exp).Err? ==> o == Outcome(Err(Analyze(exp).error), frames)
    ensures Analyze(exp).Ok? ==> o == Run(Analyze(exp).value, env, frames, host, fuel)
  {
    match Analyze(exp)
    case Err(e) => Outcome(Err(e), frames)
    case Ok(code) => Run(code, env, frames, host, fuel)
  }
}
