/** The direct evaluator, `LispMachine.eval`/`apply` as first defined and
    kept as `interpretationalEval`. Its recursive calls go through the name
    `LispMachine.eval`, which is rebound to the analyzing evaluator before
    any program runs, so every sub-expression it evaluates is analyzed and
    run (Eval); only `apply` and `evalSequence` stay its own. */
module Interpreter {
  import opened Values
  import opened Pairs
  import opened Syntax
  import opened Environment
  import opened Execution

  /** Host truthiness: false, null, 0 and the empty string are false,
      everything else (pairs and procedures included) is true. */
  predicate Truthy(v: Value) {
    !(v == Bool(false) || v == Nil || v == Num(0) || v == Sym(""))
  }

  /** interpretationalEval. */
  function Interpret(exp: Value, env: Env, frames: seq<Frame>, host: Host, fuel: nat): (o: Outcome<Value>)
    ensures |o.frames| >= |frames|
    ensures StoreOk(frames) ==> StoreOk(o.frames)
  {
    match ClassifyDirect(exp)
    case SelfEvaluatingExp => Outcome(Ok(exp), frames)
    case VariableExp => Outcome(LookupVariableValue(exp.name, env, frames), frames)
    case QuotedExp => Outcome(TextOfQuotation(exp), frames)
    case AssignmentExp => EvalAssignment(exp, env, frames, host, fuel)
    case DefinitionExp => EvalDefinition(exp, env, frames, host, fuel)
    case IfExp => EvalIf(exp, env, frames, host, fuel)
    case LambdaExp =>
      (match LambdaParameters(exp)
      case Err(e) => Outcome(Err(e), frames)
      case Ok(params) =>
        (match LambdaBody(exp)
        case Err(e) => Outcome(Err(e), frames)
        case Ok(body) => Outcome(Ok(Compound(params, body, env)), frames)))
    case BeginExp =>
      (match BeginActions(exp)
      case Err(e) => Outcome(Err(e), frames)
      case Ok(actions) => EvalSequence(actions, env, frames, host, fuel))
    case CondExp =>
      (match CondToIf(exp)
      case Err(e) => Outcome(Err(e), frames)
      case Ok(expansion) => Eval(expansion, env, frames, host, fuel))
    case LetExp =>
      (match LetToLambda(exp)
      case Err(e) => Outcome(Err(e), frames)
      case Ok(lambdaExp) =>
        var p := Eval(lambdaExp, env, frames, host, fuel);
        if p.result.Err? then p
        else
          var bindings := LetBindings(exp).value;
          var vs := LetValues(bindings, env, p.frames, host, fuel);
          if vs.result.Err? then Outcome(Err(vs.result.error), vs.frames)
          else ApplyProcedure(p.result.value, List(vs.result.value), vs.frames, host, fuel))
    case ApplicationExp =>
      var f := Eval(exp.car, env, frames, host, fuel);
      if f.result.Err? then f
      else
        var vs := ListOfValues(exp.cdr, env, f.frames, host, fuel);
        if vs.result.Err? then Outcome(Err(vs.result.error), vs.frames)
        else ApplyProcedure(f.result.value, List(vs.result.value), vs.frames, host, fuel)
    case UnknownExp => Outcome(Err(UnknownExpressionType), frames)
  }

  /** evalAssignment: answers with the assigned value. */
  function EvalAssignment(exp: Value, env: Env, frames: seq<Frame>, host: Host, fuel: nat): (o: Outcome<Value>)
    ensures |o.frames| >= |frames|
    ensures StoreOk(frames) ==> StoreOk(o.frames)
  {
    match AssignmentVariable(exp)
    case Err(e) => Outcome(Err(e), frames)
    case Ok(variable) =>
      (match AssignmentValue(exp)
      case Err(e) => Outcome(Err(e), frames)
      case Ok(valueExp) =>
        var o := Eval(valueExp, env, frames, host, fuel);
        if o.result.Err? then o
        else (match SetVariableValue(variable, o.result.value, env, o.frames)
          case Ok(fs) => Outcome(Ok(o.result.value), fs)
          case Err(e) => Outcome(Err(e), o.frames)))
  }

  /** evalDefinition: answers with the value, or "ok" for a procedure. */
  function EvalDefinition(exp: Value, env: Env, frames: seq<Frame>, host: Host, fuel: nat): (o: Outcome<Value>)
    ensures |o.frames| >= |frames|
    ensures StoreOk(frames) ==> StoreOk(o.frames)
  {
    match DefinitionVariable(exp)
    case Err(e) => Outcome(Err(e), frames)
    case Ok(variable) =>
      (match DefinitionValue(exp)
      case Err(e) => Outcome(Err(e), frames)
      case Ok(valueExp) =>
        var o := Eval(valueExp, env, frames, host, fuel);
        if o.result.Err? then o
        else (match DefineVariable(variable, o.result.value, env, o.frames)
          case Ok(fs) => Outcome(Ok(DefinitionResult(o.result.value)), fs)
          case Err(e) => Outcome(Err(e), o.frames)))
  }

  /** evalIf: the predicate's value goes through host truthiness; only the
      branch taken is taken apart. */
  function EvalIf(exp: Value, env: Env, frames: seq<Frame>, host: Host, fuel: nat): (o: Outcome<Value>)
    ensures |o.frames| >= |frames|
    ensures StoreOk(frames) ==> StoreOk(o.frames)
  {
    match IfPredicate(exp)
    case Err(e) => Outcome(Err(e), frames)
    case Ok(testExp) =>
      var t := Eval(testExp, env, frames, host, fuel);
      if t.result.Err? then t
      else if Truthy(t.result.value) then
        (match IfConsequent(exp)
        case Err(e) => Outcome(Err(e), t.frames)
        case Ok(consequent) => Eval(consequent, env, t.frames, host, fuel))
      else
        (match IfAlternative(exp)
        case Err(e) => Outcome(Err(e), t.frames)
        case Ok(alternative) => Eval(alternative, env, t.frames, host, fuel))
  }

  /** evalSequence: asks whether the rest is null before anything else, so
      an empty sequence has no rest to ask about. */
  function EvalSequence(exps: Value, env: Env, frames: seq<Frame>, host: Host, fuel: nat): (o: Outcome<Value>)
    ensures |o.frames| >= |frames|
    ensures StoreOk(frames) ==> StoreOk(o.frames)
    decreases exps
  {
    match exps
    case Pair(first, rest) =>
      if rest == Nil then Eval(first, env, frames, host, fuel)
      else
        var o := Eval(first, env, frames, host, fuel);
        if o.result.Err? then o
        else EvalSequence(rest, env, o.frames, host, fuel)
    case _ => Outcome(Err(TypeError), frames)
  }

  /** listOfValues: the operands evaluated first to last. */
  function ListOfValues(exps: Value, env: Env, frames: seq<Frame>, host: Host, fuel: nat): (o: Outcome<seq<Value>>)
    ensures |o.frames| >= |frames|
    ensures StoreOk(frames) ==> StoreOk(o.frames)
    decreases exps
  {
    match exps
    case Nil => Outcome(Ok([]), frames)
    case Pair(first, rest) =>
      var o := Eval(first, env, frames, host, fuel);
      if o.result.Err? then Outcome(Err(o.result.error), o.frames)
      else
        var others := ListOfValues(rest, env, o.frames, host, fuel);
        if others.result.Err? then others
        else Outcome(Ok([o.result.value] + others.result.value), others.frames)
    case _ => Outcome(Err(TypeError), frames)
  }

  /** letValues as the direct evaluator reaches it: the same mapping, with
      each binding's expression evaluated by `LispMachine.eval`. */
  function LetValues(bindings: Value, env: Env, frames: seq<Frame>, host: Host, fuel: nat): (o: Outcome<seq<Value>>)
    ensures |o.frames| >= |frames|
    ensures StoreOk(frames) ==> StoreOk(o.frames)
    decreases bindings
  {
    match bindings
    case Nil => Outcome(Ok([]), frames)
    case Pair(binding, rest) =>
      (match Cadr(binding)
      case Err(e) => Outcome(Err(e), frames)
      case Ok(valueExp) =>
        var o := Eval(valueExp, env, frames, host, fuel);
        if o.result.Err? then Outcome(Err(o.result.error), o.frames)
        else
          var others := LetValues(rest, env, o.frames, host, fuel);
          if others.result.Err? then others
          else Outcome(Ok([o.result.value] + others.result.value), others.frames))
    case _ => Outcome(Err(TypeError), frames)
  }

  /** `LispMachine.apply`. A procedure made by the direct evaluator has its
      body as a list and runs it with evalSequence. A procedure made by
      the analyzing evaluator carries code, not a list; evalSequence takes
      it apart as if it were one and fails once the frame is built. */
  function ApplyProcedure(proc: Value, args: Value, frames: seq<Frame>, host: Host, fuel: nat): (o: Outcome<Value>)
    ensures |o.frames| >= |frames|
    ensures StoreOk(frames) ==> StoreOk(o.frames)
  {
    match proc
    case Primitive(op) => Outcome(ApplyPrimitiveProcedure(op, args, host), frames)
    case Compound(params, body, penv) =>
      (match ExtendEnvironment(params, args, penv, frames)
      case Err(e) => Outcome(Err(e), frames)
      case Ok((env, fs)) => EvalSequence(body, env, fs, host, fuel))
    case Compiled(params, _, penv) =>
      (match ExtendEnvironment(params, args, penv, frames)
      case Err(e) => Outcome(Err(e), frames)
      case Ok((_, fs)) => Outcome(Err(TypeError), fs))
    case _ => Outcome(Err(UnknownProcedureType), frames)
  }
}
