/** What the analyzing evaluator promises: a body runs its expressions
    first to last and answers with the last value, a compound procedure
    runs in a frame binding its parameters, the analyzed `set!` and
    `define` answer "ok", and `if` takes its consequent only on `true`. */
module ExecutionLaws {
  import opened Values
  import opened Pairs
  import opened Syntax
  import opened Environment
  import opened EnvironmentLaws
  import opened Analyzer
  import opened Execution

  // ---- sequences ------------------------------------------------------

  /** The reference meaning of a body: run the pieces one after another,
      each in the store the previous one left, stop at the first error, and
      answer with the last piece's value. */
  function RunInOrder(codes: seq<Code>, env: Env, frames: seq<Frame>, host: Host, fuel: nat): Outcome<Value>
    requires |codes| > 0
    decreases |codes|
  {
    var o := Run(codes[0], env, frames, host, fuel);
    if |codes| == 1 || o.result.Err? then o
    else RunInOrder(codes[1..], env, o.frames, host, fuel)
  }

  /** Running `sequentially(a, b)` first is running a, then b. */
  lemma SequentiallyUnfolds(a: Code, b: Code, rest: seq<Code>, env: Env, frames: seq<Frame>, host: Host, fuel: nat)
    ensures RunInOrder([Sequence(a, b)] + rest, env, frames, host, fuel)
         == RunInOrder([a, b] + rest, env, frames, host, fuel)
  {
    var o := Run(a, env, frames, host, fuel);
    assert ([a, b] + rest)[1..] == [b] + rest;
    if o.result.Ok? && |rest| > 0 {
      var o2 := Run(b, env, o.frames, host, fuel);
      assert ([b] + rest)[1..] == rest;
      assert ([Sequence(a, b)] + rest)[1..] == rest;
    }
  }

  /** The left fold sequenceLoop builds runs its pieces in the order they
      were written. */
  lemma {:induction false} SequenceLoopRunsInOrder(first: Code, rest: seq<Code>, env: Env, frames: seq<Frame>, host: Host, fuel: nat)
    ensures Run(SequenceLoop(first, rest), env, frames, host, fuel)
         == RunInOrder([first] + rest, env, frames, host, fuel)
    decreases |rest|
  {
    if |rest| > 0 {
      SequenceLoopRunsInOrder(Sequence(first, rest[0]), rest[1..], env, frames, host, fuel);
      SequentiallyUnfolds(first, rest[0], rest[1..], env, frames, host, fuel);
      assert [first, rest[0]] + rest[1..] == [first] + rest;
    }
  }

  /** When map(analyze, exps) succeeds, exps is a proper list and the
      result holds the code of every element, in order. */
  lemma {:induction false} AnalyzeListCodes(exps: Value)
    requires AnalyzeList(exps).Ok?
    ensures IsList(exps) && |AnalyzeList(exps).value| == |Elements(exps)|
    ensures forall i :: 0 <= i < |Elements(exps)| ==> Analyze(Elements(exps)[i]) == Ok(AnalyzeList(exps).value[i])
    decreases exps
  {
    if exps.Pair? {
      AnalyzeListCodes(exps.cdr);
      var es := Elements(exps);
      var tail := Elements(exps.cdr);
      var codes := AnalyzeList(exps).value;
      var rest := AnalyzeList(exps.cdr).value;
      assert es == [exps.car] + tail;
      assert codes == [Analyze(exps.car).value] + rest;
      forall i | 0 <= i < |es|
        ensures Analyze(es[i]) == Ok(codes[i])
      {
        if i > 0 { assert es[i] == tail[i - 1] && codes[i] == rest[i - 1]; }
      }
    }
  }

  /** map(analyze, exps) succeeds on a proper list whose every element
      analyzes. */
  lemma {:induction false} AnalyzeListOfAnalyzable(exps: Value)
    requires IsList(exps) && forall i :: 0 <= i < |Elements(exps)| ==> Analyze(Elements(exps)[i]).Ok?
    ensures AnalyzeList(exps).Ok?
    decreases exps
  {
    if exps.Pair? {
      var es := Elements(exps);
      var tail := Elements(exps.cdr);
      assert es == [exps.car] + tail;
      assert Analyze(es[0]).Ok?;
      forall i | 0 <= i < |tail|
        ensures Analyze(tail[i]).Ok?
      {
        assert tail[i] == es[i + 1];
      }
      AnalyzeListOfAnalyzable(exps.cdr);
    }
  }

  /** A proper list whose every element analyzes. */
  predicate EveryElementAnalyzes(exps: Value) {
    IsList(exps) && forall i :: 0 <= i < |Elements(exps)| ==> Analyze(Elements(exps)[i]).Ok?
  }

  /** map(analyze, exps) succeeds exactly on proper lists whose every
      element analyzes. */
  lemma AnalyzeListSucceeds(exps: Value)
    ensures AnalyzeList(exps).Ok? <==> EveryElementAnalyzes(exps)
  {
    if EveryElementAnalyzes(exps) {
      AnalyzeListOfAnalyzable(exps);
    }
    if AnalyzeList(exps).Ok? {
      AnalyzeListCodes(exps);
    }
  }

  /** analyzeSequence: an empty body is an error; otherwise, when every
      expression analyzes, the body runs its expressions first to last and
      answers with the last value. */
  lemma AnalyzeSequenceSpec(exps: Value, env: Env, frames: seq<Frame>, host: Host, fuel: nat)
    ensures exps == Nil ==> AnalyzeSequence(exps) == Err(EmptySequence)
    ensures exps != Nil && AnalyzeList(exps).Ok? ==>
      AnalyzeSequence(exps).Ok?
      && Run(AnalyzeSequence(exps).value, env, frames, host, fuel)
         == RunInOrder(AnalyzeList(exps).value, env, frames, host, fuel)
  {
    if exps != Nil && AnalyzeList(exps).Ok? {
      var codes := AnalyzeList(exps).value;
      assert exps.Pair?;
      assert |codes| > 0;
      SequenceLoopRunsInOrder(codes[0], codes[1..], env, frames, host, fuel);
      assert [codes[0]] + codes[1..] == codes;
    }
  }

  /** A body answers with its last expression, run in the store the
      earlier ones left, unless one of them failed. */
  lemma {:induction false} RunInOrderAnswersLast(codes: seq<Code>, env: Env, frames: seq<Frame>, host: Host, fuel: nat)
    requires |codes| >= 2
    ensures var o := RunInOrder(codes[..|codes| - 1], env, frames, host, fuel);
      RunInOrder(codes, env, frames, host, fuel) ==
        if o.result.Err? then o else Run(codes[|codes| - 1], env, o.frames, host, fuel)
    decreases |codes|
  {
    var o := Run(codes[0], env, frames, host, fuel);
    assert codes[..|codes| - 1][0] == codes[0];
    if |codes| > 2 && o.result.Ok? {
      RunInOrderAnswersLast(codes[1..], env, o.frames, host, fuel);
      assert codes[..|codes| - 1][1..] == codes[1..][..|codes[1..]| - 1];
    }
  }

  // ---- operands and let bindings ----------------------------------------

  /** The operands run first to last: the values before position i are
      exactly what running the first i operands gives, and the i-th value
      is the i-th operand run in the store those left. */
  lemma {:induction false} RunOperandsInOrder(codes: seq<Code>, env: Env, frames: seq<Frame>, host: Host, fuel: nat, i: nat)
    requires RunOperands(codes, env, frames, host, fuel).result.Ok? && i < |codes|
    ensures var vs := RunOperands(codes, env, frames, host, fuel).result.value;
      var before := RunOperands(codes[..i], env, frames, host, fuel);
      before.result == Ok(vs[..i])
      && Run(codes[i], env, before.frames, host, fuel).result == Ok(vs[i])
    decreases i
  {
    var vs := RunOperands(codes, env, frames, host, fuel).result.value;
    var first := Run(codes[0], env, frames, host, fuel);
    var rest := RunOperands(codes[1..], env, first.frames, host, fuel);
    assert vs == [first.result.value] + rest.result.value;
    if i == 0 {
      assert codes[..0] == [];
    } else {
      RunOperandsInOrder(codes[1..], env, first.frames, host, fuel, i - 1);
      var prefix := codes[..i];
      assert prefix[0] == codes[0];
      assert prefix[1..] == codes[1..][..i - 1];
      assert codes[1..][i - 1] == codes[i];
      assert vs[..i] == [first.result.value] + rest.result.value[..i - 1];
    }
  }

  /** What letValues maps over the bindings: the second element of each,
      analyzed. */
  function BindingCodes(bindings: Value): Result<seq<Code>>
    decreases bindings
  {
    match bindings
    case Nil => Ok([])
    case Pair(binding, rest) =>
      var valueExp :- Cadr(binding);
      var code :- Analyze(valueExp);
      var codes :- BindingCodes(rest);
      Ok([code] + codes)
    case _ => Err(TypeError)
  }

  /** When every binding has a value expression that analyzes, the let's
      values are its binding codes run as operands are, first to last, each
      with one unit of fuel less. */
  lemma {:induction false} RunLetValuesRunsOperands(bindings: Value, env: Env, frames: seq<Frame>, host: Host, fuel: nat)
    requires BindingCodes(bindings).Ok? && fuel > 0
    ensures RunLetValues(bindings, env, frames, host, fuel)
         == RunOperands(BindingCodes(bindings).value, env, frames, host, fuel - 1)
    decreases bindings
  {
    if bindings.Pair? {
      var codes := BindingCodes(bindings).value;
      var first := Run(codes[0], env, frames, host, fuel - 1);
      assert codes[1..] == BindingCodes(bindings.cdr).value;
      RunLetValuesRunsOperands(bindings.cdr, env, first.frames, host, fuel);
    }
  }

  // ---- procedure application -------------------------------------------

  /** executeApplication on a compound procedure whose parameter and
      argument lists have the same length runs the body in a new frame, in
      front of the environment the procedure was made in; in that frame
      every parameter names its argument, and every other name means what
      it meant where the procedure was made. */
  lemma ExecuteCompiledProcedure(params: Value, body: Code, penv: Env, args: Value, frames: seq<Frame>, host: Host, fuel: nat, name: string)
    requires StoreOk(frames) && EnvOk(penv, frames) && fuel > 0
    requires IsList(params) && IsList(args) && |Elements(params)| == |Elements(args)|
    ensures var env := [|frames|] + penv;
      var fs := frames + [Frame(Elements(params), Elements(args))];
      ExecuteApplication(Compiled(params, body, penv), args, frames, host, fuel)
        == Run(body, env, fs, host, fuel - 1)
      && LookupVariableValue(name, env, fs) ==
        match FirstIndex(Sym(name), Elements(params))
        case Some(j) => Ok(Elements(args)[j])
        case None => LookupVariableValue(name, penv, frames)
  {
    LengthIsElementCount(params);
    LengthIsElementCount(args);
    LookupAfterExtend(name, params, args, penv, frames);
  }

  /** A compound procedure called with the wrong number of arguments fails
      before its body runs, and the store is unchanged. */
  lemma ExecuteArityMismatch(params: Value, body: Code, penv: Env, args: Value, frames: seq<Frame>, host: Host, fuel: nat)
    requires fuel > 0 && IsList(params) && IsList(args) && |Elements(params)| != |Elements(args)|
    ensures ExecuteApplication(Compiled(params, body, penv), args, frames, host, fuel)
         == Outcome(Err(ArityMismatch), frames)
  {
    LengthIsElementCount(params);
    LengthIsElementCount(args);
  }

  /** Anything that is neither a primitive nor a compound procedure cannot
      be applied, and nothing changes. */
  lemma ExecuteUnknownProcedure(proc: Value, args: Value, frames: seq<Frame>, host: Host, fuel: nat)
    requires !(proc.Primitive? || proc.Compiled? || proc.Compound?)
    ensures ExecuteApplication(proc, args, frames, host, fuel) == Outcome(Err(UnknownProcedureType), frames)
  {
  }

  /** For a proper list of arguments, a host primitive receives every
      argument, in order, and the conversion back gives the list again. */
  lemma HostPrimitiveGetsArguments(name: string, args: Value, host: Host)
    requires DeepList(args)
    ensures ApplyPrimitiveProcedure(HostOp(name), args, host) == host(name, ListToArray(args))
    ensures ArrayToList(ListToArray(args)) == args
  {
    ListRoundTrip(args);
  }
}
