/** The two evaluators side by side: where they agree, and the places
    where the source makes them answer differently. */
module EvaluatorLaws {
  import opened Values
  import opened Pairs
  import opened Syntax
  import opened Environment
  import opened EnvironmentLaws
  import opened Analyzer
  import opened Execution
  import opened Interpreter
  import opened ExecutionLaws

  /** `(tag a b)`. */
  function Form(tag: string, a: Value, b: Value): Value {
    Pair(Sym(tag), Pair(a, Pair(b, Nil)))
  }

  /** `(define name e)`: both evaluators bind the name in the first frame
      to e's value and leave the same store; the analyzing one answers "ok",
      the direct one answers with the value ("ok" only for a procedure). */
  lemma DefineAnswers(name: string, e: Value, env: Env, frames: seq<Frame>, host: Host, fuel: nat)
    requires IsIdentifier(name) && StoreOk(frames) && EnvOk(env, frames) && |env| > 0
    requires Eval(e, env, frames, host, fuel).result.Ok?
    ensures var v := Eval(e, env, frames, host, fuel);
      var analyzed := Eval(Form("define", Sym(name), e), env, frames, host, fuel);
      var direct := Interpret(Form("define", Sym(name), e), env, frames, host, fuel);
      analyzed.result == Ok(Sym("ok"))
      && direct.result == Ok(DefinitionResult(v.result.value))
      && analyzed.frames == direct.frames
      && LookupVariableValue(name, env, analyzed.frames) == Ok(v.result.value)
  {
    var v := Eval(e, env, frames, host, fuel);
    var exp := Form("define", Sym(name), e);
    assert ClassifyAnalyze(exp) == DefinitionExp;
    assert Analyze(exp) == Ok(Define(Sym(name), Analyze(e).value));
    LookupAfterDefine(name, v.result.value, env, v.frames);
  }

  /** `(set! name e)` on a name bound after e has run: both evaluators
      overwrite the innermost binding and leave the same store; the
      analyzing one answers "ok", the direct one the value. On a name bound
      nowhere both fail with UnboundVariable. */
  lemma SetAnswers(name: string, e: Value, env: Env, frames: seq<Frame>, host: Host, fuel: nat)
    requires StoreOk(frames) && EnvOk(env, frames)
    requires Eval(e, env, frames, host, fuel).result.Ok?
    ensures var v := Eval(e, env, frames, host, fuel);
      var analyzed := Eval(Form("set!", Sym(name), e), env, frames, host, fuel);
      var direct := Interpret(Form("set!", Sym(name), e), env, frames, host, fuel);
      EnvOk(env, v.frames)
      && (Unbound(Sym(name), env, v.frames) ==>
            analyzed == direct == Outcome(Err(UnboundVariable), v.frames))
      && (!Unbound(Sym(name), env, v.frames) ==>
            analyzed.result == Ok(Sym("ok")) && direct.result == Ok(v.result.value)
            && analyzed.frames == direct.frames
            && LookupVariableValue(name, env, analyzed.frames) == Ok(v.result.value))
  {
    var v := Eval(e, env, frames, host, fuel);
    var exp := Form("set!", Sym(name), e);
    assert ClassifyAnalyze(exp) == AssignmentExp;
    assert Analyze(exp) == Ok(Assign(Sym(name), Analyze(e).value));
    SetVariableValueSpec(Sym(name), v.result.value, env, v.frames);
    if !Unbound(Sym(name), env, v.frames) {
      LookupAfterSet(name, v.result.value, env, v.frames);
    }
  }

  /** `(if t c a)`: the analyzing evaluator takes the consequent only when
      the test answers exactly true; the direct one whenever the answer is
      truthy. */
  lemma IfTests(t: Value, c: Value, a: Value, env: Env, frames: seq<Frame>, host: Host, fuel: nat)
    requires Analyze(c).Ok? && Analyze(a).Ok?
    ensures var exp := MakeIf(t, c, a);
      var test := Eval(t, env, frames, host, fuel);
      && Eval(exp, env, frames, host, fuel) ==
        (if test.result.Err? then test
         else if test.result.value == Bool(true) then Eval(c, env, test.frames, host, fuel)
         else Eval(a, env, test.frames, host, fuel))
      && Interpret(exp, env, frames, host, fuel) ==
        (if test.result.Err? then test
         else if Truthy(test.result.value) then Eval(c, env, test.frames, host, fuel)
         else Eval(a, env, test.frames, host, fuel))
  {
    var exp := MakeIf(t, c, a);
    assert ClassifyAnalyze(exp) == IfExp;
    assert IfAlternative(exp) == Ok(a);
    if Analyze(t).Ok? {
      assert Analyze(exp) == Ok(If(Analyze(t).value, Analyze(c).value, Analyze(a).value));
    }
  }

  /** `(if 1 2 3)` answers 3 when analyzed and 2 when interpreted directly. */
  lemma IfOneTwoThree(env: Env, frames: seq<Frame>, host: Host, fuel: nat)
    ensures Eval(MakeIf(Num(1), Num(2), Num(3)), env, frames, host, fuel) == Outcome(Ok(Num(3)), frames)
    ensures Interpret(MakeIf(Num(1), Num(2), Num(3)), env, frames, host, fuel) == Outcome(Ok(Num(2)), frames)
  {
    IfTests(Num(1), Num(2), Num(3), env, frames, host, fuel);
  }

  /** On self-evaluating expressions, variables, quotations and `cond`
      forms the two evaluators give the same outcome. */
  lemma EvaluatorsAgree(exp: Value, env: Env, frames: seq<Frame>, host: Host, fuel: nat)
    requires ClassifyDirect(exp) in {SelfEvaluatingExp, VariableExp, QuotedExp, CondExp}
    ensures Interpret(exp, env, frames, host, fuel) == Eval(exp, env, frames, host, fuel)
  {
    ClassificationOrderAgrees(exp);
    if ClassifyDirect(exp) == CondExp {
      var r := CondToIf(exp);
      if r.Ok? { CondToIfRemovesCond(exp); }
    }
  }

  /** `(begin)`: the direct evaluator asks for the rest of null and fails
      with a TypeError; the analyzing one reports an empty sequence. */
  lemma EmptyBegin(env: Env, frames: seq<Frame>, host: Host, fuel: nat)
    ensures Interpret(Pair(Sym("begin"), Nil), env, frames, host, fuel) == Outcome(Err(TypeError), frames)
    ensures Eval(Pair(Sym("begin"), Nil), env, frames, host, fuel) == Outcome(Err(EmptySequence), frames)
  {
    assert ClassifyAnalyze(Pair(Sym("begin"), Nil)) == BeginExp;
  }

  /** `(lambda params . body)`: the direct evaluator makes a procedure that
      keeps the body as a list; the analyzing one makes a procedure that
      keeps the body's code, which runs the body first to last. Both close
      over the current environment and change no frame. */
  lemma LambdaForms(params: Value, body: Value, env: Env, frames: seq<Frame>, host: Host, fuel: nat)
    requires body.Pair? && AnalyzeList(body).Ok?
    ensures Interpret(MakeLambda(params, body), env, frames, host, fuel) == Outcome(Ok(Compound(params, body, env)), frames)
    ensures var r := Eval(MakeLambda(params, body), env, frames, host, fuel);
      r.frames == frames && r.result.Ok? && r.result.value.Compiled?
      && r.result.value.params == params && r.result.value.env == env
      && forall fs: seq<Frame>, e: Env ::
           Run(r.result.value.code, e, fs, host, fuel) == RunInOrder(AnalyzeList(body).value, e, fs, host, fuel)
  {
    var exp := MakeLambda(params, body);
    assert ClassifyDirect(exp) == LambdaExp;
    assert ClassifyAnalyze(exp) == LambdaExp;
    AnalyzeSequenceSpec(body, env, frames, host, fuel);
    var code := AnalyzeSequence(body).value;
    assert LambdaParameters(exp) == Ok(params) && LambdaBody(exp) == Ok(body);
    assert Analyze(exp) == Ok(Lambda(params, code));
    assert Eval(exp, env, frames, host, fuel) == Outcome(Ok(Compiled(params, code, env)), frames);
    forall fs: seq<Frame>, e: Env
      ensures Run(AnalyzeSequence(body).value, e, fs, host, fuel) == RunInOrder(AnalyzeList(body).value, e, fs, host, fuel)
    {
      AnalyzeSequenceSpec(body, e, fs, host, fuel);
    }
  }

  // ---- bodies, operands and let bindings under the direct evaluator -----

  /** The direct evalSequence runs a non-empty body first to last and
      answers with the last value: each expression goes through the
      rebound eval, so the body means what its analyzed pieces mean. */
  lemma {:induction false} EvalSequenceRunsInOrder(exps: Value, env: Env, frames: seq<Frame>, host: Host, fuel: nat)
    requires exps.Pair? && AnalyzeList(exps).Ok?
    ensures EvalSequence(exps, env, frames, host, fuel)
         == RunInOrder(AnalyzeList(exps).value, env, frames, host, fuel)
    decreases exps
  {
    var codes := AnalyzeList(exps).value;
    assert codes[0] == Analyze(exps.car).value;
    assert codes[1..] == AnalyzeList(exps.cdr).value;
    if exps.cdr != Nil {
      var o := Eval(exps.car, env, frames, host, fuel);
      EvalSequenceRunsInOrder(exps.cdr, env, o.frames, host, fuel);
    }
  }

  /** `(begin e1 ... en)` with n > 0: both evaluators run e1 .. en first to
      last and answer with the last value, in the same store. */
  lemma BeginAgrees(exps: Value, env: Env, frames: seq<Frame>, host: Host, fuel: nat)
    requires exps.Pair? && AnalyzeList(exps).Ok?
    ensures Interpret(Pair(Sym("begin"), exps), env, frames, host, fuel)
         == RunInOrder(AnalyzeList(exps).value, env, frames, host, fuel)
    ensures Eval(Pair(Sym("begin"), exps), env, frames, host, fuel)
         == RunInOrder(AnalyzeList(exps).value, env, frames, host, fuel)
  {
    var exp := Pair(Sym("begin"), exps);
    assert ClassifyDirect(exp) == BeginExp;
    assert ClassifyAnalyze(exp) == BeginExp;
    EvalSequenceRunsInOrder(exps, env, frames, host, fuel);
    AnalyzeSequenceSpec(exps, env, frames, host, fuel);
  }

  /** The direct listOfValues is the analyzed operands run first to last. */
  lemma {:induction false} ListOfValuesRunsOperands(exps: Value, env: Env, frames: seq<Frame>, host: Host, fuel: nat)
    requires AnalyzeList(exps).Ok?
    ensures ListOfValues(exps, env, frames, host, fuel)
         == RunOperands(AnalyzeList(exps).value, env, frames, host, fuel)
    decreases exps
  {
    if exps.Pair? {
      var codes := AnalyzeList(exps).value;
      assert codes[0] == Analyze(exps.car).value;
      assert codes[1..] == AnalyzeList(exps.cdr).value;
      var o := Eval(exps.car, env, frames, host, fuel);
      ListOfValuesRunsOperands(exps.cdr, env, o.frames, host, fuel);
    }
  }

  /** The direct letValues evaluates the bindings as the analyzed let does,
      binding by binding; only the fuel differs, because the analyzed one
      spends a unit per binding. */
  lemma {:induction false} LetValuesRunsLetValues(bindings: Value, env: Env, frames: seq<Frame>, host: Host, fuel: nat)
    ensures LetValues(bindings, env, frames, host, fuel)
         == RunLetValues(bindings, env, frames, host, fuel + 1)
    decreases bindings
  {
    if bindings.Pair? && Cadr(bindings.car).Ok? && Analyze(Cadr(bindings.car).value).Ok? {
      var o := Eval(Cadr(bindings.car).value, env, frames, host, fuel);
      LetValuesRunsLetValues(bindings.cdr, env, o.frames, host, fuel);
    }
  }

  // ---- application ------------------------------------------------------

  /** The direct apply: a primitive goes through the argument convention as
      in executeApplication; a direct procedure runs its body first to last
      in a new frame binding its parameters; a procedure made by the
      analyzing evaluator fails with a TypeError once its frame is built;
      a parameter and argument count mismatch fails before any frame is
      built; anything else is not a procedure. */
  lemma ApplyProcedureSpec(proc: Value, args: Value, frames: seq<Frame>, host: Host, fuel: nat)
    ensures proc.Primitive? ==>
      ApplyProcedure(proc, args, frames, host, fuel) == ExecuteApplication(proc, args, frames, host, fuel)
      == Outcome(ApplyPrimitiveProcedure(proc.op, args, host), frames)
    ensures !(proc.Primitive? || proc.Compound? || proc.Compiled?) ==>
      ApplyProcedure(proc, args, frames, host, fuel) == Outcome(Err(UnknownProcedureType), frames)
    ensures ((proc.Compound? || proc.Compiled?) && IsList(proc.params) && IsList(args)
             && |Elements(proc.params)| != |Elements(args)|) ==>
      ApplyProcedure(proc, args, frames, host, fuel) == Outcome(Err(ArityMismatch), frames)
    ensures proc.Compiled? && IsList(proc.params) && IsList(args) && |Elements(proc.params)| == |Elements(args)| ==>
      ApplyProcedure(proc, args, frames, host, fuel)
        == Outcome(Err(TypeError), frames + [Frame(Elements(proc.params), Elements(args))])
    ensures (proc.Compound? && IsList(proc.params) && IsList(args) && |Elements(proc.params)| == |Elements(args)|
             && proc.body.Pair? && AnalyzeList(proc.body).Ok?) ==>
      ApplyProcedure(proc, args, frames, host, fuel)
        == RunInOrder(AnalyzeList(proc.body).value, [|frames|] + proc.env,
                      frames + [Frame(Elements(proc.params), Elements(args))], host, fuel)
  {
    if (proc.Compound? || proc.Compiled?) && IsList(proc.params) && IsList(args) {
      LengthIsElementCount(proc.params);
      LengthIsElementCount(args);
      if proc.Compound? && |Elements(proc.params)| == |Elements(args)| && proc.body.Pair? && AnalyzeList(proc.body).Ok? {
        EvalSequenceRunsInOrder(proc.body, [|frames|] + proc.env,
          frames + [Frame(Elements(proc.params), Elements(args))], host, fuel);
      }
    }
  }

  /** An application whose operands analyze: both evaluators evaluate the
      operator, then the operands first to last, each in the store the
      previous one left; they differ only in the procedure that is then
      applied, apply for the direct one and executeApplication for the
      analyzing one. */
  lemma ApplicationAgreesUpToApply(exp: Value, env: Env, frames: seq<Frame>, host: Host, fuel: nat)
    requires exp.Pair? && !(exp.car.Sym? && exp.car.name in ReservedTags) && AnalyzeList(exp.cdr).Ok?
    ensures var f := Eval(exp.car, env, frames, host, fuel);
      var vs := RunOperands(AnalyzeList(exp.cdr).value, env, f.frames, host, fuel);
      && Interpret(exp, env, frames, host, fuel) ==
        (if f.result.Err? then f
         else if vs.result.Err? then Outcome(Err(vs.result.error), vs.frames)
         else ApplyProcedure(f.result.value, List(vs.result.value), vs.frames, host, fuel))
      && Eval(exp, env, frames, host, fuel) ==
        (if f.result.Err? then f
         else if vs.result.Err? then Outcome(Err(vs.result.error), vs.frames)
         else ExecuteApplication(f.result.value, List(vs.result.value), vs.frames, host, fuel))
  {
    assert ClassifyAnalyze(exp) == ApplicationExp;
    ClassificationOrderAgrees(exp);
    var f := Eval(exp.car, env, frames, host, fuel);
    ListOfValuesRunsOperands(exp.cdr, env, f.frames, host, fuel);
  }

  /** A `let` the analyzing evaluator can compile never succeeds under the
      direct evaluator: the lambda it builds comes back from the rebound
      eval as analyzed code, which the direct apply cannot run. */
  lemma DirectLetFails(bindings: Value, body: Value, env: Env, frames: seq<Frame>, host: Host, fuel: nat)
    requires MapCar(bindings).Ok? && AnalyzeSequence(body).Ok?
    ensures Interpret(Pair(Sym("let"), Pair(bindings, body)), env, frames, host, fuel).result.Err?
  {
    var exp := Pair(Sym("let"), Pair(bindings, body));
    var vars := MapCar(bindings).value;
    var lambda := MakeLambda(vars, body);
    assert ClassifyDirect(exp) == LetExp;
    assert LetToLambda(exp) == Ok(lambda);
    assert ClassifyAnalyze(lambda) == LambdaExp;
    assert Analyze(lambda) == Ok(Lambda(vars, AnalyzeSequence(body).value));
    assert Eval(lambda, env, frames, host, fuel).result == Ok(Compiled(vars, AnalyzeSequence(body).value, env));
  }

  /** The identity procedure `(lambda (x) x)` and its code. */
  function IdentityLambda(): Value {
    Form("lambda", Pair(Sym("x"), Nil), Sym("x"))
  }

  lemma AnalyzeIdentity()
    ensures Analyze(IdentityLambda()) == Ok(Lambda(Pair(Sym("x"), Nil), Var("x")))
    ensures Analyze(Sym("x")) == Ok(Var("x"))
  {
    assert ClassifyAnalyze(Sym("x")) == VariableExp;
    assert Analyze(Sym("x")) == Ok(Var("x"));
    assert AnalyzeList(Nil) == Ok([]);
    assert [Var("x")] + [] == [Var("x")];
    assert AnalyzeList(Pair(Sym("x"), Nil)) == Ok([Var("x")]);
    assert AnalyzeSequence(Pair(Sym("x"), Nil)) == Ok(Var("x"));
    assert ClassifyAnalyze(IdentityLambda()) == LambdaExp;
  }

  /** Calling the identity code on 5 through executeApplication binds x to
      5 in a new frame and answers 5. */
  lemma ExecuteIdentity(env: Env, frames: seq<Frame>, host: Host, fuel: nat)
    requires fuel > 0
    ensures ExecuteApplication(Compiled(Pair(Sym("x"), Nil), Var("x"), env), List([Num(5)]), frames, host, fuel).result == Ok(Num(5))
  {
    var params := Pair(Sym("x"), Nil);
    assert List([Num(5)]) == Pair(Num(5), Nil);
    assert Elements(params) == [Sym("x")];
    assert Elements(Pair(Num(5), Nil)) == [Num(5)];
    var fs := frames + [Frame([Sym("x")], [Num(5)])];
    assert ExtendEnvironment(params, Pair(Num(5), Nil), env, frames) == Ok(([|frames|] + env, fs));
    assert ScanFrame(Sym("x"), fs[|frames|]) == Found(0);
    assert LookupVariableValue("x", [|frames|] + env, fs) == Ok(Num(5));
  }

  /** `((lambda (x) x) 5)`, analyzed, answers 5. */
  lemma IdentityApplication(env: Env, frames: seq<Frame>, host: Host, fuel: nat)
    requires fuel > 0
    ensures Eval(Pair(IdentityLambda(), Pair(Num(5), Nil)), env, frames, host, fuel).result == Ok(Num(5))
  {
    var params := Pair(Sym("x"), Nil);
    var exp := Pair(IdentityLambda(), Pair(Num(5), Nil));
    AnalyzeIdentity();
    assert ClassifyAnalyze(exp) == ApplicationExp;
    assert Analyze(Num(5)) == Ok(Const(Num(5)));
    assert [Const(Num(5))] + [] == [Const(Num(5))];
    assert AnalyzeList(Pair(Num(5), Nil)) == Ok([Const(Num(5))]);
    var code := Apply(Lambda(params, Var("x")), [Const(Num(5))]);
    assert Analyze(exp) == Ok(code);
    var proc := Compiled(params, Var("x"), env);
    assert Run(Lambda(params, Var("x")), env, frames, host, fuel) == Outcome(Ok(proc), frames);
    assert [Num(5)] + [] == [Num(5)];
    assert RunOperands([], env, frames, host, fuel) == Outcome(Ok([]), frames);
    assert RunOperands([Const(Num(5))], env, frames, host, fuel) == Outcome(Ok([Num(5)]), frames);
    ExecuteIdentity(env, frames, host, fuel);
    assert Run(code, env, frames, host, fuel) == ExecuteApplication(proc, List([Num(5)]), frames, host, fuel);
  }

  /** `((lambda (x) x) 5)`, interpreted directly, fails: the operator is
      made by the analyzing evaluator, and the direct `apply` cannot run
      its code. */
  lemma IdentityApplicationDirect(env: Env, frames: seq<Frame>, host: Host, fuel: nat)
    ensures Interpret(Pair(IdentityLambda(), Pair(Num(5), Nil)), env, frames, host, fuel).result == Err(TypeError)
  {
    var params := Pair(Sym("x"), Nil);
    var exp := Pair(IdentityLambda(), Pair(Num(5), Nil));
    AnalyzeIdentity();
    assert ClassifyDirect(exp) == ApplicationExp;
    var proc := Compiled(params, Var("x"), env);
    assert Eval(IdentityLambda(), env, frames, host, fuel) == Outcome(Ok(proc), frames);
    assert Analyze(Num(5)) == Ok(Const(Num(5)));
    assert Eval(Num(5), env, frames, host, fuel) == Outcome(Ok(Num(5)), frames);
    assert [Num(5)] + [] == [Num(5)];
    assert ListOfValues(Nil, env, frames, host, fuel) == Outcome(Ok([]), frames);
    assert ListOfValues(Pair(Num(5), Nil), env, frames, host, fuel) == Outcome(Ok([Num(5)]), frames);
    assert List([Num(5)]) == Pair(Num(5), Nil);
    assert Elements(Pair(Num(5), Nil)) == [Num(5)];
    assert ExtendEnvironment(params, Pair(Num(5), Nil), env, frames).Ok?;
    assert ApplyProcedure(proc, Pair(Num(5), Nil), frames, host, fuel).result == Err(TypeError);
  }

  /** `((lambda () 5))`: with the intended arity guard a procedure without
      parameters can be called. */
  lemma NoParameterApplication(env: Env, frames: seq<Frame>, host: Host, fuel: nat)
    requires fuel > 0
    ensures var exp := Pair(Pair(Sym("lambda"), Pair(Nil, Pair(Num(5), Nil))), Nil);
      Eval(exp, env, frames, host, fuel).result == Ok(Num(5))
  {
    var lambda := Pair(Sym("lambda"), Pair(Nil, Pair(Num(5), Nil)));
    var exp := Pair(lambda, Nil);
    assert Analyze(Num(5)) == Ok(Const(Num(5)));
    assert [Const(Num(5))] + [] == [Const(Num(5))];
    assert AnalyzeList(Pair(Num(5), Nil)) == Ok([Const(Num(5))]);
    assert AnalyzeSequence(Pair(Num(5), Nil)) == Ok(Const(Num(5)));
    assert ClassifyAnalyze(lambda) == LambdaExp;
    assert Analyze(lambda) == Ok(Lambda(Nil, Const(Num(5))));
    assert ClassifyAnalyze(exp) == ApplicationExp;
    var code := Apply(Lambda(Nil, Const(Num(5))), []);
    assert Analyze(exp) == Ok(code);
    var proc := Compiled(Nil, Const(Num(5)), env);
    assert Run(Lambda(Nil, Const(Num(5))), env, frames, host, fuel) == Outcome(Ok(proc), frames);
    assert RunOperands([], env, frames, host, fuel) == Outcome(Ok([]), frames);
    assert List([]) == Nil;
    var fs := frames + [Frame([], [])];
    assert ExtendEnvironment(Nil, Nil, env, frames) == Ok(([|frames|] + env, fs));
    assert Run(Const(Num(5)), [|frames|] + env, fs, host, fuel - 1).result == Ok(Num(5));
    assert ExecuteApplication(proc, Nil, frames, host, fuel).result == Ok(Num(5));
    assert Run(code, env, frames, host, fuel) == ExecuteApplication(proc, Nil, frames, host, fuel);
  }

  /** `(let ((x 5)) x)`. */
  function LetExample(): Value {
    Form("let", Pair(Pair(Sym("x"), Pair(Num(5), Nil)), Nil), Sym("x"))
  }

  lemma AnalyzeLetExample()
    ensures Analyze(LetExample())
      == Ok(Let(Lambda(Pair(Sym("x"), Nil), Var("x")), Pair(Pair(Sym("x"), Pair(Num(5), Nil)), Nil)))
  {
    var bindings := Pair(Pair(Sym("x"), Pair(Num(5), Nil)), Nil);
    AnalyzeIdentity();
    assert ClassifyAnalyze(LetExample()) == LetExp;
    assert MapCar(Nil) == Ok(Nil);
    assert MapCar(bindings) == Ok(Pair(Sym("x"), Nil));
    assert AnalyzeSequence(Pair(Sym("x"), Nil)) == Ok(Var("x"));
  }

  lemma RunLetValuesExample(env: Env, frames: seq<Frame>, host: Host, fuel: nat)
    requires fuel > 0
    ensures RunLetValues(Pair(Pair(Sym("x"), Pair(Num(5), Nil)), Nil), env, frames, host, fuel)
      == Outcome(Ok([Num(5)]), frames)
  {
    var binding := Pair(Sym("x"), Pair(Num(5), Nil));
    assert Cadr(binding) == Ok(Num(5));
    assert Analyze(Num(5)) == Ok(Const(Num(5)));
    assert Run(Const(Num(5)), env, frames, host, fuel - 1) == Outcome(Ok(Num(5)), frames);
    assert RunLetValues(Nil, env, frames, host, fuel) == Outcome(Ok([]), frames);
    assert [Num(5)] + [] == [Num(5)];
  }

  /** `(let ((x 5)) x)` answers 5 when analyzed. */
  lemma LetBindsItsVariable(env: Env, frames: seq<Frame>, host: Host, fuel: nat)
    requires fuel > 0
    ensures Eval(LetExample(), env, frames, host, fuel).result == Ok(Num(5))
  {
    var bindings := Pair(Pair(Sym("x"), Pair(Num(5), Nil)), Nil);
    var params := Pair(Sym("x"), Nil);
    var code := Let(Lambda(params, Var("x")), bindings);
    AnalyzeLetExample();
    var proc := Compiled(params, Var("x"), env);
    assert Run(Lambda(params, Var("x")), env, frames, host, fuel) == Outcome(Ok(proc), frames);
    RunLetValuesExample(env, frames, host, fuel);
    ExecuteIdentity(env, frames, host, fuel);
    assert Run(code, env, frames, host, fuel) == ExecuteApplication(proc, List([Num(5)]), frames, host, fuel);
  }
}
