/** The analyzing evaluator's first half: `analyze` turns an expression
    into execution code once, before any environment is seen. The code is
    the Code datatype; running it is in the Execution module. */
module Analyzer {
  import opened Values
  import opened Pairs
  import opened Syntax

  /** The number of occurrences of the symbol `cond` in a value. Expanding
      a `cond` removes one and adds none, which is why analysis ends even
      though the expansion is a larger tree than the `cond` form. */
  function CondCount(v: Value): nat {
    match v
    case Sym(s) => if s == "cond" then 1 else 0
    case Pair(a, d) => CondCount(a) + CondCount(d)
    case _ => 0
  }

  /** sequenceExp adds no `cond`. */
  lemma SequenceExpKeepsCondCount(s: Value)
    requires SequenceExp(s).Ok?
    ensures CondCount(SequenceExp(s).value) <= CondCount(s)
  {
  }

  /** makeIf adds no `cond`. */
  lemma CondCountOfIf(test: Value, consequent: Value, alternative: Value)
    ensures CondCount(MakeIf(test, consequent, alternative))
         == CondCount(test) + CondCount(consequent) + CondCount(alternative)
  {
    var tail := Pair(alternative, Nil);
    assert CondCount(tail) == CondCount(alternative);
    assert CondCount(Pair(consequent, tail)) == CondCount(consequent) + CondCount(alternative);
    assert CondCount(Pair(test, Pair(consequent, tail))) == CondCount(test) + CondCount(consequent) + CondCount(alternative);
  }

  /** expandClauses only rearranges pieces of the clauses, adding `if`,
      `begin`, `false` and null. */
  lemma {:induction false} ExpandClausesKeepsCondCount(clauses: Value)
    requires ExpandClauses(clauses).Ok?
    ensures CondCount(ExpandClauses(clauses).value) <= CondCount(clauses)
    decreases clauses
  {
    match clauses
    case Nil =>
    case Pair(first, rest) =>
      var actions := first.cdr;
      SequenceExpKeepsCondCount(actions);
      var consequent := SequenceExp(actions).value;
      if first.car != Sym("else") {
        ExpandClausesKeepsCondCount(rest);
        var alternative := ExpandClauses(rest).value;
        assert ExpandClauses(clauses).value == MakeIf(first.car, consequent, alternative);
        CondCountOfIf(first.car, consequent, alternative);
      } else {
        assert ExpandClauses(clauses).value == consequent;
      }
  }

  /** Expanding a `cond` form gives a tree with fewer `cond`s. */
  lemma CondToIfRemovesCond(exp: Value)
    requires IsCond(exp) && CondToIf(exp).Ok?
    ensures CondCount(CondToIf(exp).value) < CondCount(exp)
  {
    ExpandClausesKeepsCondCount(exp.cdr);
  }

  /** x is a strictly smaller tree than v with no more `cond`s. */
  predicate Below(x: Value, v: Value) {
    CondCount(x) <= CondCount(v) && Size(x) < Size(v)
  }

  /** The pieces the accessors take out of a special form are below it,
      and so is the lambda a `define` shorthand builds. */
  lemma PiecesBelow(exp: Value)
    ensures exp.Pair? && exp.cdr.Pair? ==> Below(exp.cdr.car, exp) && Below(exp.cdr.cdr, exp)
    ensures exp.Pair? && exp.cdr.Pair? && exp.cdr.cdr.Pair? ==>
      Below(exp.cdr.cdr.car, exp) && Below(exp.cdr.cdr.cdr, exp)
    ensures exp.Pair? && exp.cdr.Pair? && exp.cdr.cdr.Pair? && exp.cdr.cdr.cdr.Pair? ==>
      Below(exp.cdr.cdr.cdr.car, exp)
    ensures exp.Pair? ==> Below(Bool(false), exp)
  {
  }

  /** The value of a definition, shorthand or not, is below the definition. */
  lemma DefinitionValueBelow(exp: Value)
    requires DefinitionValue(exp).Ok?
    ensures Below(DefinitionValue(exp).value, exp)
  {
    PiecesBelow(exp);
    var x := exp.cdr.car;
    if !IsSymbol(x) {
      var lambda := MakeLambda(x.cdr, exp.cdr.cdr);
      assert CondCount(lambda) == CondCount(x.cdr) + CondCount(exp.cdr.cdr);
      assert Size(lambda) == 3 + Size(x.cdr) + Size(exp.cdr.cdr);
    }
  }

  /** `analyze`: the classification in analyze's own order, then one case
      per kind of expression. Pieces are taken apart and analyzed in the
      order the source does it, so the first error met is the source's. */
  function Analyze(exp: Value): Result<Code>
    decreases CondCount(exp), Size(exp), 1
  {
    match ClassifyAnalyze(exp)
    case SelfEvaluatingExp => Ok(Const(exp))
    case QuotedExp =>
      var quoted :- TextOfQuotation(exp);
      Ok(Const(quoted))
    case VariableExp => Ok(Var(exp.name))
    case AssignmentExp =>
      PiecesBelow(exp);
      var variable :- AssignmentVariable(exp);
      var valueExp :- AssignmentValue(exp);
      var valueCode :- Analyze(valueExp);
      Ok(Assign(variable, valueCode))
    case DefinitionExp =>
      var variable :- DefinitionVariable(exp);
      var valueExp :- DefinitionValue(exp);
      DefinitionValueBelow(exp);
      var valueCode :- Analyze(valueExp);
      Ok(Define(variable, valueCode))
    case IfExp =>
      PiecesBelow(exp);
      var testExp :- IfPredicate(exp);
      var test :- Analyze(testExp);
      var consequentExp :- IfConsequent(exp);
      var consequent :- Analyze(consequentExp);
      var alternativeExp :- IfAlternative(exp);
      var alternative :- Analyze(alternativeExp);
      Ok(If(test, consequent, alternative))
    case LambdaExp =>
      PiecesBelow(exp);
      var params :- LambdaParameters(exp);
      var body :- LambdaBody(exp);
      var bodyCode :- AnalyzeSequence(body);
      Ok(Lambda(params, bodyCode))
    case LetExp =>
      // analyzeLambda(letToLambda(exp)): the parameters are the binding
      // names and the body is the let body.
      PiecesBelow(exp);
      var bindings :- LetBindings(exp);
      var vars :- MapCar(bindings);
      var body :- LetBody(exp);
      var bodyCode :- AnalyzeSequence(body);
      Ok(Let(Lambda(vars, bodyCode), bindings))
    case BeginExp =>
      var actions :- BeginActions(exp);
      AnalyzeSequence(actions)
    case CondExp =>
      var expansion :- CondToIf(exp);
      CondToIfRemovesCond(exp);
      Analyze(expansion)
    case ApplicationExp =>
      var operator :- Operator(exp);
      var operatorCode :- Analyze(operator);
      var operands :- Operands(exp);
      var operandCodes :- AnalyzeList(operands);
      Ok(Apply(operatorCode, operandCodes))
    case UnknownExp => Err(UnknownExpressionType)
  }

  /** `map(analyze, exps)`: every element analyzed, first to last; a tail
      that is neither a pair nor null has no car. */
  function AnalyzeList(exps: Value): Result<seq<Code>>
    decreases CondCount(exps), Size(exps), 0
  {
    match exps
    case Nil => Ok([])
    case Pair(first, rest) =>
      var code :- Analyze(first);
      var codes :- AnalyzeList(rest);
      Ok([code] + codes)
    case _ => Err(TypeError)
  }

  /** `analyzeSequence`: analyze every expression, reject an empty body,
      and chain the pieces with `sequentially`. */
  function AnalyzeSequence(exps: Value): Result<Code>
    decreases CondCount(exps), Size(exps), 1
  {
    var codes :- AnalyzeList(exps);
    if |codes| == 0 then Err(EmptySequence)
    else Ok(SequenceLoop(codes[0], codes[1..]))
  }

  /** `sequenceLoop`: a left fold, so `a b c` becomes
      `sequentially(sequentially(a, b), c)`. */
  function SequenceLoop(first: Code, rest: seq<Code>): Code
    decreases |rest|
  {
    if |rest| == 0 then first
    else SequenceLoop(Sequence(first, rest[0]), rest[1..])
  }
}
