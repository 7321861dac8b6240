/** Syntax classification, accessors and derived-form expanders: pure
    functions over the shape of an expression. */
module Syntax {
  import opened Values
  import opened Pairs

  /** The characters of the identifier pattern that isSymbol matches. */
  predicate IsIdentifierChar(c: char) {
    ('a' <= c <= 'z') || ('A' <= c <= 'Z') || ('0' <= c <= '9') || c in "_$?!+*/=><-"
  }

  predicate IsIdentifier(s: string) {
    |s| > 0 && forall i :: 0 <= i < |s| ==> IsIdentifierChar(s[i])
  }

  /** isSymbol tests the identifier pattern against the host's string form
      of the value: a number ("12", "-3"), null ("null") and a boolean
      ("true", "false") all pass; a pair or procedure object prints with
      commas and fails. */
  predicate IsSymbol(v: Value) {
    match v
    case Sym(s) => IsIdentifier(s)
    case Num(_) => true
    case Nil => true
    case Bool(_) => true
    case _ => false
  }

  /** isSelfEvaluating (isNumber): the host's Number() of the value is not
      NaN, which holds for numbers, null (0) and booleans (0 and 1). */
  predicate IsSelfEvaluating(exp: Value) {
    exp.Num? || exp.Nil? || exp.Bool?
  }

  predicate IsVariable(exp: Value) { IsSymbol(exp) }

  /** A pair whose first slot is the given symbol. */
  predicate IsTaggedList(exp: Value, tag: string) {
    exp.Pair? && exp.car == Sym(tag)
  }

  predicate IsQuoted(exp: Value) { IsTaggedList(exp, "quote") }
  predicate IsAssignment(exp: Value) { IsTaggedList(exp, "set!") }
  /** `setf` is accepted as a synonym of `define`. */
  predicate IsDefinition(exp: Value) { IsTaggedList(exp, "define") || IsTaggedList(exp, "setf") }
  predicate IsIf(exp: Value) { IsTaggedList(exp, "if") }
  predicate IsLambda(exp: Value) { IsTaggedList(exp, "lambda") }
  predicate IsBegin(exp: Value) { IsTaggedList(exp, "begin") }
  predicate IsCond(exp: Value) { IsTaggedList(exp, "cond") }
  predicate IsLet(exp: Value) { IsTaggedList(exp, "let") }
  /** Any pair at all is an application: this test is the catch-all. */
  predicate IsApplication(exp: Value) { exp.Pair? }

  /** The symbols that head a special form. */
  const ReservedTags: set<string> := {"quote", "set!", "define", "setf", "if", "lambda", "begin", "cond", "let"}

  datatype Category =
    | SelfEvaluatingExp | VariableExp | QuotedExp | AssignmentExp | DefinitionExp
    | IfExp | LambdaExp | BeginExp | CondExp | LetExp | ApplicationExp | UnknownExp

  /** The order in which the direct evaluator tests the categories. */
  function ClassifyDirect(exp: Value): (c: Category)
    ensures c == ApplicationExp <==> exp.Pair? && !(exp.car.Sym? && exp.car.name in ReservedTags)
    ensures c == UnknownExp <==> !exp.Pair? && !IsSelfEvaluating(exp) && !IsSymbol(exp)
    ensures c == VariableExp ==> exp.Sym? && IsIdentifier(exp.name)
  {
    if IsSelfEvaluating(exp) then SelfEvaluatingExp
    else if IsVariable(exp) then VariableExp
    else if IsQuoted(exp) then QuotedExp
    else if IsAssignment(exp) then AssignmentExp
    else if IsDefinition(exp) then DefinitionExp
    else if IsIf(exp) then IfExp
    else if IsLambda(exp) then LambdaExp
    else if IsBegin(exp) then BeginExp
    else if IsCond(exp) then CondExp
    else if IsLet(exp) then LetExp
    else if IsApplication(exp) then ApplicationExp
    else UnknownExp
  }

  /** The order in which analyze tests the categories: quote before
      variable, and let before begin. Application is still the fallback for
      every pair not headed by a reserved symbol, and only atoms that are
      neither self-evaluating nor symbols are unknown. */
  function ClassifyAnalyze(exp: Value): (c: Category)
    ensures c == ApplicationExp <==> exp.Pair? && !(exp.car.Sym? && exp.car.name in ReservedTags)
    ensures c == UnknownExp <==> !exp.Pair? && !IsSelfEvaluating(exp) && !IsSymbol(exp)
    ensures c == VariableExp ==> exp.Sym? && IsIdentifier(exp.name)
  {
    if IsSelfEvaluating(exp) then SelfEvaluatingExp
    else if IsQuoted(exp) then QuotedExp
    else if IsVariable(exp) then VariableExp
    else if IsAssignment(exp) then AssignmentExp
    else if IsDefinition(exp) then DefinitionExp
    else if IsIf(exp) then IfExp
    else if IsLambda(exp) then LambdaExp
    else if IsLet(exp) then LetExp
    else if IsBegin(exp) then BeginExp
    else if IsCond(exp) then CondExp
    else if IsApplication(exp) then ApplicationExp
    else UnknownExp
  }

  /** The two orders never disagree: no symbol is a pair, and no pair
      carries two different head symbols. */
  lemma ClassificationOrderAgrees(exp: Value)
    ensures ClassifyDirect(exp) == ClassifyAnalyze(exp)
  {
  }

  // ---- accessors -----------------------------------------------------

  function TextOfQuotation(exp: Value): Result<Value> { Cadr(exp) }
  function AssignmentVariable(exp: Value): Result<Value> { Cadr(exp) }
  function AssignmentValue(exp: Value): Result<Value> { Caddr(exp) }

  /** definitionVariable: `(define v e)` names v; otherwise the second
      element is `(f . params)` and names f. */
  function DefinitionVariable(exp: Value): Result<Value> {
    var x :- Cadr(exp);
    if IsSymbol(x) then Ok(x) else Caadr(exp)
  }

  /** definitionValue: `(define v e)` gives e; `(define (f . params) . body)`
      gives `(lambda params . body)`. */
  function DefinitionValue(exp: Value): Result<Value> {
    var x :- Cadr(exp);
    if IsSymbol(x) then Caddr(exp)
    else
      var params :- Cdadr(exp);
      var body :- Cddr(exp);
      Ok(MakeLambda(params, body))
  }

  function LambdaParameters(exp: Value): Result<Value> { Cadr(exp) }
  function LambdaBody(exp: Value): Result<Value> { Cddr(exp) }

  function MakeLambda(params: Value, body: Value): Value {
    Pair(Sym("lambda"), Pair(params, body))
  }

  function IfPredicate(exp: Value): Result<Value> { Cadr(exp) }
  function IfConsequent(exp: Value): Result<Value> { Caddr(exp) }

  /** ifAlternative: the fourth element, or `false` when the list stops after
      the consequent. */
  function IfAlternative(exp: Value): Result<Value> {
    var tail :- Cdddr(exp);
    if tail != Nil then Cadddr(exp) else Ok(Bool(false))
  }

  /** makeIf: the four-element list `(if test consequent alternative)`. */
  function MakeIf(test: Value, consequent: Value, alternative: Value): Value {
    Pair(Sym("if"), Pair(test, Pair(consequent, Pair(alternative, Nil))))
  }

  function BeginActions(exp: Value): Result<Value> { Cdr(exp) }

  /** isLastExp: the rest of the sequence is null. */
  function IsLastExp(s: Value): Result<bool> {
    var rest :- Cdr(s);
    Ok(rest == Nil)
  }

  function MakeBegin(s: Value): Value { Pair(Sym("begin"), s) }

  /** sequenceExp on a proper list: nothing for the empty list, the only
      expression of a one-element list, `(begin . s)` otherwise. */
  function SequenceExp(s: Value): (r: Result<Value>)
    ensures IsList(s) ==> r.Ok?
    ensures IsList(s) && Length(s) == 0 ==> r.value == Nil
    ensures IsList(s) && Length(s) == 1 ==> r.value == Elements(s)[0]
    ensures IsList(s) && Length(s) >= 2 ==> r.value == MakeBegin(s)
  {
    match s
    case Nil => Ok(Nil)
    case Pair(first, rest) =>
      if rest == Nil then Ok(first)
      else
        assert IsList(s) ==> IsList(rest) && rest.Pair? && Length(s) == 2 + Length(rest.cdr);
        Ok(MakeBegin(s))
    case _ => Err(TypeError)
  }

  function Operator(exp: Value): Result<Value> { Car(exp) }
  function Operands(exp: Value): Result<Value> { Cdr(exp) }
  function CondClauses(exp: Value): Result<Value> { Cdr(exp) }
  function CondPredicate(clause: Value): Result<Value> { Car(clause) }
  function CondActions(clause: Value): Result<Value> { Cdr(clause) }

  function IsCondElseClause(clause: Value): Result<bool> {
    var p :- CondPredicate(clause);
    Ok(p == Sym("else"))
  }

  /** expandClauses as written: the guard meant to reject an `else` clause
      that is not last compares the rest of the clauses with `!null`, that
      is with `true`. */
  function ExpandClausesAsWritten(clauses: Value): Result<Value>
    decreases clauses
  {
    match clauses
    case Nil => Ok(Bool(false))
    case Pair(first, rest) =>
      var isElse :- IsCondElseClause(first);
      if isElse then
        if rest == Bool(true) then Err(ElseNotLast)
        else
          var actions :- CondActions(first);
          SequenceExp(actions)
      else
        var test :- CondPredicate(first);
        var actions :- CondActions(first);
        var consequent :- SequenceExp(actions);
        var alternative :- ExpandClausesAsWritten(rest);
        Ok(MakeIf(test, consequent, alternative))
    case _ => Err(TypeError)
  }

  /** expandClauses as intended: an `else` clause followed by more clauses
      is an error. */
  function ExpandClauses(clauses: Value): Result<Value>
    decreases clauses
  {
    match clauses
    case Nil => Ok(Bool(false))
    case Pair(first, rest) =>
      var isElse :- IsCondElseClause(first);
      if isElse then
        if rest != Nil then Err(ElseNotLast)
        else
          var actions :- CondActions(first);
          SequenceExp(actions)
      else
        var test :- CondPredicate(first);
        var actions :- CondActions(first);
        var consequent :- SequenceExp(actions);
        var alternative :- ExpandClauses(rest);
        Ok(MakeIf(test, consequent, alternative))
    case _ => Err(TypeError)
  }

  function CondToIf(exp: Value): Result<Value> {
    var clauses :- CondClauses(exp);
    ExpandClauses(clauses)
  }

  function LetBindings(exp: Value): Result<Value> { Cadr(exp) }
  function LetBody(exp: Value): Result<Value> { Cddr(exp) }

  /** `map(car, items)`: the first element of every binding; a binding that
      is not a pair, or an improper tail, throws. */
  function MapCar(items: Value): Result<Value>
    decreases items
  {
    match items
    case Nil => Ok(Nil)
    case Pair(item, rest) =>
      var first :- Car(item);
      var others :- MapCar(rest);
      Ok(Pair(first, others))
    case _ => Err(TypeError)
  }

  function LetVars(exp: Value): Result<Value> {
    var bindings :- LetBindings(exp);
    MapCar(bindings)
  }

  /** letToLambda: `(let ((v e) ...) . body)` becomes `(lambda (v ...) . body)`. */
  function LetToLambda(exp: Value): Result<Value> {
    var vars :- LetVars(exp);
    var body :- LetBody(exp);
    Ok(MakeLambda(vars, body))
  }
}
