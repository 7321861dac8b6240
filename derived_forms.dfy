/** What the accessors and the derived-form expanders promise: the
    `define` shorthand, the default `if` alternative, `cond` expansion and
    `let` rewriting. */
module DerivedForms {
  import opened Values
  import opened Pairs
  import opened Syntax

  /** `(define (f . params) . body)` defines f as `(lambda params . body)`. */
  lemma DefinitionShorthand(f: Value, params: Value, body: Value)
    ensures var exp := Pair(Sym("define"), Pair(Pair(f, params), body));
      DefinitionVariable(exp) == Ok(f) && DefinitionValue(exp) == Ok(MakeLambda(params, body))
  {
  }

  /** `(define v e)` defines v as e. */
  lemma DefinitionOfVariable(v: Value, e: Value)
    requires IsSymbol(v)
    ensures var exp := Pair(Sym("define"), Pair(v, Pair(e, Nil)));
      DefinitionVariable(exp) == Ok(v) && DefinitionValue(exp) == Ok(e)
  {
  }

  /** An `if` without an alternative gets `false`; with one, gets it. */
  lemma IfAlternativeDefault(test: Value, consequent: Value, alternative: Value)
    ensures IfAlternative(Pair(Sym("if"), Pair(test, Pair(consequent, Nil)))) == Ok(Bool(false))
    ensures IfAlternative(MakeIf(test, consequent, alternative)) == Ok(alternative)
  {
  }

  /** A clause: a pair of a predicate and a proper list of actions. */
  predicate WellFormedClause(c: Value) { c.Pair? && IsList(c.cdr) }

  predicate IsElseClause(c: Value) { c.Pair? && c.car == Sym("else") }

  /** A proper list of well-formed clauses. */
  predicate WellFormedClauses(clauses: Value) {
    IsList(clauses) && forall k :: 0 <= k < |Elements(clauses)| ==> WellFormedClause(Elements(clauses)[k])
  }

  /** Some `else` clause has another clause after it. */
  predicate ElseBeforeLast(clauses: Value)
    requires IsList(clauses)
  {
    exists k :: 0 <= k < |Elements(clauses)| - 1 && IsElseClause(Elements(clauses)[k])
  }

  /** Follow the alternative branch of a chain of `if`s i times. */
  function AlternativeAt(v: Value, i: nat): Value {
    if i == 0 then v
    else match Cadddr(v)
      case Ok(a) => AlternativeAt(a, i - 1)
      case Err(_) => Nil
  }

  lemma ElementsOfRest(clauses: Value)
    requires WellFormedClauses(clauses) && clauses.Pair?
    ensures WellFormedClauses(clauses.cdr) && Elements(clauses.cdr) == Elements(clauses)[1..]
    ensures WellFormedClause(clauses.car)
  {
    assert Elements(clauses)[0] == clauses.car;
    forall k | 0 <= k < |Elements(clauses.cdr)|
      ensures WellFormedClause(Elements(clauses.cdr)[k])
    {
      assert Elements(clauses.cdr)[k] == Elements(clauses)[k + 1];
    }
  }

  lemma ElseBeforeLastOfRest(clauses: Value)
    requires WellFormedClauses(clauses) && clauses.Pair? && !IsElseClause(clauses.car)
    ensures ElseBeforeLast(clauses) <==> ElseBeforeLast(clauses.cdr)
  {
    ElementsOfRest(clauses);
    var es, rs := Elements(clauses), Elements(clauses.cdr);
    if ElseBeforeLast(clauses) {
      var k :| 0 <= k < |es| - 1 && IsElseClause(es[k]);
      assert k > 0 && rs[k - 1] == es[k];
    }
    if ElseBeforeLast(clauses.cdr) {
      var k :| 0 <= k < |rs| - 1 && IsElseClause(rs[k]);
      assert es[k + 1] == rs[k];
    }
  }

  /** The intended guard: expansion fails with ElseNotLast exactly when an
      `else` clause comes before the last clause, and succeeds otherwise. */
  lemma {:induction false} ElseMustBeLast(clauses: Value)
    requires WellFormedClauses(clauses)
    ensures ExpandClauses(clauses) == Err(ElseNotLast) <==> ElseBeforeLast(clauses)
    ensures ExpandClauses(clauses).Ok? <==> !ElseBeforeLast(clauses)
    decreases clauses
  {
    if clauses.Pair? {
      ElementsOfRest(clauses);
      ElseMustBeLast(clauses.cdr);
      if !IsElseClause(clauses.car) {
        ElseBeforeLastOfRest(clauses);
      } else if clauses.cdr != Nil {
        assert 0 < |Elements(clauses)| - 1 && IsElseClause(Elements(clauses)[0]);
      }
    }
  }

  /** cond expansion keeps the clauses in order: the i-th `if` of the chain
      tests the i-th predicate and runs that clause's actions (through
      sequenceExp), and a final `else` clause ends the chain with its own
      actions. */
  lemma {:induction false} ExpandClausesInOrder(clauses: Value, i: nat)
    requires WellFormedClauses(clauses) && !ElseBeforeLast(clauses)
    requires i < |Elements(clauses)|
    ensures ExpandClauses(clauses).Ok? && WellFormedClause(Elements(clauses)[i])
    ensures var c := Elements(clauses)[i];
      var t := AlternativeAt(ExpandClauses(clauses).value, i);
      if IsElseClause(c) then t == SequenceExp(c.cdr).value
      else t == MakeIf(c.car, SequenceExp(c.cdr).value, AlternativeAt(ExpandClauses(clauses).value, i + 1))
    decreases clauses
  {
    ElseMustBeLast(clauses);
    var first, rest := clauses.car, clauses.cdr;
    ElementsOfRest(clauses);
    if IsElseClause(first) {
      assert rest == Nil;
    } else {
      ElseBeforeLastOfRest(clauses);
      ElseMustBeLast(rest);
      var r := ExpandClauses(clauses).value;
      assert r == MakeIf(first.car, SequenceExp(first.cdr).value, ExpandClauses(rest).value);
      if i > 0 {
        assert AlternativeAt(r, i) == AlternativeAt(ExpandClauses(rest).value, i - 1);
        ExpandClausesInOrder(rest, i - 1);
        assert Elements(clauses)[i] == Elements(rest)[i - 1];
      }
    }
  }

  /** Without an `else` clause the chain of `if`s ends in `false`; in
      particular no clauses at all give `false`. */
  lemma {:induction false} ExpandClausesEndsInFalse(clauses: Value)
    requires WellFormedClauses(clauses)
    requires forall k :: 0 <= k < |Elements(clauses)| ==> !IsElseClause(Elements(clauses)[k])
    ensures ExpandClauses(clauses).Ok?
    ensures AlternativeAt(ExpandClauses(clauses).value, |Elements(clauses)|) == Bool(false)
    decreases clauses
  {
    if clauses.Pair? {
      ElementsOfRest(clauses);
      assert !IsElseClause(Elements(clauses)[0]);
      forall k | 0 <= k < |Elements(clauses.cdr)|
        ensures !IsElseClause(Elements(clauses.cdr)[k])
      {
        assert Elements(clauses.cdr)[k] == Elements(clauses)[k + 1];
      }
      ExpandClausesEndsInFalse(clauses.cdr);
    }
  }

  /** The guard as written compares the remaining clauses with `true`, so on
      a proper list of clauses it never fires. */
  lemma {:induction false} ElseGuardAsWrittenNeverFires(clauses: Value)
    requires IsList(clauses)
    ensures ExpandClausesAsWritten(clauses) != Err(ElseNotLast)
    decreases clauses
  {
    if clauses.Pair? {
      ElseGuardAsWrittenNeverFires(clauses.cdr);
    }
  }

  /** Where the two guards part: on a proper list of clauses with no
      `else` before the last clause, expansion as written and as intended
      give the same result, error or not. */
  lemma {:induction false} ExpandClausesAgree(clauses: Value)
    requires IsList(clauses) && !ElseBeforeLast(clauses)
    ensures ExpandClausesAsWritten(clauses) == ExpandClauses(clauses)
    decreases clauses
  {
    if clauses.Pair? {
      var es := Elements(clauses);
      assert es == [clauses.car] + Elements(clauses.cdr);
      if IsElseClause(clauses.car) {
        assert IsElseClause(es[0]);
        assert |es| == 1;
      } else {
        forall k | 0 <= k < |Elements(clauses.cdr)| - 1
          ensures !IsElseClause(Elements(clauses.cdr)[k])
        {
          assert es[k + 1] == Elements(clauses.cdr)[k];
        }
        ExpandClausesAgree(clauses.cdr);
      }
    }
  }

  /** `(cond (else 1) (x 2))`: as written it quietly expands to 1, dropping
      the clause after `else`; the intended expansion rejects it. */
  lemma ElseNotLastExample()
    ensures var clauses := Pair(Pair(Sym("else"), Pair(Num(1), Nil)), Pair(Pair(Sym("x"), Pair(Num(2), Nil)), Nil));
      ExpandClausesAsWritten(clauses) == Ok(Num(1)) && ExpandClauses(clauses) == Err(ElseNotLast)
  {
  }

  /** `map(car, bindings)` keeps the first element of every binding, in order. */
  lemma {:induction false} MapCarFirsts(items: Value)
    requires IsList(items) && forall k :: 0 <= k < |Elements(items)| ==> Elements(items)[k].Pair?
    ensures MapCar(items).Ok? && IsList(MapCar(items).value)
    ensures |Elements(MapCar(items).value)| == |Elements(items)|
    ensures forall k :: 0 <= k < |Elements(items)| ==>
      Elements(MapCar(items).value)[k] == Elements(items)[k].car
    decreases items
  {
    if items.Pair? {
      assert Elements(items)[0] == items.car;
      forall k | 0 <= k < |Elements(items.cdr)| ensures Elements(items.cdr)[k].Pair? {
        assert Elements(items.cdr)[k] == Elements(items)[k + 1];
      }
      MapCarFirsts(items.cdr);
      var vars := MapCar(items).value;
      assert Elements(vars) == [items.car.car] + Elements(MapCar(items.cdr).value);
    }
  }

  /** `(let ((v1 e1) ... (vn en)) . body)` becomes `(lambda (v1 ... vn) . body)`. */
  lemma LetToLambdaShape(bindings: Value, body: Value)
    requires IsList(bindings) && forall k :: 0 <= k < |Elements(bindings)| ==> Elements(bindings)[k].Pair?
    ensures var r := LetToLambda(Pair(Sym("let"), Pair(bindings, body)));
      r.Ok? && r.value.Pair? && r.value.car == Sym("lambda") && r.value.cdr.Pair? && r.value.cdr.cdr == body
      && var vars := r.value.cdr.car;
      IsList(vars) && |Elements(vars)| == |Elements(bindings)|
      && forall k :: 0 <= k < |Elements(bindings)| ==> Elements(vars)[k] == Elements(bindings)[k].car
  {
    MapCarFirsts(bindings);
  }
}
