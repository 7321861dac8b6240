# scheme-on-coffee evaluator core in Dafny

This project models the evaluator of scheme-on-coffee (`scheme-on-coffee/eval.js`).
It is a metacircular Scheme evaluator in the style of SICP chapter 4, written
in JavaScript, and it works on pairs stored as two-element host arrays. The model covers:

- **Pairs and lists.** `cons`, `car`, `cdr`, their compositions and `list`,
  and the conversions between host arrays and pair lists (`pairs.dfy`).
- **Syntax.** The syntax predicates, the accessors, and the derived forms:
  the `define` shorthand, `if` without an alternative, `sequenceExp`,
  `cond` → nested `if`, and `let` → `lambda` (`syntax.dfy`,
  `derived_forms.dfy`).
- **Environments.** Frames live in a store and are named by index. An
  environment is a list of frame indices, innermost first. Lookup,
  assignment, definition and extension are pure functions over the store
  (`environment.dfy`, laws in `environment_laws.dfy`). The class
  `Store.Machine` performs the same updates in place on its `frames` field,
  and each method is proved equal to its function (`store.dfy`). A change
  made through one environment is seen through every closure that names
  the same frame, as with the source's `setCar`/`setCdr` on shared frames.
- **Global environment.** `setupEnvironment` builds the primitive table's
  frame and defines `true`, `false`, `null` and `nil` in it
  (`global_environment.dfy`).
- **The two evaluators.** The direct tree-walker `LispMachine.eval`/`apply`
  is kept as `interpretationalEval` (`Interpreter`). The analyzing evaluator
  is `analyze`, which compiles an expression into the `Code` datatype
  (`Analyzer`), plus running that code with fuel (`Execution`,
  `Store.Machine.Exec`). `LispMachine.eval` is rebound to the analyzing
  evaluator, so every nested evaluation inside `interpretationalEval` goes
  through `analyze`. The model keeps that late binding.
- **Procedure application.** `executeApplication` and the argument
  convention of `applyPrimitiveProcedure`. `car` and `cdr` get the raw
  argument list, `cons` gets its first two arguments, and every other
  primitive gets the list converted to a host array.

Errors that the source throws are `Err` values of a `Result`. A store
change made before an error stays in place, as it does in the source.
Running user code uses a fuel count. Each call of an analyzed compound
procedure spends one unit, and so does evaluating each `let` binding.
Running out of fuel gives `Err(OutOfFuel)`.

## Model

| member | source | states |
|---|---|---|
| Pairs.Car | scheme-on-coffee/eval.js:109-111 | car succeeds exactly on a pair and gives its first slot |
| Pairs.Cdr | scheme-on-coffee/eval.js:112-114 | cdr succeeds exactly on a pair and gives its second slot |
| Pairs.Cadr | scheme-on-coffee/eval.js:115-117 | defined exactly when the value and its cdr are pairs; gives the second element |
| Pairs.Caadr | scheme-on-coffee/eval.js:118-120 | defined exactly when the second element is a pair; gives that element's car |
| Pairs.Caddr | scheme-on-coffee/eval.js:121-123 | defined exactly on three cells of spine; gives the third element |
| Pairs.Cdadr | scheme-on-coffee/eval.js:124-126 | defined exactly when the second element is a pair; gives that element's cdr |
| Pairs.Cddr | scheme-on-coffee/eval.js:127-129 | defined exactly on two cells of spine; gives the tail after two elements |
| Pairs.Cdddr | scheme-on-coffee/eval.js:130-132 | defined exactly on three cells of spine; gives the tail after three elements |
| Pairs.Cadddr | scheme-on-coffee/eval.js:133-135 | defined exactly on four cells of spine; gives the fourth element |
| Pairs.ListElements | scheme-on-coffee/eval.js:139-145 | `list(x1..xn)` (`Pairs.List`) is a proper list of length n whose elements are x1..xn in order |
| Pairs.ElementsList | scheme-on-coffee/eval.js:139-145 | every proper list is `list` applied to its own elements |
| Pairs.ArrayRoundTrip | scheme-on-coffee/eval.js:146-164 | converting an array to a pair list and back (`Pairs.ArrayToList`, then `Pairs.ListToArray`) gives the same array, nested non-empty arrays included |
| Pairs.ListRoundTrip | scheme-on-coffee/eval.js:146-164 | converting a nested proper list to an array and back (`Pairs.ListToArray`, then `Pairs.ArrayToList`) gives the same list |
| Pairs.LispListToArray | scheme-on-coffee/eval.js:155-164 | the while loop that pushes each element (nested pairs converted) computes the recursive conversion |
| Syntax.ClassifyDirect | scheme-on-coffee/eval.js:8-24 | in the direct evaluator's order, application is exactly a pair not headed by a reserved symbol, unknown is exactly an atom that is neither self-evaluating (`Syntax.IsSelfEvaluating`) nor a symbol (`Syntax.IsSymbol`), and only a symbol matching the identifier pattern is a variable |
| Syntax.ClassifyAnalyze | scheme-on-coffee/eval.js:576-588 | application is exactly a pair not headed by a reserved symbol; unknown is exactly an atom that is neither self-evaluating nor a symbol |
| Syntax.ClassificationOrderAgrees | scheme-on-coffee/eval.js:576-588 | analyze's test order (quote before variable, let before begin) classifies every value as the direct evaluator's order does |
| Syntax.SequenceExp | scheme-on-coffee/eval.js:228-232 | on a proper list: null for no expressions, the expression itself for one, `(begin . s)` for two or more |
| DerivedForms.DefinitionShorthand | scheme-on-coffee/eval.js:177-184 | `(define (f . params) . body)` (`Syntax.DefinitionVariable`, `Syntax.DefinitionValue`) defines f as `(lambda params . body)` |
| DerivedForms.DefinitionOfVariable | scheme-on-coffee/eval.js:177-184 | `(define v e)` with a symbol v defines v as e |
| DerivedForms.IfAlternativeDefault | scheme-on-coffee/eval.js:206-212 | an `if` without alternative has alternative `false` (`Syntax.IfAlternative`); `makeIf`'s alternative is read back |
| DerivedForms.ElseMustBeLast | scheme-on-coffee/eval.js:272-282 | with the intended guard, expansion fails with the else-not-last error exactly when an `else` clause precedes another clause, and succeeds otherwise |
| DerivedForms.ExpandClausesInOrder | scheme-on-coffee/eval.js:272-282 | the i-th clause becomes the i-th nested `if`, whose consequent is the clause's actions through sequenceExp and whose alternative is the expansion of the later clauses; an else clause yields its actions |
| DerivedForms.ExpandClausesEndsInFalse | scheme-on-coffee/eval.js:274 | clauses without `else` end the chain of alternatives in `false` |
| DerivedForms.ElseGuardAsWrittenNeverFires | scheme-on-coffee/eval.js:278 | the guard as written (`rest === !null`) never raises the error on any proper list of clauses |
| DerivedForms.ElseNotLastExample | scheme-on-coffee/eval.js:277-280 | `(cond (else 1) (x 2))` expands to 1 as written; the intended guard rejects it |
| DerivedForms.ExpandClausesAgree | scheme-on-coffee/eval.js:272-282 | expandClauses as written (`Syntax.ExpandClausesAsWritten`) and with the intended guard (`Syntax.ExpandClauses`, used by `Syntax.CondToIf`) give the same result on every proper list of clauses with no `else` before the last clause |
| DerivedForms.MapCarFirsts | scheme-on-coffee/eval.js:289-291 | letVars (`Syntax.MapCar`) of a proper list of bindings gives the first element of each binding, in order |
| DerivedForms.LetToLambdaShape | scheme-on-coffee/eval.js:300-302 | `(let ((v e) ...) . body)` (`Syntax.LetToLambda`) becomes `(lambda (v ...) . body)` |
| Environment.ScanFrom | scheme-on-coffee/eval.js:366-370 | a found position holds the variable with no earlier match; absent means no position matches; values running out first is a broken frame |
| Environment.SetVariableValue | scheme-on-coffee/eval.js:379-395 | a successful assignment keeps the number of frames and keeps every frame's two lists the same length |
| Environment.DefineVariable | scheme-on-coffee/eval.js:396-411 | a successful definition keeps the number of frames and keeps every frame's two lists the same length |
| Environment.ExtendEnvironment | scheme-on-coffee/eval.js:356-361 | with the intended arity guard, extending adds exactly one frame to the store and keeps every frame's two lists the same length |
| EnvironmentLaws.ScanMatchesFirstIndex | scheme-on-coffee/eval.js:366-370 | on a consistent frame, scan finds exactly the first position of the variable |
| EnvironmentLaws.LookupFindsInnermost | scheme-on-coffee/eval.js:362-378 | lookupVariableValue (`Environment.LookupVariableValue`) returns the value at the innermost binding, searching the first frame first, and returns the "Unbound variable" string when no frame binds the name |
| EnvironmentLaws.LookupValueAtInnermost | scheme-on-coffee/eval.js:362-378 | whichever frame and position hold the innermost binding, lookup returns the value there |
| EnvironmentLaws.LookupUnbound | scheme-on-coffee/eval.js:371-373 | a name bound in no frame looks up to the error string instead of failing |
| EnvironmentLaws.InnermostUnique | scheme-on-coffee/eval.js:362-378 | the innermost binding of a name is one frame and one position |
| EnvironmentLaws.SetVariableValueSpec | scheme-on-coffee/eval.js:379-395 | set! overwrites exactly the value cell of the innermost binding, and fails with UnboundVariable when no frame binds the name |
| EnvironmentLaws.SetCellKeepsShape | scheme-on-coffee/eval.js:385 | overwriting one value cell changes that cell only: every variable list, every other frame and every other value are unchanged |
| EnvironmentLaws.LocateIgnoresValues | scheme-on-coffee/eval.js:379-395 | where a binding is depends only on the variable lists, so assignments never move a binding |
| EnvironmentLaws.LookupAfterSet | scheme-on-coffee/eval.js:379-395 | after set! of a bound name, lookup of that name gives the assigned value |
| EnvironmentLaws.DefineVariableSpec | scheme-on-coffee/eval.js:396-411 | define touches only the first frame: an existing name there is overwritten in place, otherwise name and value are put in front together (`Environment.AddBindingToFrame`); every other frame is unchanged |
| EnvironmentLaws.DefineInEmptyEnvironment | scheme-on-coffee/eval.js:396-398 | defining in the empty environment fails: there is no first frame |
| EnvironmentLaws.LookupAfterDefine | scheme-on-coffee/eval.js:396-411 | after define, lookup of the name gives the defined value |
| EnvironmentLaws.LookupIgnoresNewFrames | scheme-on-coffee/eval.js:362-378 | frames added to the store that the environment does not name do not change any lookup |
| EnvironmentLaws.ExtendEnvironmentSpec | scheme-on-coffee/eval.js:356-361 | extension succeeds exactly on proper lists of equal length and fails otherwise with the arity error; the new first frame binds the variables to the values, the rest is the unchanged base, and no existing frame changes |
| EnvironmentLaws.LookupAfterExtend | scheme-on-coffee/eval.js:356-361 | in the extended environment a parameter names its argument, and every other name means what it meant in the base environment |
| EnvironmentLaws.ArityGuardAsWrittenPassesPairs | scheme-on-coffee/eval.js:357 | the guard as written lets any two non-empty lists through, whatever their lengths |
| EnvironmentLaws.ArityGuardMissesMismatch | scheme-on-coffee/eval.js:357-360 | vars `(a b)` with vals `(1)` pass the guard as written and a later lookup of b fails; the intended guard rejects them |
| EnvironmentLaws.ZeroParametersRejectedAsWritten | scheme-on-coffee/eval.js:357 | as written, a procedure with no parameters cannot be called (`null.length` throws); the intended guard makes an empty frame |
| EnvironmentLaws.ArityGuardsAgree | scheme-on-coffee/eval.js:356-361 | extendEnvironment as written (`Environment.ExtendEnvironmentAsWritten`) and with the intended guard build the same frame on two non-empty proper lists of the same length |
| GlobalEnvironment.ConstantsAreNotPrimitives | scheme-on-coffee/eval.js:439-497 | none of `nil`, `null`, `false`, `true` is the name of a primitive |
| GlobalEnvironment.ExtendWithTable | scheme-on-coffee/eval.js:417 | extending the empty environment with the table makes one frame of all the names and objects |
| GlobalEnvironment.DefineFresh | scheme-on-coffee/eval.js:399-403 | defining a name the first frame does not bind puts it in front |
| GlobalEnvironment.DefineConstantsInFront | scheme-on-coffee/eval.js:418-421 | the four definitions (`GlobalEnvironment.DefineConstants`) put nil, null, false, true in front of the frame, the last defined first |
| GlobalEnvironment.SetupAddsGlobalFrame | scheme-on-coffee/eval.js:414-424 | setup (`GlobalEnvironment.SetupEnvironment`) adds exactly one frame, the global frame, and changes no existing frame, when no primitive is named like a constant |
| GlobalEnvironment.TheGlobalEnvironment | scheme-on-coffee/eval.js:414-424 | the source's own table sets up to the global frame in any store |
| GlobalEnvironment.GlobalLookup | scheme-on-coffee/eval.js:414-424 | in the global environment a constant or primitive name means its global value, and any other name is unbound |
| Analyzer.ExpandClausesKeepsCondCount | scheme-on-coffee/eval.js:272-282 | cond expansion adds no `cond` symbol |
| Analyzer.CondToIfRemovesCond | scheme-on-coffee/eval.js:586 | expanding a `cond` form (`Syntax.CondToIf`) removes a `cond`, which is why analyze (`Analyzer.Analyze`) ends although the expansion is larger |
| Execution.ApplyPrimitiveProcedure | scheme-on-coffee/eval.js:507-518 | car and cdr get the raw argument list, cons gets its first two arguments, and any other primitive gets the argument list as a host array |
| Execution.Run | scheme-on-coffee/eval.js:590-667 | running code never drops a frame from the store and keeps every frame consistent |
| Execution.RunOperands | scheme-on-coffee/eval.js:663-666 | operand values come one per operand, and no frame is dropped (their contents and order: `RunOperandsInOrder`) |
| Execution.RunLetValues | scheme-on-coffee/eval.js:292-296 | evaluating let bindings never drops a frame and keeps every frame consistent (the values: `RunLetValuesRunsOperands`) |
| Execution.ExecuteApplication | scheme-on-coffee/eval.js:669-677 | with the intended arity guard, applying a procedure never drops a frame and keeps every frame consistent |
| ExecutionLaws.SequenceLoopRunsInOrder | scheme-on-coffee/eval.js:645-654 | the left-nested `sequentially` chain (`Analyzer.SequenceLoop`) runs its pieces in the order written |
| ExecutionLaws.AnalyzeListSucceeds | scheme-on-coffee/eval.js:655 | map(analyze, exps) (`Analyzer.AnalyzeList`) succeeds exactly on proper lists whose every element analyzes |
| ExecutionLaws.AnalyzeListCodes | scheme-on-coffee/eval.js:655 | a successful map(analyze, exps) holds the code of every element, in order |
| ExecutionLaws.AnalyzeSequenceSpec | scheme-on-coffee/eval.js:643-658 | analyzeSequence (`Analyzer.AnalyzeSequence`): an empty body is the "Empty sequence" error; otherwise the body runs its expressions first to last |
| ExecutionLaws.RunInOrderAnswersLast | scheme-on-coffee/eval.js:645-650 | a body answers with its last expression, run in the store the earlier ones left, unless one of them failed |
| ExecutionLaws.RunOperandsInOrder | scheme-on-coffee/eval.js:663-666 | the operand values are the operands' own values in order: the first i are what running the first i operands gives, and the i-th is the i-th operand run in the store those left |
| ExecutionLaws.RunLetValuesRunsOperands | scheme-on-coffee/eval.js:292-296 | when every binding's second element analyzes, the let's values are those codes run first to last, as operands are, each with one unit of fuel less |
| ExecutionLaws.ExecuteCompiledProcedure | scheme-on-coffee/eval.js:669-677 | with the intended arity guard, a compound procedure's body runs in a new frame binding parameters to arguments, in front of the procedure's own environment |
| ExecutionLaws.ExecuteArityMismatch | scheme-on-coffee/eval.js:674 | with the intended arity guard, a compound procedure called with the wrong number of arguments fails before its body runs, leaving the store unchanged |
| ExecutionLaws.ExecuteUnknownProcedure | scheme-on-coffee/eval.js:676 | anything neither primitive nor compound is the unknown-procedure error, with the store unchanged |
| ExecutionLaws.HostPrimitiveGetsArguments | scheme-on-coffee/eval.js:514-517 | a host primitive receives every argument in order, and converting back gives the argument list |
| Interpreter.Interpret | scheme-on-coffee/eval.js:7-26 | direct evaluation never drops a frame and keeps every frame consistent |
| Interpreter.EvalAssignment | scheme-on-coffee/eval.js:63-65 | direct set! never drops a frame and keeps every frame consistent |
| Interpreter.EvalDefinition | scheme-on-coffee/eval.js:66-68 | direct define never drops a frame and keeps every frame consistent |
| Interpreter.EvalIf | scheme-on-coffee/eval.js:52-57 | direct if never drops a frame and keeps every frame consistent |
| Interpreter.EvalSequence | scheme-on-coffee/eval.js:58-62 | a direct body never drops a frame and keeps every frame consistent (what it answers: `EvalSequenceRunsInOrder`) |
| Interpreter.ListOfValues | scheme-on-coffee/eval.js:48-51 | direct operand evaluation never drops a frame and keeps every frame consistent (the values: `ListOfValuesRunsOperands`) |
| Interpreter.LetValues | scheme-on-coffee/eval.js:292-296 | direct let bindings never drop a frame and keep every frame consistent (the values: `LetValuesRunsLetValues`) |
| Interpreter.ApplyProcedure | scheme-on-coffee/eval.js:27-35 | with the intended arity guard, direct apply never drops a frame and keeps every frame consistent |
| EvaluatorLaws.DefineAnswers | scheme-on-coffee/eval.js:616-623 | analyzed define answers "ok"; direct define answers the value (or "ok" for a procedure, `Environment.DefinitionResult`); both leave the same store, in which the name means the value |
| EvaluatorLaws.SetAnswers | scheme-on-coffee/eval.js:607-615 | analyzed set! answers "ok" and direct set! answers the value, with the same store; an unbound name is the same error in both |
| EvaluatorLaws.IfTests | scheme-on-coffee/eval.js:625-634 | analyzed if takes the consequent only when the test is exactly `true`; direct if uses host truthiness |
| EvaluatorLaws.IfOneTwoThree | scheme-on-coffee/eval.js:631 | `(if 1 2 3)` is 3 under analyze and 2 under the direct evaluator |
| EvaluatorLaws.EvaluatorsAgree | scheme-on-coffee/eval.js:8-18 | on self-evaluating values, variables, quotations and cond forms the two evaluators give the same outcome |
| EvaluatorLaws.EmptyBegin | scheme-on-coffee/eval.js:656 | `(begin)` is the "Empty sequence" error under analyze and, directly, a TypeError from isLastExp taking the cdr of null |
| EvaluatorLaws.LambdaForms | scheme-on-coffee/eval.js:14-16 | a lambda with a non-empty body makes, directly, a procedure keeping the body list and, analyzed, one whose code runs the body first to last; both close over the current environment and change no frame |
| EvaluatorLaws.EvalSequenceRunsInOrder | scheme-on-coffee/eval.js:58-62 | a non-empty direct body runs its expressions first to last through the rebound eval and answers the last: exactly the analyzed pieces run in order |
| EvaluatorLaws.BeginAgrees | scheme-on-coffee/eval.js:17 | `(begin e1 ... en)` with n > 0 gives the same outcome under both evaluators: the pieces run in order, answering the last |
| EvaluatorLaws.ListOfValuesRunsOperands | scheme-on-coffee/eval.js:48-51 | the direct operand values are exactly the analyzed operands run first to last |
| EvaluatorLaws.LetValuesRunsLetValues | scheme-on-coffee/eval.js:292-296 | the direct letValues evaluates the bindings exactly as the analyzed let does, binding by binding (the analyzed one spends one fuel unit per binding) |
| EvaluatorLaws.ApplyProcedureSpec | scheme-on-coffee/eval.js:27-35 | direct apply: a primitive as in executeApplication; a direct procedure runs its body in order in a new frame; an analyzed procedure is a TypeError once its frame is built; a count mismatch fails with no frame built; anything else is the unknown-procedure error |
| EvaluatorLaws.ApplicationAgreesUpToApply | scheme-on-coffee/eval.js:22-24 | for an application whose operands analyze, both evaluators run the operator, then the operands in order, and differ only in using apply or executeApplication |
| EvaluatorLaws.DirectLetFails | scheme-on-coffee/eval.js:19-21 | a let that the analyzing evaluator can compile never succeeds under the direct evaluator |
| EvaluatorLaws.AnalyzeIdentity | scheme-on-coffee/eval.js:635-642 | `(lambda (x) x)` analyzes to a procedure whose body looks up x |
| EvaluatorLaws.ExecuteIdentity | scheme-on-coffee/eval.js:669-675 | applying that procedure to `(5)` gives 5 |
| EvaluatorLaws.IdentityApplication | scheme-on-coffee/eval.js:659-677 | `((lambda (x) x) 5)` evaluates to 5 |
| EvaluatorLaws.IdentityApplicationDirect | scheme-on-coffee/eval.js:27-33 | the same expression fails under interpretationalEval, since the procedure it gets back holds analyzed code |
| EvaluatorLaws.NoParameterApplication | scheme-on-coffee/eval.js:357 | with the intended arity guard, `((lambda () 5))` evaluates to 5 |
| EvaluatorLaws.AnalyzeLetExample | scheme-on-coffee/eval.js:584 | `(let ((x 5)) x)` analyzes to a lambda of x applied to its bindings |
| EvaluatorLaws.RunLetValuesExample | scheme-on-coffee/eval.js:292-296 | its binding values evaluate to `[5]` |
| EvaluatorLaws.LetBindsItsVariable | scheme-on-coffee/eval.js:678-683 | `(let ((x 5)) x)` evaluates to 5 |
| Store.Machine.Scan | scheme-on-coffee/eval.js:366-370 | the loop over one frame returns the scan result |
| Store.Machine.Lookup | scheme-on-coffee/eval.js:362-378 | the loop over the environment returns exactly lookupVariableValue's result |
| Store.Machine.SetValueCell | scheme-on-coffee/eval.js:350-352 | setCar of one value cell: the store becomes the store with that cell overwritten |
| Store.Machine.Assign | scheme-on-coffee/eval.js:379-395 | in place: the new store is the assignment's, the answer is the value; on error the store is unchanged |
| Store.Machine.AddBinding | scheme-on-coffee/eval.js:346-349 | setCar then setCdr leave the frame with the binding in front |
| Store.Machine.Define | scheme-on-coffee/eval.js:396-411 | in place: the new store is the definition's, the answer is the value or "ok"; on error the store is unchanged |
| Store.Machine.Extend | scheme-on-coffee/eval.js:356-361 | with the intended arity guard, in place: the store gains the extension's frame and the answer is the new environment; on error the store is unchanged |
| Store.Machine.Setup | scheme-on-coffee/eval.js:414-424 | in place: the store gains exactly the global frame, and the answer is the environment naming it |
| Store.Machine.Exec | scheme-on-coffee/eval.js:590-667 | running code in place gives exactly the pure run's answer and store |
| Store.Machine.ExecOperands | scheme-on-coffee/eval.js:663-666 | in place, exactly the pure operand run |
| Store.Machine.ExecLetValues | scheme-on-coffee/eval.js:292-296 | in place, exactly the pure let-binding run |
| Store.Machine.ExecuteApplicationInPlace | scheme-on-coffee/eval.js:669-677 | with the intended arity guard, in place, exactly the pure executeApplication |
| Store.Machine.Eval | scheme-on-coffee/eval.js:569-573 | analyze then run in place, exactly the pure eval |

## Left out

- `scheme-on-coffee/parse.js` is not part of this model. The reader rewrites text with regular expressions and runs it through the host `eval`. Expressions enter the model as `Value` trees.
- The implementations of the primitive table are left out. They rely on host numbers, coercions and `Math` functions. Every primitive other than `car`, `cdr` and `cons` is a call to the `Host` parameter, which gets the primitive's name and the argument array.
- The driver and presentation code are left out: `driverLoop`, `execute`'s output formatting, `userPrint`, the prompts and console output.
- `setupEnvironment` also defines `map` by running Scheme source text through `execute` and `parse`. That step is left out, because it needs the reader. The modelled global environment is the frame before that definition.
- Host coercions are replaced by predicates over the `Value` constructors. `isNumber` becomes numbers, null and booleans. The identifier regex of `isSymbol` becomes a character-class predicate, and numbers, null and booleans also count as symbols, since their printed form matches. Symbol identity (`===`) becomes string equality.
- Procedures are constructors of `Value`, not tagged lists. Direct procedures are `Compound` and analyzed procedures are `Compiled`. A quoted list that happens to start with `procedure` or `primitive` is not treated as a procedure here.
- Floating-point numbers are left out. Numbers are unbounded integers.
- `car`, `cdr` and `map` on something that is not a pair give `Err(TypeError)`. In the host, `car` of null throws, but on a string or number it yields a character or `undefined` without throwing. The model treats all of these as errors.
- `Pairs.ListToArray` stops at the first tail that is not a pair. The source's `LispList2JSArray` (eval.js:155-164) keeps going while the tail is truthy, so after an atom tail such as a number it pushes that atom's car (`undefined`) and continues with its cdr. The model does not capture that. The round-trip lemmas are stated for proper lists, where the two agree.
- Evaluation of user programs need not terminate. Execution is bounded by fuel, and running out is `Err(OutOfFuel)`, which the source has no counterpart for. Non-terminating programs and stack overflow are not captured.
- Frames live in an indexed store instead of the JavaScript heap. Identity comparisons of frames or lists, other than the empty environment, are not modelled.
- The source's thrown strings are the constructors of `Error`, without their message text.
- Interpreter.Interpret: its own contract states only that no frame is dropped and that frames stay consistent. EvaluatorLaws lemmas state its behaviour form by form, each under the conditions it names:
  - `EvaluatorsAgree`: self-evaluating values, variables, quotations and `cond`.
  - `DefineAnswers` and `SetAnswers`: `define` and `set!` of a symbol.
  - `IfTests`: `if`.
  - `LambdaForms`: a lambda with a non-empty body that analyzes.
  - `BeginAgrees` and `EmptyBegin`: `begin`.
  - `DirectLetFails`: a `let` that analyzes.
  - `ApplicationAgreesUpToApply` with `ApplyProcedureSpec`: an application whose operands analyze.
  The `define` shorthand, forms whose pieces do not analyze and the answers of a direct `let` beyond failing have no general lemma.
- Execution.RunOperands: its own contract gives only the number of values. `ExecutionLaws.RunOperandsInOrder` states what the values are and their order.
- Execution.RunLetValues: its own contract states only store growth and consistency. `ExecutionLaws.RunLetValuesRunsOperands` states the values, for bindings whose expressions analyze. A binding that fails to analyze after earlier ones ran has no general lemma.
- Interpreter.EvalSequence: its own contract states only store growth and consistency. `EvaluatorLaws.EvalSequenceRunsInOrder` states that a non-empty body runs in order and answers the last value.
- Interpreter.ListOfValues: its own contract states only store growth and consistency. `EvaluatorLaws.ListOfValuesRunsOperands` states the values and their order.
- Interpreter.LetValues: its own contract states only store growth and consistency. `EvaluatorLaws.LetValuesRunsLetValues` states the values, through the analyzed let.
- Interpreter.ApplyProcedure: its own contract states only store growth and consistency. `EvaluatorLaws.ApplyProcedureSpec` states its dispatch.
- Execution.Run: its own contract states only that no frame is dropped and that frames stay consistent. Its behaviour is stated by the ExecutionLaws and EvaluatorLaws lemmas and by `Store.Machine.Exec`.
- The evaluator runs the corrected half of each finding below, not the source as written. The members that do so each have a line:
- Syntax.CondToIf: uses the intended else-not-last guard (`ExpandClauses`). So do `Analyzer.Analyze` and `Interpreter.Interpret`, through it. On `(cond (else 1) (x 2))` the source answers 1 and the model gives `Err(ElseNotLast)`. `DerivedForms.ExpandClausesAgree` shows the two expansions are equal whenever no `else` clause comes before the last clause.
- Environment.ExtendEnvironment: uses the intended count check, not the `.length` comparison of eval.js:357. `EnvironmentLaws.ArityGuardsAgree` shows they agree on non-empty proper lists of equal length. They differ on two inputs:
  - `((lambda (x) x) 1 2)`: the source answers 1, because both lists have `.length` 2. The model gives `Err(ArityMismatch)`.
  - `((lambda () 5))`: the source throws on `null.length`. The model answers 5.
- Execution.ExecuteApplication: extends through `ExtendEnvironment`, so it differs from the source on the two inputs above.
- Interpreter.ApplyProcedure: extends through `ExtendEnvironment`, so it differs from the source on the two inputs above.
- Store.Machine.Extend: equal to `ExtendEnvironment`, so it differs from the source on the two inputs above.
- Store.Machine.ExecuteApplicationInPlace: equal to `ExecuteApplication`, so it differs from the source on the two inputs above.
- ExecutionLaws.ExecuteCompiledProcedure: stated with the intended arity guard. Its domain includes a procedure with no parameters called with no arguments, where the source throws at eval.js:357.
- ExecutionLaws.ExecuteArityMismatch: stated with the intended arity guard. As written (eval.js:357), two non-empty lists of different lengths pass, and the body runs.

## Findings

| source | as written | input that shows it | evidently intended | confidence | as-written member | corrected member |
|---|---|---|---|---|---|---|
| scheme-on-coffee/eval.js:357 | compares the host `.length` of the two lists, which is 2 for every non-empty list | vars `(a b)`, vals `(1)`: the guard passes and looking up `b` then fails | throw when the counts of variables and values differ | not executed | EnvironmentLaws.ArityGuardMissesMismatch | EnvironmentLaws.ExtendEnvironmentSpec |
| scheme-on-coffee/eval.js:357 | reads `.length` of null when a procedure has no parameters | `((lambda () 5))`: `null.length` throws | an empty frame, so the body runs | not executed | EnvironmentLaws.ZeroParametersRejectedAsWritten | EvaluatorLaws.NoParameterApplication |
| scheme-on-coffee/eval.js:278 | the else-not-last guard compares the remaining clauses with `!null`, which is `true` | `(cond (else 1) (x 2))` expands to 1 with no error | throw when an `else` clause is followed by more clauses | not executed | DerivedForms.ElseGuardAsWrittenNeverFires | DerivedForms.ElseMustBeLast |
