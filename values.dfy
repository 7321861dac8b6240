/** The values the evaluator works on, the compiled form the analyzer produces,
    and the frames environments are made of (scheme-on-coffee/eval.js). */
module Values {

  /** The failures the core raises. TypeError stands for the host's own
      TypeError: taking car/cdr of something that is not a pair, `.length`
      of null, calling a value that is not a host function. */
  datatype Error =
    | TypeError
    | UnknownExpressionType
    | UnknownProcedureType
    | UnboundVariable
    | ArityMismatch
    | EmptySequence
    | ElseNotLast
    | OutOfFuel

  datatype Option<+T> = None | Some(value: T)

  /** A value or the error that was thrown instead. */
  datatype Result<+T> = Ok(value: T) | Err(error: Error) {
    predicate IsFailure() { Err? }
    function PropagateFailure<U>(): Result<U>
      requires Err?
    {
      Err(error)
    }
    function Extract(): T
      requires Ok?
    {
      value
    }
  }

  /** Primitive procedures. Only car, cdr and cons are told apart by
      applyPrimitiveProcedure; every other primitive is a host function
      known by its name. */
  datatype PrimOp = CarOp | CdrOp | ConsOp | HostOp(name: string)

  /** An environment: the indices of its frames in the store, innermost
      first. The empty sequence is TheEmptyEnvironment. */
  type Env = seq<nat>

  /** An s-expression or a run-time value. `null` is Nil; a two-element
      array is a Pair. A procedure made by the direct evaluator keeps its
      body as a list of expressions (Compound); one made by the analyzing
      evaluator keeps the compiled body (Compiled). Both hold the
      environment they were created in. */
  datatype Value =
    | Nil
    | Num(n: int)
    | Sym(name: string)
    | Bool(b: bool)
    | Pair(car: Value, cdr: Value)
    | Primitive(op: PrimOp)
    | Compound(params: Value, body: Value, env: Env)
    | Compiled(params: Value, code: Code, env: Env)

  /** What `analyze` turns an expression into: one constructor per
      execution procedure it builds. */
  datatype Code =
    | Const(value: Value)                            // analyzeSelfEvaluating, analyzeQuoted
    | Var(name: string)                              // analyzeVariable
    | Assign(variable: Value, valueCode: Code)       // analyzeAssignment
    | Define(variable: Value, valueCode: Code)       // analyzeDefinition
    | If(test: Code, consequent: Code, alternative: Code)
    | Lambda(params: Value, body: Code)              // analyzeLambda
    | Sequence(first: Code, second: Code)            // `sequentially`
    | Let(procedure: Code, bindings: Value)          // analyzeLet
    | Apply(operator: Code, operands: seq<Code>)     // analyzeApplication

  /** A frame: the variable list and the value list, position by position. */
  datatype Frame = Frame(vars: seq<Value>, vals: seq<Value>)

  /** A host array as primitives see their arguments: an atom, or a nested
      array standing for a nested list. */
  datatype HostValue = Atom(v: Value) | Array(items: seq<HostValue>)

  /** The host functions behind the primitives other than car, cdr and
      cons: they receive the converted argument array and may throw. */
  type Host = (string, seq<HostValue>) -> Result<Value>
}
