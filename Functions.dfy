/** Scalar function implementations and the registry that binds function identifiers. */
module Functions {
  import opened Wrappers
  import opened Values
  import opened Symbols
  import opened Errors

  /** The functions and operators the modelled plans call. */
  datatype FunctionImplementation =
    /** The scalar `twoTimes(int)`: its first argument doubled, 0 without arguments. */
    | TwoTimes
    /** Boolean AND under three-valued logic. */
    | AndOperator
    /** Equality, unknown (NULL) when an operand is NULL. */
    | EqOperator

  type FunctionRegistry = map<FunctionIdent, FunctionImplementation>

  const TWO_TIMES_IDENT: FunctionIdent := FunctionIdent("twoTimes", [IntegerType])
  const TWO_TIMES_INFO: FunctionInfo := FunctionInfo(TWO_TIMES_IDENT, IntegerType, false)

  const AND_IDENT: FunctionIdent := FunctionIdent("op_and", [BooleanType, BooleanType])
  const AND_INFO: FunctionInfo := FunctionInfo(AND_IDENT, BooleanType, false)

  function EqIdent(t: DataType): FunctionIdent
  {
    FunctionIdent("op_=", [t, t])
  }

  function EqInfo(t: DataType): FunctionInfo
  {
    FunctionInfo(EqIdent(t), BooleanType, false)
  }

  /**
   * Applies an implementation to already-evaluated arguments. A result has
   * the function's return type (INTEGER for `twoTimes`, BOOLEAN or NULL for
   * the operators); a failure is an evaluation error.
   */
  function Evaluate(f: FunctionImplementation, args: seq<Value>): (r: Result<Value, CollectError>)
    ensures r.Failure? ==> r.error.EvaluationError?
    ensures r.Success? && f.TwoTimes? ==> r.value.IntValue?
    ensures r.Success? && !f.TwoTimes? ==> r.value.BoolValue? || r.value.NullValue?
  {
    match f
    case TwoTimes =>
      if |args| == 0 then Success(IntValue(0))
      else if args[0].IntValue? then Success(IntValue(WrapInt32(2 * args[0].i)))
      else Failure(EvaluationError("twoTimes"))
    case AndOperator =>
      if |args| != 2 then Failure(EvaluationError("op_and"))
      else if !(args[0].BoolValue? || args[0].NullValue?) || !(args[1].BoolValue? || args[1].NullValue?) then
        Failure(EvaluationError("op_and"))
      else if args[0] == BoolValue(false) || args[1] == BoolValue(false) then Success(BoolValue(false))
      else if args[0].NullValue? || args[1].NullValue? then Success(NullValue)
      else Success(BoolValue(true))
    case EqOperator =>
      if |args| != 2 then Failure(EvaluationError("op_="))
      else if args[0].NullValue? || args[1].NullValue? then Success(NullValue)
      else Success(BoolValue(args[0] == args[1]))
  }

  /** twoTimes without arguments is 0; otherwise it doubles its first integer argument with Java `int` wrap-around. */
  lemma TwoTimesDoubles(args: seq<Value>)
    ensures |args| == 0 ==> Evaluate(TwoTimes, args) == Success(IntValue(0))
    ensures |args| > 0 && args[0].IntValue? ==>
      Evaluate(TwoTimes, args).Success? && Evaluate(TwoTimes, args).value.IntValue? &&
      (Evaluate(TwoTimes, args).value.i - 2 * args[0].i) % 0x1_0000_0000 == 0
    ensures |args| > 0 && args[0].IntValue? && -0x4000_0000 <= args[0].i < 0x4000_0000 ==>
      Evaluate(TwoTimes, args) == Success(IntValue(2 * args[0].i))
    ensures |args| > 0 && !args[0].IntValue? ==> Evaluate(TwoTimes, args).Failure?
  {
  }

  /** The truth table of three-valued AND over booleans and NULL. */
  lemma AndThreeValued(x: Value, y: Value)
    requires x.BoolValue? || x.NullValue?
    requires y.BoolValue? || y.NullValue?
    ensures Evaluate(AndOperator, [x, y]).Success?
    ensures Evaluate(AndOperator, [x, y]).value == BoolValue(true) <==> x == BoolValue(true) && y == BoolValue(true)
    ensures Evaluate(AndOperator, [x, y]).value == BoolValue(false) <==> x == BoolValue(false) || y == BoolValue(false)
    ensures Evaluate(AndOperator, [x, y]).value == NullValue <==>
      (x.NullValue? || y.NullValue?) && x != BoolValue(false) && y != BoolValue(false)
  {
  }

  /** Equality is true exactly for equal non-NULL operands and unknown when either operand is NULL. */
  lemma EqThreeValued(x: Value, y: Value)
    ensures Evaluate(EqOperator, [x, y]).Success?
    ensures Evaluate(EqOperator, [x, y]).value == BoolValue(true) <==> x == y && !x.NullValue?
    ensures Evaluate(EqOperator, [x, y]).value == NullValue <==> x.NullValue? || y.NullValue?
    ensures Evaluate(EqOperator, [x, y]).value == BoolValue(false) <==> !x.NullValue? && !y.NullValue? && x != y
  {
  }
}
