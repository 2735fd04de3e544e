/**
 * The value rules of the evaluator (src/Interpreter.java): truthiness,
 * equality, the operand checks and results of the unary and binary operators,
 * short-circuiting, the call checks, the normalisation of a call's result and
 * the text `print` writes. All of them are pure functions of values.
 */
module Operators {
  import opened Wrappers
  import opened Tokens
  import opened Ast
  import opened RuntimeErrors
  import opened Numerals
  import opened Tan

  /**
   * Why an evaluation stopped early: a runtime error of the language, a Java
   * exception outside the language's error handling, or the model's fuel
   * bound running out.
   */
  datatype Fault =
    | Thrown(error: RuntimeError)
    | HostException(name: string)
    | OutOfFuel

  /** The result of evaluating an expression. */
  datatype Outcome = Ok(value: Value) | Fail(fault: Fault)
  {
    predicate IsFailure() { Fail? }

    function PropagateFailure(): Outcome
      requires Fail?
    {
      this
    }

    function Extract(): Value
      requires Ok?
    {
      value
    }
  }

  function LiteralToValue(lit: LiteralValue): Value
  {
    match lit
      case LitNil => Nil
      case LitBool(b) => Bool(b)
      case LitNumber(n) => Num(n)
      case LitString(s) => Str(s)
  }

  /** nil and false are falsy; every other value is truthy. */
  function Truthy(value: Value): (r: bool)
    ensures !r <==> value == Nil || value == Bool(false)
  {
    if value == Nil then false
    else if value.Bool? then value.b
    else true
  }

  /** Java's `equals` on the boxed values and the runtime objects. */
  function JavaEquals(lhs: Value, rhs: Value): bool
  {
    match lhs
      case Nil => rhs.Nil?
      case Bool(b) => rhs.Bool? && rhs.b == b
      case Num(n) => rhs.Num? && rhs.n == n
      case Str(s) => rhs.Str? && rhs.s == s
      case Fun(f) => rhs.Fun? && rhs.fn == f
      case Klass(c) => rhs.Klass? && rhs.klass == c
      case Instance(i) => rhs.Instance? && rhs.inst == i
  }

  /** nil equals only nil; otherwise the operands are compared with `equals`. */
  function IsEqual(lhs: Value, rhs: Value): (r: bool)
    ensures r <==> lhs == rhs
    ensures lhs == Nil ==> (r <==> rhs == Nil)
    ensures rhs == Nil ==> (r <==> lhs == Nil)
  {
    if lhs == Nil && rhs == Nil then true
    else if lhs == Nil then false
    else JavaEquals(lhs, rhs)
  }

  /** The operators whose operands must both be numbers. */
  predicate NumericBinary(kind: TokenType)
  {
    kind.More? || kind.MoreEqual? || kind.Less? || kind.LessEqual?
    || kind.Subtract? || kind.Multiply? || kind.Divide?
  }

  /** The error message for a non-number operand of a numeric binary operator. */
  function NumericMessage(kind: TokenType): string
    requires NumericBinary(kind)
  {
    match kind
      case More => "exist an operand of '>' is not a number"
      case MoreEqual => "exist an operand of '>=' is not a number"
      case Less => "exist an operand of '<' is not a number"
      case LessEqual => "exist an operand of '<=' is not a number"
      case Subtract => "exist an operand of '-' is not a number"
      case Multiply => "exist an operand of '*' is not a number"
      case Divide => "exist an operand of '/' is not a number"
  }

  /** Accepts one or two operands that are all numbers; anything else is the given error. */
  function VerifyNumber(operator: Token, message: string, args: seq<Value>): (r: Option<RuntimeError>)
    ensures r.None? <==> (|args| == 1 || |args| == 2) && forall i :: 0 <= i < |args| ==> args[i].Num?
    ensures r.Some? ==> r.value == RuntimeError(AtToken(operator), message)
  {
    if |args| == 1 && args[0].Num? then None
    else if |args| == 2 && args[0].Num? && args[1].Num? then None
    else Some(RuntimeError(AtToken(operator), message))
  }

  /** Java's `(String)` cast: a string or null passes, anything else does not. */
  function CastToString(value: Value): Option<string>
  {
    match value
      case Str(s) => Some(s)
      case Nil => Some("null")
      case _ => None
  }

  /** `+`: numeric addition, else string concatenation when either side is a string. */
  function Plus(operator: Token, lhs: Value, rhs: Value): (r: Outcome)
    ensures r.Ok? ==> r.value.Num? || r.value.Str?
    ensures r.Fail? ==> r.fault.Thrown? || r.fault == HostException("ClassCastException")
  {
    if lhs.Num? && rhs.Num? then Ok(Num(lhs.n + rhs.n))
    else if lhs.Str? || rhs.Str? then
      match (CastToString(lhs), CastToString(rhs))
        case (Some(l), Some(r)) => Ok(Str(l + r))
        case _ => Fail(HostException("ClassCastException"))
    else Fail(Thrown(RuntimeError(AtToken(operator), "two operand of '+' are not type number or string")))
  }

  /** A numeric operator applied to two operands, which must both be numbers. */
  function Arithmetic(operator: Token, lhs: Value, rhs: Value): (r: Outcome)
    requires NumericBinary(operator.kind)
    ensures r.Ok? ==> r.value.Bool? || r.value.Num?
    ensures r.Fail? ==> r.fault.Thrown?
  {
    match VerifyNumber(operator, NumericMessage(operator.kind), [lhs, rhs])
      case Some(err) => Fail(Thrown(err))
      case None =>
        assert [lhs, rhs][0] == lhs && [lhs, rhs][1] == rhs;
        var kind := operator.kind;
        if kind == More then Ok(Bool(lhs.n > rhs.n))
        else if kind == MoreEqual then Ok(Bool(lhs.n >= rhs.n))
        else if kind == Less then Ok(Bool(lhs.n < rhs.n))
        else if kind == LessEqual then Ok(Bool(lhs.n <= rhs.n))
        else if kind == Subtract then Ok(Num(lhs.n - rhs.n))
        else if kind == Multiply then Ok(Num(lhs.n * rhs.n))
        else if rhs.n == 0.0 then Fail(Thrown(RuntimeError(AtToken(operator), "divide by 0")))
        else Ok(Num(lhs.n / rhs.n))
  }

  /** A binary operator applied to two evaluated operands. */
  function BinaryOp(operator: Token, lhs: Value, rhs: Value): (r: Outcome)
    ensures r.Ok? ==> r.value.Bool? || r.value.Num? || r.value.Str?
    ensures r.Fail? ==> r.fault.Thrown? || r.fault == HostException("ClassCastException")
  {
    var kind := operator.kind;
    if kind == NotEqual then Ok(Bool(!IsEqual(lhs, rhs)))
    else if kind == EqualEqual then Ok(Bool(IsEqual(lhs, rhs)))
    else if kind == TokenType.Plus then Plus(operator, lhs, rhs)
    else if NumericBinary(kind) then Arithmetic(operator, lhs, rhs)
    else Fail(Thrown(RuntimeError(AtToken(operator), "unexpected binary operator")))
  }

  /** A unary operator applied to its evaluated operand. */
  function UnaryOp(operator: Token, operand: Value): (r: Outcome)
    ensures r.Ok? ==> r.value.Bool? || r.value.Num?
    ensures r.Fail? ==> r.fault.Thrown?
  {
    if operator.kind == LogicNot then Ok(Bool(!Truthy(operand)))
    else if operator.kind == Subtract then
      (match VerifyNumber(operator, "operand of unary '-' is not a number", [operand])
        case Some(err) => Fail(Thrown(err))
        case None =>
          assert [operand][0] == operand;
          Ok(Num(-operand.n)))
    else Fail(Thrown(RuntimeError(AtToken(operator), "unexpected unary operator")))
  }

  /**
   * `+` succeeds exactly on two numbers, or on a string with a string or nil;
   * a string with any other value is Java's failed cast.
   */
  lemma PlusCases(operator: Token, lhs: Value, rhs: Value)
    ensures var r := BinaryOp(operator.(kind := TokenType.Plus), lhs, rhs);
      && (r.Ok? <==> (lhs.Num? && rhs.Num?) || ((lhs.Str? || rhs.Str?) && CastToString(lhs).Some? && CastToString(rhs).Some?))
      && (lhs.Num? && rhs.Num? ==> r == Ok(Num(lhs.n + rhs.n)))
      && (lhs.Str? && rhs.Str? ==> r == Ok(Str(lhs.s + rhs.s)))
      && ((lhs.Str? && rhs.Num?) || (lhs.Num? && rhs.Str?) ==> r == Fail(HostException("ClassCastException")))
      && (!lhs.Str? && !rhs.Str? && !(lhs.Num? && rhs.Num?) ==>
            r == Fail(Thrown(RuntimeError(AtToken(operator.(kind := TokenType.Plus)), "two operand of '+' are not type number or string"))))
  {
  }

  /**
   * A numeric operator succeeds exactly on two numbers, except `/` by zero;
   * a non-number operand is the operator's own error at the operator token.
   */
  lemma NumericOperands(operator: Token, lhs: Value, rhs: Value)
    requires NumericBinary(operator.kind)
    ensures var r := BinaryOp(operator, lhs, rhs);
      && (r.Ok? <==> lhs.Num? && rhs.Num? && !(operator.kind == Divide && rhs.n == 0.0))
      && (!(lhs.Num? && rhs.Num?) ==> r == Fail(Thrown(RuntimeError(AtToken(operator), NumericMessage(operator.kind)))))
      && (operator.kind == Divide && lhs.Num? && rhs == Num(0.0) ==>
            r == Fail(Thrown(RuntimeError(AtToken(operator), "divide by 0"))))
  {
    var r := BinaryOp(operator, lhs, rhs);
    if !(lhs.Num? && rhs.Num?) {
      assert VerifyNumber(operator, NumericMessage(operator.kind), [lhs, rhs]).Some?;
    }
  }

  /** `-` and `!` results: negation needs a number, `!` always yields the opposite truthiness. */
  lemma UnaryCases(operator: Token, operand: Value)
    ensures operator.kind == Subtract ==>
      (UnaryOp(operator, operand).Ok? <==> operand.Num?)
      && (operand.Num? ==> UnaryOp(operator, operand) == Ok(Num(-operand.n)))
    ensures operator.kind == LogicNot ==>
      UnaryOp(operator, operand).Ok? && Truthy(UnaryOp(operator, operand).value) != Truthy(operand)
  {
    if operator.kind == Subtract && !operand.Num? {
      assert VerifyNumber(operator, "operand of unary '-' is not a number", [operand]).Some?;
    }
  }

  /**
   * The value of `and`/`or` when the left operand alone decides it: `and` on
   * a falsy left operand, `or` (any other operator) on a truthy one.
   */
  function ShortCircuit(operator: Token, lhs: Value): Option<Value>
  {
    if operator.kind == LogicAnd then
      if !Truthy(lhs) then Some(lhs) else None
    else
      if Truthy(lhs) then Some(lhs) else None
  }

  /** A decided `and`/`or` yields its left operand unchanged. */
  lemma ShortCircuitCases(operator: Token, lhs: Value)
    ensures ShortCircuit(operator, lhs).Some? ==> ShortCircuit(operator, lhs).value == lhs
    ensures ShortCircuit(operator, lhs).Some? <==>
      (operator.kind == LogicAnd && (lhs == Nil || lhs == Bool(false)))
      || (operator.kind != LogicAnd && lhs != Nil && lhs != Bool(false))
  {
  }

  /** Drops a trailing ".0" from a number's rendering. */
  function TrimPointZero(s: string): (r: string)
    ensures r <= s
  {
    if |s| >= 2 && s[|s| - 2..] == ".0" then s[..|s| - 2] else s
  }

  /** The text `print` writes for a value; numbers are rendered by the host's `Double.toString`. */
  function Clean(value: Value, showNumber: real -> string): string
  {
    match value
      case Nil => "nil"
      case Bool(b) => if b then "true" else "false"
      case Num(n) => TrimPointZero(showNumber(n))
      case Str(s) => s
      case Fun(f) => "<fn " + f.declaration.name.lexeme + ">"
      case Klass(c) => "<class " + c.identifier + ">"
      case Instance(i) => "<instance of class " + i.klass.identifier + ">"
  }

  /**
   * A number prints as its rendering without a trailing ".0"; strings print
   * verbatim, even when they end in ".0".
   */
  lemma CleanCases(showNumber: real -> string, n: real, s: string)
    ensures var shown := showNumber(n);
      shown == Clean(Num(n), showNumber) + ".0" || shown == Clean(Num(n), showNumber)
    ensures Clean(Num(n), showNumber) == showNumber(n) <==> !(|showNumber(n)| >= 2 && showNumber(n)[|showNumber(n)| - 2..] == ".0")
    ensures Clean(Str(s), showNumber) == s
  {
    var shown := showNumber(n);
    if |shown| >= 2 && shown[|shown| - 2..] == ".0" {
      assert shown == shown[..|shown| - 2] + ".0";
    }
  }

  /** The arity of a callable value; nothing for a value that cannot be called. */
  function CallableArity(callee: Value): Option<nat>
    requires callee.Klass? ==> callee.klass.Valid()
  {
    match callee
      case Fun(f) => Some(f.Arity())
      case Klass(c) => Some(c.Arity())
      case _ => None
  }

  /** The checks a call makes once its callee and arguments are evaluated. */
  function CheckCall(callee: Value, argCount: nat, closeParen: Token): (r: Option<RuntimeError>)
    requires callee.Klass? ==> callee.klass.Valid()
    ensures r.None? <==> CallableArity(callee) == Some(argCount)
  {
    match CallableArity(callee)
      case None => Some(RuntimeError(AtToken(closeParen), "function name is not a callable function"))
      case Some(arity) =>
        if arity != argCount then
          Some(RuntimeError(AtToken(closeParen),
            "Expected " + NatToString(arity) + " arguments but got " + NatToString(argCount)))
        else None
  }

  /**
   * A non-callable callee and a wrong argument count are reported at the
   * closing parenthesis. A function must get one argument per parameter; a
   * class as many as the parameters of the nearest `init` in its chain, or
   * none when there is no `init`.
   */
  lemma CallErrors(callee: Value, argCount: nat, closeParen: Token)
    requires callee.Klass? ==> callee.klass.Valid()
    ensures !(callee.Fun? || callee.Klass?) ==>
      CheckCall(callee, argCount, closeParen) == Some(RuntimeError(AtToken(closeParen), "function name is not a callable function"))
    ensures callee.Fun? && |callee.fn.declaration.params| != argCount ==>
      CheckCall(callee, argCount, closeParen) == Some(RuntimeError(AtToken(closeParen),
        "Expected " + NatToString(|callee.fn.declaration.params|) + " arguments but got " + NatToString(argCount)))
    ensures callee.Klass? ==>
      var expected := match callee.klass.FindMethod("init")
        case Some(initializer) => |initializer.declaration.params|
        case None => 0;
      expected != argCount ==>
        CheckCall(callee, argCount, closeParen) == Some(RuntimeError(AtToken(closeParen),
          "Expected " + NatToString(expected) + " arguments but got " + NatToString(argCount)))
    ensures (callee.Fun? || callee.Klass?) && CallableArity(callee) != Some(argCount) ==>
      var message := CheckCall(callee, argCount, closeParen).value.message;
      && message[..9] == "Expected "
      && message[9..9 + |NatToString(CallableArity(callee).value)|] == NatToString(CallableArity(callee).value)
  {
    if (callee.Fun? || callee.Klass?) && CallableArity(callee) != Some(argCount) {
      var digits := NatToString(CallableArity(callee).value);
      var head := "Expected " + digits;
      var message := head + " arguments but got " + NatToString(argCount);
      assert message[..|head|] == head;
      assert message[..9] == head[..9] == "Expected ";
      assert message[9..9 + |digits|] == head[9..] == digits;
    }
  }

  /** The bindings the first `count` parameters make, one parameter at a time from the first. */
  function ParamMap(params: seq<Token>, args: seq<Value>, count: nat): map<string, Value>
    requires |params| == |args| && count <= |params|
  {
    if count == 0 then map[]
    else ParamMap(params, args, count - 1)[params[count - 1].lexeme := args[count - 1]]
  }

  /** The parameter map binds exactly the parameter names. */
  lemma {:induction false} ParamMapKeys(params: seq<Token>, args: seq<Value>, count: nat)
    requires |params| == |args| && count <= |params|
    ensures ParamMap(params, args, count).Keys == set i | 0 <= i < count :: params[i].lexeme
  {
    if count > 0 {
      ParamMapKeys(params, args, count - 1);
      assert (set i | 0 <= i < count :: params[i].lexeme)
        == (set i | 0 <= i < count - 1 :: params[i].lexeme) + {params[count - 1].lexeme};
    }
  }

  /** With distinct parameter names, each parameter is bound to the argument at its position. */
  lemma {:induction false} ParamMapPositional(params: seq<Token>, args: seq<Value>, count: nat, i: nat)
    requires |params| == |args| && i < count <= |params|
    requires forall j, k :: 0 <= j < k < |params| ==> params[j].lexeme != params[k].lexeme
    ensures params[i].lexeme in ParamMap(params, args, count)
    ensures ParamMap(params, args, count)[params[i].lexeme] == args[i]
  {
    if i < count - 1 {
      ParamMapPositional(params, args, count - 1, i);
    }
  }
}
