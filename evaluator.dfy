/**
 * The three RPN stack evaluators (`evaluateRPNVec`, `evaluateRPNXY`,
 * `evaluateRPNEnv`). They share one loop and differ only in how a Variable
 * token gets its value, so the model has one evaluator parameterised by a
 * `Binding`. A thrown `std::runtime_error` is an `Err` carrying which of the
 * three messages it was. The value stack is a sequence whose last element is
 * the top.
 */
module Evaluator {
  import opened Wrappers
  import opened Numeric
  import opened Tokens

  /** "Invalid expression", "Function args" and "Invalid evaluation". */
  datatype EvalError = InvalidExpression | FunctionArgs | InvalidEvaluation

  /**
   * How Variable tokens get their values: `evaluateRPNVec` binds only `x`,
   * `evaluateRPNXY` binds `x` and `y`, `evaluateRPNEnv` looks the name up in
   * a map. Every other name is 0.
   */
  datatype Binding = XOnly(x: Double) | XAndY(x: Double, y: Double) | Env(env: map<string, Double>)

  function Lookup(b: Binding, name: string): Double {
    match b
    case XOnly(x) => if name == "x" then x else Num(0.0)
    case XAndY(x, y) => if name == "x" then x else if name == "y" then y else Num(0.0)
    case Env(env) => if name in env then env[name] else Num(0.0)
  }

  /** The binary operators; an unknown operator text yields nothing. */
  function ApplyOperator(lib: MathLib, op: string, a: Double, b: Double): Option<Double> {
    if op == "+" then Some(Add(a, b))
    else if op == "-" then Some(Sub(a, b))
    else if op == "*" then Some(Mul(a, b))
    else if op == "/" then Some(lib.div(a, b))
    else if op == "^" then Some(lib.pow(a, b))
    else None
  }

  /** The arity-1 functions; an unknown name yields NaN. */
  function ApplyUnary(lib: MathLib, name: string, a: Double): Double {
    if name == "sin" then lib.sin(a)
    else if name == "cos" then lib.cos(a)
    else if name == "tan" then lib.tan(a)
    else if name == "arcsin" || name == "asin" then lib.asin(a)
    else if name == "arccos" || name == "acos" then lib.acos(a)
    else if name == "arctan" || name == "atan" then lib.atan(a)
    else if name == "sqrt" then lib.sqrt(a)
    else if name == "log" || name == "ln" then lib.log(a)
    else if name == "exp" then lib.exp(a)
    else if name == "neg" then Neg(a)
    else if name == "abs" then Abs(a)
    else NaN
  }

  /** The arity-2 functions; an unknown name yields NaN. */
  function ApplyBinary(lib: MathLib, name: string, a: Double, b: Double): Double {
    if name == "pow" then lib.pow(a, b) else NaN
  }

  /** The stack without its two top values. */
  function Pop2(st: seq<Double>): seq<Double>
    requires |st| >= 2
  {
    st[..|st| - 2]
  }

  /**
   * One iteration of the evaluator's loop. The arity check compares against
   * `(size_t)t.arity`, so a negative arity (a huge unsigned value) always
   * fails it; an arity other than 1 or 2 pops nothing and pushes 0.
   */
  function EvalStep(lib: MathLib, b: Binding, t: Token, st: seq<Double>): Result<seq<Double>, EvalError> {
    match t.kind
    case Number => Ok(st + [Num(t.number)])
    case Variable => Ok(st + [Lookup(b, t.text)])
    case Operator =>
      if |st| < 2 then Err(InvalidExpression)
      else (
        match ApplyOperator(lib, t.text, st[|st| - 2], st[|st| - 1])
        case Some(v) => Ok(Pop2(st) + [v])
        case None => Ok(Pop2(st)))
    case Function =>
      if t.arity < 0 || |st| < t.arity then Err(FunctionArgs)
      else if t.arity == 1 then Ok(st[..|st| - 1] + [ApplyUnary(lib, t.text, st[|st| - 1])])
      else if t.arity == 2 then Ok(Pop2(st) + [ApplyBinary(lib, t.text, st[|st| - 2], st[|st| - 1])])
      else Ok(st + [Num(0.0)])
    case _ => Ok(st)
  }

  /** The rest of the loop over `rpn`, starting from stack `st`. */
  function EvalFrom(lib: MathLib, b: Binding, rpn: seq<Token>, st: seq<Double>): Result<seq<Double>, EvalError>
    decreases |rpn|
  {
    if rpn == [] then Ok(st)
    else
      match EvalStep(lib, b, rpn[0], st)
      case Err(e) => Err(e)
      case Ok(st') => EvalFrom(lib, b, rpn[1..], st')
  }

  /** The whole evaluation: the loop from an empty stack, then the final size check. */
  function Evaluate(lib: MathLib, b: Binding, rpn: seq<Token>): Result<Double, EvalError> {
    match EvalFrom(lib, b, rpn, [])
    case Err(e) => Err(e)
    case Ok(st) => if |st| != 1 then Err(InvalidEvaluation) else Ok(st[0])
  }

  /** The evaluator loop shared by `evaluateRPNVec`, `evaluateRPNXY` and `evaluateRPNEnv`. */
  method EvaluateRPN(lib: MathLib, b: Binding, rpn: seq<Token>) returns (r: Result<Double, EvalError>)
    ensures r == Evaluate(lib, b, rpn)
  {
    var st: seq<Double> := [];
    for n := 0 to |rpn|
      invariant EvalFrom(lib, b, rpn[n..], st) == EvalFrom(lib, b, rpn, [])
    {
      var t := rpn[n];
      ghost var st0 := st;
      assert rpn[n..][0] == t && rpn[n..][1..] == rpn[n + 1..];
      if t.kind == Number {
        st := st + [Num(t.number)];
      } else if t.kind == Variable {
        st := st + [Lookup(b, t.text)];
      } else if t.kind == Operator {
        if |st| < 2 {
          return Err(InvalidExpression);
        }
        var bv := st[|st| - 1];
        st := st[..|st| - 1];
        var av := st[|st| - 1];
        st := st[..|st| - 1];
        var v := ApplyOperator(lib, t.text, av, bv);
        if v.Some? {
          st := st + [v.value];
        }
        assert st0[..|st0| - 1][..|st0| - 2] == Pop2(st0);
      } else if t.kind == Function {
        if t.arity < 0 || |st| < t.arity {
          return Err(FunctionArgs);
        }
        var result := Num(0.0);
        if t.arity == 1 {
          var av := st[|st| - 1];
          st := st[..|st| - 1];
          result := ApplyUnary(lib, t.text, av);
        } else if t.arity == 2 {
          var bv := st[|st| - 1];
          st := st[..|st| - 1];
          var av := st[|st| - 1];
          st := st[..|st| - 1];
          result := ApplyBinary(lib, t.text, av, bv);
          assert st0[..|st0| - 1][..|st0| - 2] == Pop2(st0);
        }
        st := st + [result];
      }
      assert EvalStep(lib, b, t, st0) == Ok(st);
    }
    if |st| != 1 {
      return Err(InvalidEvaluation);
    }
    return Ok(st[0]);
  }

  /** `evaluateRPNVec(rpn, xValue)`. */
  method EvaluateRPNVec(lib: MathLib, rpn: seq<Token>, xValue: Double) returns (r: Result<Double, EvalError>)
    ensures r == Evaluate(lib, XOnly(xValue), rpn)
  {
    r := EvaluateRPN(lib, XOnly(xValue), rpn);
  }

  /** `evaluateRPNXY(rpn, xValue, yValue)`. */
  method EvaluateRPNXY(lib: MathLib, rpn: seq<Token>, xValue: Double, yValue: Double) returns (r: Result<Double, EvalError>)
    ensures r == Evaluate(lib, XAndY(xValue, yValue), rpn)
  {
    r := EvaluateRPN(lib, XAndY(xValue, yValue), rpn);
  }

  /** `evaluateRPNEnv(rpn, env)`. */
  method EvaluateRPNEnv(lib: MathLib, rpn: seq<Token>, env: map<string, Double>) returns (r: Result<Double, EvalError>)
    ensures r == Evaluate(lib, Env(env), rpn)
  {
    r := EvaluateRPN(lib, Env(env), rpn);
  }

  // ---------------------------------------------------------------------------
  // Errors depend only on stack heights

  /** The stack height after one token, or the error that token raises. */
  function HeightStep(t: Token, n: nat): Result<nat, EvalError> {
    match t.kind
    case Number => Ok(n + 1)
    case Variable => Ok(n + 1)
    case Operator =>
      if n < 2 then Err(InvalidExpression)
      else if t.text in OperatorTable then Ok(n - 1)
      else Ok(n - 2)
    case Function =>
      if t.arity < 0 || n < t.arity then Err(FunctionArgs)
      else if t.arity == 1 then Ok(n)
      else if t.arity == 2 then Ok(n - 1)
      else Ok(n + 1)
    case _ => Ok(n)
  }

  function HeightFrom(rpn: seq<Token>, n: nat): Result<nat, EvalError>
    decreases |rpn|
  {
    if rpn == [] then Ok(n)
    else
      match HeightStep(rpn[0], n)
      case Err(e) => Err(e)
      case Ok(m) => HeightFrom(rpn[1..], m)
  }

  lemma KnownOperators(lib: MathLib, op: string, a: Double, b: Double)
    ensures ApplyOperator(lib, op, a, b).Some? <==> op in OperatorTable
  {
  }

  lemma StepHeight(lib: MathLib, b: Binding, t: Token, st: seq<Double>)
    ensures EvalStep(lib, b, t, st).Err? <==> HeightStep(t, |st|).Err?
    ensures EvalStep(lib, b, t, st).Err? ==> EvalStep(lib, b, t, st).error == HeightStep(t, |st|).error
    ensures EvalStep(lib, b, t, st).Ok? ==> |EvalStep(lib, b, t, st).value| == HeightStep(t, |st|).value
  {
    if t.kind == Operator && |st| >= 2 {
      KnownOperators(lib, t.text, st[|st| - 2], st[|st| - 1]);
    }
  }

  lemma {:induction false} ErrorsDependOnHeightsOnly(lib: MathLib, b: Binding, rpn: seq<Token>, st: seq<Double>)
    ensures EvalFrom(lib, b, rpn, st).Err? <==> HeightFrom(rpn, |st|).Err?
    ensures EvalFrom(lib, b, rpn, st).Err? ==> EvalFrom(lib, b, rpn, st).error == HeightFrom(rpn, |st|).error
    ensures EvalFrom(lib, b, rpn, st).Ok? ==> |EvalFrom(lib, b, rpn, st).value| == HeightFrom(rpn, |st|).value
    decreases |rpn|
  {
    if rpn != [] {
      StepHeight(lib, b, rpn[0], st);
      match EvalStep(lib, b, rpn[0], st)
      case Err(_) =>
      case Ok(st') => ErrorsDependOnHeightsOnly(lib, b, rpn[1..], st');
    }
  }

  /**
   * Whether an evaluation throws, and which error it throws, is decided by the
   * program alone: not by the variable values nor by the library functions.
   * The evaluation succeeds exactly when no step underflows and one value is left.
   */
  lemma EvaluationShape(lib: MathLib, b: Binding, rpn: seq<Token>)
    ensures Evaluate(lib, b, rpn).Ok? <==> HeightFrom(rpn, 0) == Ok(1)
    ensures HeightFrom(rpn, 0).Err? ==> Evaluate(lib, b, rpn) == Err(HeightFrom(rpn, 0).error)
    ensures HeightFrom(rpn, 0).Ok? && HeightFrom(rpn, 0).value != 1 ==> Evaluate(lib, b, rpn) == Err(InvalidEvaluation)
  {
    ErrorsDependOnHeightsOnly(lib, b, rpn, []);
  }

  lemma ErrorsIndependentOfValues(lib1: MathLib, b1: Binding, lib2: MathLib, b2: Binding, rpn: seq<Token>)
    ensures Evaluate(lib1, b1, rpn).Ok? <==> Evaluate(lib2, b2, rpn).Ok?
    ensures Evaluate(lib1, b1, rpn).Err? ==> Evaluate(lib1, b1, rpn) == Evaluate(lib2, b2, rpn)
  {
    EvaluationShape(lib1, b1, rpn);
    EvaluationShape(lib2, b2, rpn);
  }

  // ---------------------------------------------------------------------------
  // The three evaluators agree

  lemma {:induction false} SameLookupsSameRun(lib: MathLib, b1: Binding, b2: Binding, rpn: seq<Token>, st: seq<Double>)
    requires forall name :: Lookup(b1, name) == Lookup(b2, name)
    ensures EvalFrom(lib, b1, rpn, st) == EvalFrom(lib, b2, rpn, st)
    decreases |rpn|
  {
    if rpn != [] {
      assert EvalStep(lib, b1, rpn[0], st) == EvalStep(lib, b2, rpn[0], st);
      match EvalStep(lib, b1, rpn[0], st)
      case Err(_) =>
      case Ok(st') => SameLookupsSameRun(lib, b1, b2, rpn[1..], st');
    }
  }

  /** `evaluateRPNEnv(rpn, {x: v})` is `evaluateRPNVec(rpn, v)`. */
  lemma EnvAgreesWithVec(lib: MathLib, rpn: seq<Token>, v: Double)
    ensures Evaluate(lib, Env(map["x" := v]), rpn) == Evaluate(lib, XOnly(v), rpn)
  {
    SameLookupsSameRun(lib, Env(map["x" := v]), XOnly(v), rpn, []);
  }

  /** `evaluateRPNEnv(rpn, {x: a, y: c})` is `evaluateRPNXY(rpn, a, c)`. */
  lemma EnvAgreesWithXY(lib: MathLib, rpn: seq<Token>, a: Double, c: Double)
    ensures Evaluate(lib, Env(map["x" := a, "y" := c]), rpn) == Evaluate(lib, XAndY(a, c), rpn)
  {
    SameLookupsSameRun(lib, Env(map["x" := a, "y" := c]), XAndY(a, c), rpn, []);
  }

  /** `evaluateRPNXY` with `y` unused by the program is `evaluateRPNVec`. */
  lemma {:induction false} XYIgnoresYWhenUnused(lib: MathLib, rpn: seq<Token>, a: Double, c: Double, st: seq<Double>)
    requires forall i :: 0 <= i < |rpn| && rpn[i].kind == Variable ==> rpn[i].text != "y"
    ensures EvalFrom(lib, XAndY(a, c), rpn, st) == EvalFrom(lib, XOnly(a), rpn, st)
    decreases |rpn|
  {
    if rpn != [] {
      assert EvalStep(lib, XAndY(a, c), rpn[0], st) == EvalStep(lib, XOnly(a), rpn[0], st);
      match EvalStep(lib, XOnly(a), rpn[0], st)
      case Err(_) =>
      case Ok(st') =>
        forall i | 0 <= i < |rpn[1..]| && rpn[1..][i].kind == Variable
          ensures rpn[1..][i].text != "y"
        {
          assert rpn[1..][i] == rpn[i + 1];
        }
        XYIgnoresYWhenUnused(lib, rpn[1..], a, c, st');
    }
  }

  // ---------------------------------------------------------------------------
  // Single steps

  /** An Operator pops b, then a, and pushes `a OP b`; with fewer than two values it throws. */
  lemma OperatorStep(lib: MathLib, b: Binding, t: Token, st: seq<Double>)
    requires t.kind == Operator && t.text in OperatorTable
    ensures |st| < 2 ==> EvalStep(lib, b, t, st) == Err(InvalidExpression)
    ensures |st| >= 2 ==> EvalStep(lib, b, t, st) == Ok(Pop2(st) + [ApplyOperator(lib, t.text, st[|st| - 2], st[|st| - 1]).value])
  {
    if |st| >= 2 {
      KnownOperators(lib, t.text, st[|st| - 2], st[|st| - 1]);
    }
  }

  /** A Function with fewer values than its arity, or with a negative arity, throws. */
  lemma FunctionUnderflow(lib: MathLib, b: Binding, t: Token, st: seq<Double>)
    requires t.kind == Function
    ensures EvalStep(lib, b, t, st).Err? <==> t.arity < 0 || |st| < t.arity
    ensures EvalStep(lib, b, t, st).Err? ==> EvalStep(lib, b, t, st).error == FunctionArgs
  {
  }

  /** A Function whose arity is neither 1 nor 2 pops nothing and pushes 0. */
  lemma OtherArityPushesZero(lib: MathLib, b: Binding, t: Token, st: seq<Double>)
    requires t.kind == Function && t.arity >= 0 && t.arity != 1 && t.arity != 2 && |st| >= t.arity
    ensures EvalStep(lib, b, t, st) == Ok(st + [Num(0.0)])
  {
  }

  /** Unknown arity-1 and arity-2 names give NaN. */
  lemma UnknownFunctionsAreNaN(lib: MathLib, name: string, a: Double, c: Double)
    requires name !in FunctionTable && name != "abs"
    ensures ApplyUnary(lib, name, a) == NaN
    ensures ApplyBinary(lib, name, a, c) == NaN
  {
  }

  /** `neg` negates and `abs` takes the absolute value, exactly; neither consults the library. */
  lemma NegAndAbs(lib: MathLib, a: real)
    ensures ApplyUnary(lib, "neg", Num(a)) == Num(-a)
    ensures ApplyUnary(lib, "abs", Num(a)).Num? && ApplyUnary(lib, "abs", Num(a)).r >= 0.0
    ensures ApplyUnary(lib, "abs", Num(a)).r == a || ApplyUnary(lib, "abs", Num(a)).r == -a
  {
  }

  // ---------------------------------------------------------------------------
  // Whole programs

  function NumberTok(v: real): Token {
    MakeToken(Number, "").(number := v)
  }

  /** `a b OP` evaluates to `a OP b`: the left operand is the one pushed first. */
  lemma BinaryProgram(lib: MathLib, b: Binding, u: real, v: real, op: string)
    requires op in OperatorTable
    ensures Evaluate(lib, b, [NumberTok(u), NumberTok(v), OperatorToken(op)])
         == Ok(ApplyOperator(lib, op, Num(u), Num(v)).value)
  {
    var rpn := [NumberTok(u), NumberTok(v), OperatorToken(op)];
    KnownOperators(lib, op, Num(u), Num(v));
    var none: seq<Double> := [];
    assert none + [Num(u)] == [Num(u)] && [Num(u)] + [Num(v)] == [Num(u), Num(v)];
    var w := ApplyOperator(lib, op, Num(u), Num(v)).value;
    assert Pop2([Num(u), Num(v)]) + [w] == [w];
    assert EvalStep(lib, b, rpn[0], none) == Ok([Num(u)]);
    assert EvalStep(lib, b, rpn[1], [Num(u)]) == Ok([Num(u), Num(v)]);
    assert EvalStep(lib, b, rpn[2], [Num(u), Num(v)]) == Ok([ApplyOperator(lib, op, Num(u), Num(v)).value]);
    assert rpn[1..][1..][1..] == [];
    assert EvalFrom(lib, b, rpn[1..][1..], [Num(u), Num(v)]) == Ok([w]);
    assert EvalFrom(lib, b, rpn[1..], [Num(u)]) == Ok([w]);
    assert EvalFrom(lib, b, rpn, none) == Ok([w]);
  }

  /** `5 3 -` is 2 and `2 3 ^` is `pow(2, 3)`. */
  lemma SubtractAndPower(lib: MathLib, b: Binding)
    ensures Evaluate(lib, b, [NumberTok(5.0), NumberTok(3.0), OperatorToken("-")]) == Ok(Num(2.0))
    ensures Evaluate(lib, b, [NumberTok(2.0), NumberTok(3.0), OperatorToken("^")]) == Ok(lib.pow(Num(2.0), Num(3.0)))
  {
    BinaryProgram(lib, b, 5.0, 3.0, "-");
    BinaryProgram(lib, b, 2.0, 3.0, "^");
  }

  /** `q 1 +` with an empty environment is 1: an unbound variable is 0. */
  lemma UnboundVariableIsZero(lib: MathLib)
    ensures Evaluate(lib, Env(map[]), [MakeToken(Variable, "q"), NumberTok(1.0), OperatorToken("+")]) == Ok(Num(1.0))
  {
    var rpn := [MakeToken(Variable, "q"), NumberTok(1.0), OperatorToken("+")];
    var none: seq<Double> := [];
    assert none + [Num(0.0)] == [Num(0.0)] && [Num(0.0)] + [Num(1.0)] == [Num(0.0), Num(1.0)];
    assert Pop2([Num(0.0), Num(1.0)]) + [Num(1.0)] == [Num(1.0)];
    assert EvalStep(lib, Env(map[]), rpn[0], none) == Ok([Num(0.0)]);
    assert EvalStep(lib, Env(map[]), rpn[1], [Num(0.0)]) == Ok([Num(0.0), Num(1.0)]);
    assert EvalStep(lib, Env(map[]), rpn[2], [Num(0.0), Num(1.0)]) == Ok([Num(1.0)]);
    assert rpn[1..][1..][1..] == [];
  }

  /** An empty program, and a program leaving two values, both throw "Invalid evaluation". */
  lemma FinalSizeMustBeOne(lib: MathLib, b: Binding, u: real, v: real)
    ensures Evaluate(lib, b, []) == Err(InvalidEvaluation)
    ensures Evaluate(lib, b, [NumberTok(u), NumberTok(v)]) == Err(InvalidEvaluation)
  {
    var rpn := [NumberTok(u), NumberTok(v)];
    var none: seq<Double> := [];
    assert none + [Num(u)] == [Num(u)] && [Num(u)] + [Num(v)] == [Num(u), Num(v)];
    assert EvalStep(lib, b, rpn[0], none) == Ok([Num(u)]);
    assert EvalStep(lib, b, rpn[1], [Num(u)]) == Ok([Num(u), Num(v)]);
    assert rpn[1..][1..] == [];
    assert EvalFrom(lib, b, rpn[1..], [Num(u)]) == Ok([Num(u), Num(v)]);
    assert EvalFrom(lib, b, rpn, none) == Ok([Num(u), Num(v)]);
  }
}
