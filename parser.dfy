/**
 * The shunting-yard parser: `shuntingYard` turns the tokenizer's infix token
 * sequence into postfix (RPN) order with an operator stack, and throws
 * "Mismatched parentheses" on an unmatched `)` or a `(` left on the stack.
 *
 * The stack is a sequence whose last element is the top. `ShuntFrom` is the
 * `for` loop over the tokens written as a recursive function, `PopOperators`,
 * `PopToParen` and `Drain` are its inner `while` loops; the method
 * `ShuntingYard` is proved to compute `Postfix`.
 */
module Parser {
  import opened Wrappers
  import opened Tokens

  datatype ParseError = MismatchedParentheses

  function Top(st: seq<Token>): Token
    requires st != []
  {
    st[|st| - 1]
  }

  function Pop(st: seq<Token>): seq<Token>
    requires st != []
  {
    st[..|st| - 1]
  }

  /**
   * Whether an incoming operator `t` pops `top` off the stack: every Function
   * is popped; an Operator is popped when it binds tighter, or equally tight
   * and `t` is left-associative.
   */
  predicate PopsBefore(t: Token, top: Token) {
    && (top.kind == Operator || top.kind == Function)
    && (top.kind == Function || (if t.rightAssociative then t.precedence < top.precedence else t.precedence <= top.precedence))
  }

  /** The `while` loop of the Operator case: pop to the output while `PopsBefore`. */
  function PopOperators(t: Token, out: seq<Token>, st: seq<Token>): (seq<Token>, seq<Token>)
    decreases |st|
  {
    if st != [] && PopsBefore(t, Top(st)) then PopOperators(t, out + [Top(st)], Pop(st)) else (out, st)
  }

  /** The `while` loop of the Comma and RightParen cases: pop to the output down to the nearest `(`. */
  function PopToParen(out: seq<Token>, st: seq<Token>): (seq<Token>, seq<Token>)
    decreases |st|
  {
    if st != [] && Top(st).kind != LeftParen then PopToParen(out + [Top(st)], Pop(st)) else (out, st)
  }

  /** The final `while` loop: pop everything to the output; a parenthesis on the stack is an error. */
  function Drain(out: seq<Token>, st: seq<Token>): Result<seq<Token>, ParseError>
    decreases |st|
  {
    if st == [] then Ok(out)
    else if Top(st).kind == LeftParen || Top(st).kind == RightParen then Err(MismatchedParentheses)
    else Drain(out + [Top(st)], Pop(st))
  }

  /** One iteration of the `for` loop: the output and stack after token `t`, or the error. */
  function ShuntStep(t: Token, out: seq<Token>, st: seq<Token>): Result<(seq<Token>, seq<Token>), ParseError> {
    match t.kind
    case Number => Ok((out + [t], st))
    case Variable => Ok((out + [t], st))
    case Function => Ok((out, st + [t]))
    case Operator =>
      var (o, s) := PopOperators(t, out, st);
      Ok((o, s + [t]))
    case Comma => Ok(PopToParen(out, st))
    case LeftParen => Ok((out, st + [t]))
    case RightParen =>
      var (o, s) := PopToParen(out, st);
      if s == [] then Err(MismatchedParentheses)
      else
        var s' := Pop(s);
        if s' != [] && Top(s').kind == Function then Ok((o + [Top(s')], Pop(s')))
        else Ok((o, s'))
    case End => Ok((out, st))
    case Invalid => Ok((out, st))
  }

  /** The `for` loop over the remaining tokens `ts`, with the output and stack built so far, then the final drain. */
  function ShuntFrom(ts: seq<Token>, out: seq<Token>, st: seq<Token>): Result<seq<Token>, ParseError>
    decreases |ts|
  {
    if ts == [] then Drain(out, st)
    else
      match ShuntStep(ts[0], out, st)
      case Err(e) => Err(e)
      case Ok((o, s)) => ShuntFrom(ts[1..], o, s)
  }

  /** What `shuntingYard(tokens)` returns, or the error it throws. */
  function Postfix(tokens: seq<Token>): Result<seq<Token>, ParseError> {
    ShuntFrom(tokens, [], [])
  }

  /** The `while` loop of the Operator case. */
  method PopOperatorsLoop(t: Token, out: seq<Token>, st: seq<Token>) returns (output: seq<Token>, opstack: seq<Token>)
    ensures (output, opstack) == PopOperators(t, out, st)
  {
    output, opstack := out, st;
    while opstack != [] && (Top(opstack).kind == Operator || Top(opstack).kind == Function)
      invariant PopOperators(t, output, opstack) == PopOperators(t, out, st)
    {
      var top := Top(opstack);
      var higher := if t.rightAssociative then t.precedence < top.precedence else t.precedence <= top.precedence;
      if top.kind == Function || higher {
        output := output + [top];
        opstack := Pop(opstack);
      } else {
        break;
      }
    }
  }

  /** The `while` loop of the Comma and RightParen cases. */
  method PopToParenLoop(out: seq<Token>, st: seq<Token>) returns (output: seq<Token>, opstack: seq<Token>)
    ensures (output, opstack) == PopToParen(out, st)
  {
    output, opstack := out, st;
    while opstack != [] && Top(opstack).kind != LeftParen
      invariant PopToParen(output, opstack) == PopToParen(out, st)
    {
      output := output + [Top(opstack)];
      opstack := Pop(opstack);
    }
  }

  /** `shuntingYard`. */
  method ShuntingYard(tokens: seq<Token>) returns (r: Result<seq<Token>, ParseError>)
    ensures r == Postfix(tokens)
  {
    var output: seq<Token> := [];
    var opstack: seq<Token> := [];
    for n := 0 to |tokens|
      invariant ShuntFrom(tokens[n..], output, opstack) == Postfix(tokens)
    {
      var t := tokens[n];
      assert tokens[n..][0] == t && tokens[n..][1..] == tokens[n + 1..];
      ghost var out0, st0 := output, opstack;
      match t.kind {
        case Number =>
          output := output + [t];
        case Variable =>
          output := output + [t];
        case Function =>
          opstack := opstack + [t];
        case Operator =>
          output, opstack := PopOperatorsLoop(t, output, opstack);
          opstack := opstack + [t];
        case Comma =>
          output, opstack := PopToParenLoop(output, opstack);
        case LeftParen =>
          opstack := opstack + [t];
        case RightParen =>
          output, opstack := PopToParenLoop(output, opstack);
          if opstack == [] {
            assert ShuntStep(t, out0, st0) == Err(MismatchedParentheses);
            return Err(MismatchedParentheses);
          }
          opstack := Pop(opstack);
          if opstack != [] && Top(opstack).kind == Function {
            output := output + [Top(opstack)];
            opstack := Pop(opstack);
          }
        case End =>
        case Invalid =>
      }
      assert ShuntStep(t, out0, st0) == Ok((output, opstack));
    }
    while opstack != []
      invariant Drain(output, opstack) == Postfix(tokens)
    {
      if Top(opstack).kind == LeftParen || Top(opstack).kind == RightParen {
        return Err(MismatchedParentheses);
      }
      output := output + [Top(opstack)];
      opstack := Pop(opstack);
    }
    r := Ok(output);
  }

  // ---------------------------------------------------------------------------
  // Properties of the conversion
  // ---------------------------------------------------------------------------

  /** The four filters the properties use. */
  datatype Kinds = OperandKinds | EmittedKinds | OpenKinds | StackKinds

  /** Which token kinds each filter keeps. */
  predicate Selects(f: Kinds, k: TokenType) {
    match f
    case OperandKinds => k == Number || k == Variable
    case EmittedKinds => k == Number || k == Variable || k == Operator || k == Function
    case OpenKinds => k == LeftParen
    case StackKinds => k == Operator || k == Function || k == LeftParen
  }

  /** The tokens of `s` whose kind the filter `f` keeps, in order. */
  function Keep(s: seq<Token>, f: Kinds): (r: seq<Token>)
    ensures |r| <= |s|
    decreases |s|
  {
    if s == [] then []
    else Keep(Pop(s), f) + (if Selects(f, Top(s).kind) then [Top(s)] else [])
  }

  /** The numbers and variables of `s`, in order. */
  function Operands(s: seq<Token>): seq<Token> {
    Keep(s, OperandKinds)
  }

  /** The tokens of `s` that can appear in the parser's output. */
  function Emitted(s: seq<Token>): seq<Token> {
    Keep(s, EmittedKinds)
  }

  /** The number of `(` in `s`. */
  function OpenCount(s: seq<Token>): nat {
    |Keep(s, OpenKinds)|
  }

  /** What the operator stack can hold: operators, functions and `(`. */
  predicate StackOk(st: seq<Token>) {
    Keep(st, StackKinds) == st
  }

  predicate AllEmitted(s: seq<Token>) {
    Emitted(s) == s
  }

  /**
   * Parenthesis balance by depth counting, independently of the parser:
   * reading left to right from depth `d`, a `)` never finds depth 0 and the
   * depth ends at 0.
   */
  function BalancedFrom(ts: seq<Token>, d: nat): bool
    decreases |ts|
  {
    if ts == [] then d == 0
    else if ts[0].kind == LeftParen then BalancedFrom(ts[1..], d + 1)
    else if ts[0].kind == RightParen then d > 0 && BalancedFrom(ts[1..], d - 1)
    else BalancedFrom(ts[1..], d)
  }

  predicate Balanced(ts: seq<Token>) {
    BalancedFrom(ts, 0)
  }

  lemma {:induction false} KeepConcat(a: seq<Token>, b: seq<Token>, f: Kinds)
    ensures Keep(a + b, f) == Keep(a, f) + Keep(b, f)
    decreases |b|
  {
    if b == [] {
      assert a + b == a;
    } else {
      assert Pop(a + b) == a + Pop(b);
      assert Top(a + b) == Top(b);
      KeepConcat(a, Pop(b), f);
    }
  }

  /** Appending one token appends it to every filter that keeps its kind. */
  lemma KeepSnoc(s: seq<Token>, t: Token, f: Kinds)
    ensures Keep(s + [t], f) == Keep(s, f) + (if Selects(f, t.kind) then [t] else [])
  {
    assert Pop(s + [t]) == s;
  }

  lemma KeepOne(t: Token, f: Kinds)
    ensures Keep([t], f) == if Selects(f, t.kind) then [t] else []
  {
    KeepSnoc([], t, f);
    assert [] + [t] == [t];
  }

  lemma KeepFront(ts: seq<Token>, f: Kinds)
    requires ts != []
    ensures Keep(ts, f) == Keep([ts[0]], f) + Keep(ts[1..], f)
  {
    assert ts == [ts[0]] + ts[1..];
    KeepConcat([ts[0]], ts[1..], f);
  }

  /**
   * The output `o` and stack `s` keep what `out` and `st` held plus the
   * tokens `extra`: the operands in order, the emitted tokens as a multiset,
   * and an output made only of emitted kinds.
   */
  predicate Conserved(out: seq<Token>, st: seq<Token>, extra: seq<Token>, o: seq<Token>, s: seq<Token>, x: Token) {
    && StackOk(s)
    && KeepsOperands(out, extra, o)
    && KeepsCount(out, st, extra, o, s, x)
    && KeepsKinds(out, o)
  }

  predicate KeepsOperands(out: seq<Token>, extra: seq<Token>, o: seq<Token>) {
    Operands(o) == Operands(out) + Operands(extra)
  }

  /** The multiplicity of `x` in the output and the stack's emitted tokens. */
  predicate KeepsCount(out: seq<Token>, st: seq<Token>, extra: seq<Token>, o: seq<Token>, s: seq<Token>, x: Token) {
    multiset(o)[x] + multiset(Emitted(s))[x] == multiset(out)[x] + multiset(Emitted(st))[x] + multiset(Emitted(extra))[x]
  }

  predicate KeepsKinds(out: seq<Token>, o: seq<Token>) {
    AllEmitted(out) ==> AllEmitted(o)
  }

  /** Moving the stack's top, an operator or function, to the output. */
  lemma MoveTop(out: seq<Token>, st: seq<Token>, x: Token)
    requires st != [] && StackOk(st) && Top(st).kind != LeftParen
    ensures OpenCount(Pop(st)) == OpenCount(st)
    ensures Conserved(out, st, [], out + [Top(st)], Pop(st), x)
  {
    var t := Top(st);
    assert st == Pop(st) + [t];
    assert OpenCount(Pop(st)) == OpenCount(st) by {
      KeepSnoc(Pop(st), t, OpenKinds);
    }
    assert Operands(out + [t]) == Operands(out) by {
      KeepSnoc(out, t, OperandKinds);
    }
    assert Emitted(st) == Emitted(Pop(st)) + [t] by {
      KeepSnoc(Pop(st), t, EmittedKinds);
    }
    assert Operands([]) == [] && Emitted([]) == [];
  }

  /** Transitivity of `Conserved`: two moves in a row keep the extra tokens of both. */
  lemma ConservedTrans(out: seq<Token>, st: seq<Token>, e1: seq<Token>, o1: seq<Token>, s1: seq<Token>, e2: seq<Token>, o2: seq<Token>, s2: seq<Token>, e: seq<Token>, x: Token)
    requires Conserved(out, st, e1, o1, s1, x) && Conserved(o1, s1, e2, o2, s2, x) && e == e1 + e2
    ensures Conserved(out, st, e, o2, s2, x)
  {
    TransOperands(out, e1, o1, e2, o2);
    TransCount(out, st, e1, o1, s1, e2, o2, s2, x);
  }

  lemma TransOperands(out: seq<Token>, e1: seq<Token>, o1: seq<Token>, e2: seq<Token>, o2: seq<Token>)
    requires KeepsOperands(out, e1, o1) && KeepsOperands(o1, e2, o2)
    ensures KeepsOperands(out, e1 + e2, o2)
  {
    KeepConcat(e1, e2, OperandKinds);
  }

  lemma TransCount(out: seq<Token>, st: seq<Token>, e1: seq<Token>, o1: seq<Token>, s1: seq<Token>, e2: seq<Token>, o2: seq<Token>, s2: seq<Token>, x: Token)
    requires KeepsCount(out, st, e1, o1, s1, x) && KeepsCount(o1, s1, e2, o2, s2, x)
    ensures KeepsCount(out, st, e1 + e2, o2, s2, x)
  {
    KeepConcat(e1, e2, EmittedKinds);
  }

  lemma ConservedRefl(out: seq<Token>, st: seq<Token>, x: Token)
    requires StackOk(st)
    ensures Conserved(out, st, [], out, st, x)
  {
    assert Operands([]) == [] && Emitted([]) == [];
  }

  lemma {:induction false} PopOperatorsFacts(t: Token, out: seq<Token>, st: seq<Token>, x: Token)
    requires StackOk(st)
    ensures var (o, s) := PopOperators(t, out, st);
      OpenCount(s) == OpenCount(st) && Conserved(out, st, [], o, s, x)
    decreases |st|
  {
    if st != [] && PopsBefore(t, Top(st)) {
      MoveTop(out, st, x);
      PopOperatorsFacts(t, out + [Top(st)], Pop(st), x);
      var (o, s) := PopOperators(t, out + [Top(st)], Pop(st));
      assert PopOperators(t, out, st) == (o, s);
      var none: seq<Token> := [];
      ConservedTrans(out, st, [], out + [Top(st)], Pop(st), [], o, s, none, x);
    } else {
      ConservedRefl(out, st, x);
    }
  }

  /** A `(` on top of the stack is counted. */
  lemma TopOpen(st: seq<Token>)
    requires st != [] && Top(st).kind == LeftParen
    ensures OpenCount(st) == OpenCount(Pop(st)) + 1
  {
    assert st == Pop(st) + [Top(st)];
    KeepSnoc(Pop(st), Top(st), OpenKinds);
  }

  /** Where the Comma and RightParen loop stops: at the nearest `(`, or on an empty stack when there is none. */
  lemma {:induction false} PopToParenShape(out: seq<Token>, st: seq<Token>)
    requires StackOk(st)
    ensures var (o, s) := PopToParen(out, st);
      && OpenCount(s) == OpenCount(st)
      && (s == [] <==> OpenCount(st) == 0)
      && (s != [] ==> Top(s).kind == LeftParen)
    decreases |st|
  {
    if st != [] && Top(st).kind != LeftParen {
      MoveTop(out, st, DefaultToken());
      PopToParenShape(out + [Top(st)], Pop(st));
    } else if st != [] {
      TopOpen(st);
    }
  }

  lemma {:induction false} PopToParenFacts(out: seq<Token>, st: seq<Token>, x: Token)
    requires StackOk(st)
    ensures var (o, s) := PopToParen(out, st);
      && OpenCount(s) == OpenCount(st)
      && (s == [] <==> OpenCount(st) == 0)
      && (s != [] ==> Top(s).kind == LeftParen)
      && Conserved(out, st, [], o, s, x)
  {
    PopToParenShape(out, st);
    PopToParenConserved(out, st, PopToParen(out, st).0, PopToParen(out, st).1, x);
  }

  lemma {:induction false} PopToParenConserved(out: seq<Token>, st: seq<Token>, o: seq<Token>, s: seq<Token>, x: Token)
    requires StackOk(st) && PopToParen(out, st) == (o, s)
    ensures Conserved(out, st, [], o, s, x)
    decreases |st|
  {
    if st != [] && Top(st).kind != LeftParen {
      MoveTop(out, st, x);
      PopToParenConserved(out + [Top(st)], Pop(st), o, s, x);
      var none: seq<Token> := [];
      ConservedTrans(out, st, [], out + [Top(st)], Pop(st), [], o, s, none, x);
    } else {
      ConservedRefl(out, st, x);
    }
  }

  /** The final loop fails exactly when a `(` is left on the stack. */
  lemma {:induction false} DrainBalance(out: seq<Token>, st: seq<Token>)
    requires StackOk(st)
    ensures Drain(out, st).Ok? <==> OpenCount(st) == 0
    decreases |st|
  {
    if st == [] {
    } else if Top(st).kind == LeftParen {
      TopOpen(st);
    } else {
      MoveTop(out, st, DefaultToken());
      DrainBalance(out + [Top(st)], Pop(st));
    }
  }

  lemma {:induction false} DrainFacts(out: seq<Token>, st: seq<Token>, x: Token)
    requires StackOk(st) && Drain(out, st).Ok?
    ensures Conserved(out, st, [], Drain(out, st).value, [], x)
    decreases |st|
  {
    if st == [] {
      ConservedRefl(out, st, x);
    } else {
      MoveTop(out, st, x);
      DrainFacts(out + [Top(st)], Pop(st), x);
      var none: seq<Token> := [];
      ConservedTrans(out, st, [], out + [Top(st)], Pop(st), [], Drain(out, st).value, [], none, x);
    }
  }

  lemma StepOperand(t: Token, out: seq<Token>, st: seq<Token>, x: Token)
    requires StackOk(st) && Selects(OperandKinds, t.kind)
    ensures ShuntStep(t, out, st) == Ok((out + [t], st))
    ensures Conserved(out, st, [t], out + [t], st, x)
  {
    assert Operands(out + [t]) == Operands(out) + Operands([t]) by {
      KeepSnoc(out, t, OperandKinds);
      KeepOne(t, OperandKinds);
    }
    assert Emitted([t]) == [t] by {
      KeepOne(t, EmittedKinds);
    }
  }

  lemma PushStackOk(s: seq<Token>, t: Token)
    requires StackOk(s) && Selects(StackKinds, t.kind)
    ensures StackOk(s + [t])
  {
    KeepSnoc(s, t, StackKinds);
  }

  lemma PushOperands(out: seq<Token>, o: seq<Token>, t: Token)
    requires Selects(StackKinds, t.kind)
    requires Operands(o) == Operands(out) + Operands([])
    ensures Operands(o) == Operands(out) + Operands([t])
  {
    KeepOne(t, OperandKinds);
    assert Operands([]) == [];
  }

  lemma PushEmitted(out: seq<Token>, st: seq<Token>, o: seq<Token>, s: seq<Token>, t: Token, x: Token)
    requires multiset(o)[x] + multiset(Emitted(s))[x] == multiset(out)[x] + multiset(Emitted(st))[x] + multiset(Emitted([]))[x]
    ensures multiset(o)[x] + multiset(Emitted(s + [t]))[x] == multiset(out)[x] + multiset(Emitted(st))[x] + multiset(Emitted([t]))[x]
  {
    assert Emitted([]) == [];
    KeepSnoc(s, t, EmittedKinds);
    KeepOne(t, EmittedKinds);
    assert Emitted(s + [t]) == Emitted(s) + Emitted([t]);
  }

  lemma PushOpen(s: seq<Token>, t: Token)
    ensures OpenCount(s + [t]) == if t.kind == LeftParen then OpenCount(s) + 1 else OpenCount(s)
  {
    KeepSnoc(s, t, OpenKinds);
  }

  /** Pushing an operator, function or `(` onto the stack keeps it in the emitted multiset. */
  lemma PushKept(out: seq<Token>, st: seq<Token>, o: seq<Token>, s: seq<Token>, t: Token, x: Token)
    requires Conserved(out, st, [], o, s, x) && Selects(StackKinds, t.kind)
    ensures Conserved(out, st, [t], o, s + [t], x)
    ensures OpenCount(s + [t]) == if t.kind == LeftParen then OpenCount(s) + 1 else OpenCount(s)
  {
    PushOpen(s, t);
    PushStackOk(s, t);
    PushOperands(out, o, t);
    PushEmitted(out, st, o, s, t, x);
  }

  lemma StepPush(t: Token, out: seq<Token>, st: seq<Token>, x: Token)
    requires StackOk(st) && (t.kind == Function || t.kind == LeftParen)
    ensures ShuntStep(t, out, st) == Ok((out, st + [t]))
    ensures OpenCount(st + [t]) == if t.kind == LeftParen then OpenCount(st) + 1 else OpenCount(st)
    ensures Conserved(out, st, [t], out, st + [t], x)
  {
    ConservedRefl(out, st, x);
    PushKept(out, st, out, st, t, x);
  }

  lemma StepOperator(t: Token, out: seq<Token>, st: seq<Token>, x: Token)
    requires StackOk(st) && t.kind == Operator
    ensures ShuntStep(t, out, st).Ok?
    ensures var (o, s) := ShuntStep(t, out, st).value;
      OpenCount(s) == OpenCount(st) && Conserved(out, st, [t], o, s, x)
  {
    PopOperatorsFacts(t, out, st, x);
    var (o, s) := PopOperators(t, out, st);
    PushKept(out, st, o, s, t, x);
    assert ShuntStep(t, out, st) == Ok((o, s + [t]));
  }

  lemma StepComma(t: Token, out: seq<Token>, st: seq<Token>, x: Token)
    requires StackOk(st) && t.kind == Comma
    ensures ShuntStep(t, out, st).Ok?
    ensures var (o, s) := ShuntStep(t, out, st).value;
      OpenCount(s) == OpenCount(st) && Conserved(out, st, [t], o, s, x)
  {
    PopToParenFacts(out, st, x);
    assert Operands([t]) == [] && Emitted([t]) == [] by {
      KeepOne(t, OperandKinds);
      KeepOne(t, EmittedKinds);
    }
  }

  /** Dropping the `(` on top of the stack when a `)` arrives. */
  lemma DropParen(out: seq<Token>, st: seq<Token>, o: seq<Token>, s: seq<Token>, t: Token, x: Token)
    requires Conserved(out, st, [], o, s, x) && s != [] && Top(s).kind == LeftParen && t.kind == RightParen
    ensures Conserved(out, st, [t], o, Pop(s), x)
    ensures OpenCount(Pop(s)) == OpenCount(s) - 1
  {
    assert s == Pop(s) + [Top(s)];
    KeepSnoc(Pop(s), Top(s), OpenKinds);
    KeepSnoc(Pop(s), Top(s), StackKinds);
    DropParenEmitted(out, st, o, s, t, x);
    KeepOne(t, OperandKinds);
  }

  lemma DropParenEmitted(out: seq<Token>, st: seq<Token>, o: seq<Token>, s: seq<Token>, t: Token, x: Token)
    requires s != [] && Top(s).kind == LeftParen && t.kind == RightParen
    requires multiset(o)[x] + multiset(Emitted(s))[x] == multiset(out)[x] + multiset(Emitted(st))[x] + multiset(Emitted([]))[x]
    ensures multiset(o)[x] + multiset(Emitted(Pop(s)))[x] == multiset(out)[x] + multiset(Emitted(st))[x] + multiset(Emitted([t]))[x]
  {
    assert Emitted(s) == Emitted(Pop(s)) by {
      assert s == Pop(s) + [Top(s)];
      KeepSnoc(Pop(s), Top(s), EmittedKinds);
    }
    assert Emitted([t]) == Emitted([]) by {
      KeepOne(t, EmittedKinds);
    }
  }

  /** After the `(` is dropped, moving the function in front of it to the output. */
  lemma PopCallee(out: seq<Token>, st: seq<Token>, t: Token, o: seq<Token>, s: seq<Token>, x: Token)
    requires Conserved(out, st, [t], o, s, x) && s != [] && Top(s).kind == Function
    ensures Conserved(out, st, [t], o + [Top(s)], Pop(s), x)
    ensures OpenCount(Pop(s)) == OpenCount(s)
  {
    MoveTop(o, s, x);
    ConservedTrans(out, st, [t], o, s, [], o + [Top(s)], Pop(s), [t], x);
  }

  lemma StepRightParen(t: Token, out: seq<Token>, st: seq<Token>, x: Token)
    requires StackOk(st) && t.kind == RightParen
    ensures ShuntStep(t, out, st).Ok? <==> OpenCount(st) > 0
    ensures ShuntStep(t, out, st).Ok? ==> var (o, s) := ShuntStep(t, out, st).value;
      OpenCount(s) == OpenCount(st) - 1 && Conserved(out, st, [t], o, s, x)
  {
    PopToParenFacts(out, st, x);
    var (o, s) := PopToParen(out, st);
    if s == [] {
      assert ShuntStep(t, out, st) == Err(MismatchedParentheses);
    } else {
      DropParen(out, st, o, s, t, x);
      var s' := Pop(s);
      if s' != [] && Top(s').kind == Function {
        PopCallee(out, st, t, o, s', x);
        assert ShuntStep(t, out, st) == Ok((o + [Top(s')], Pop(s')));
      } else {
        assert ShuntStep(t, out, st) == Ok((o, s'));
      }
    }
  }

  lemma StepSkip(t: Token, out: seq<Token>, st: seq<Token>, x: Token)
    requires StackOk(st) && (t.kind == End || t.kind == Invalid)
    ensures ShuntStep(t, out, st) == Ok((out, st))
    ensures Conserved(out, st, [t], out, st, x)
  {
    assert Operands([t]) == [] && Emitted([t]) == [] by {
      KeepOne(t, OperandKinds);
      KeepOne(t, EmittedKinds);
    }
  }

  /** What one token does to the balance, the operands, the emitted multiset and the output kinds. */
  lemma ShuntStepFacts(t: Token, out: seq<Token>, st: seq<Token>, x: Token)
    requires StackOk(st)
    ensures ShuntStep(t, out, st).Ok? <==> (t.kind == RightParen ==> OpenCount(st) > 0)
    ensures ShuntStep(t, out, st).Ok? ==> var (o, s) := ShuntStep(t, out, st).value;
      && OpenCount(s) == (if t.kind == LeftParen then OpenCount(st) + 1
                          else if t.kind == RightParen then OpenCount(st) - 1
                          else OpenCount(st))
      && Conserved(out, st, [t], o, s, x)
  {
    match t.kind
    case Number => StepOperand(t, out, st, x);
    case Variable => StepOperand(t, out, st, x);
    case Function => StepPush(t, out, st, x);
    case LeftParen => StepPush(t, out, st, x);
    case Operator => StepOperator(t, out, st, x);
    case Comma => StepComma(t, out, st, x);
    case RightParen => StepRightParen(t, out, st, x);
    case End => StepSkip(t, out, st, x);
    case Invalid => StepSkip(t, out, st, x);
  }

  /** The part of `Conserved` about operands, for one token. */
  lemma StepOperands(t: Token, out: seq<Token>, st: seq<Token>, o: seq<Token>, s: seq<Token>)
    requires StackOk(st) && ShuntStep(t, out, st) == Ok((o, s))
    ensures StackOk(s) && KeepsOperands(out, [t], o)
  {
    ShuntStepFacts(t, out, st, t);
  }

  /** The part of `Conserved` about the multiplicity of `x`, for one token. */
  lemma StepCount(t: Token, out: seq<Token>, st: seq<Token>, o: seq<Token>, s: seq<Token>, x: Token)
    requires StackOk(st) && ShuntStep(t, out, st) == Ok((o, s))
    ensures StackOk(s) && KeepsCount(out, st, [t], o, s, x)
  {
    ShuntStepFacts(t, out, st, x);
  }

  /** The part of `Conserved` about the output kinds, for one token. */
  lemma StepKinds(t: Token, out: seq<Token>, st: seq<Token>, o: seq<Token>, s: seq<Token>)
    requires StackOk(st) && ShuntStep(t, out, st) == Ok((o, s))
    ensures StackOk(s) && KeepsKinds(out, o)
  {
    ShuntStepFacts(t, out, st, t);
  }

  /** The `for` loop succeeds exactly when the remaining tokens balance the `(` on the stack. */
  lemma {:induction false} ShuntBalance(ts: seq<Token>, out: seq<Token>, st: seq<Token>)
    requires StackOk(st)
    ensures ShuntFrom(ts, out, st).Ok? <==> BalancedFrom(ts, OpenCount(st))
    decreases |ts|
  {
    if ts == [] {
      DrainBalance(out, st);
    } else {
      ShuntStepFacts(ts[0], out, st, DefaultToken());
      if ShuntStep(ts[0], out, st).Ok? {
        var (o, s) := ShuntStep(ts[0], out, st).value;
        ShuntBalance(ts[1..], o, s);
      }
    }
  }

  /** On success the `for` loop keeps the numbers and variables in order. */
  lemma {:induction false} ShuntOperands(ts: seq<Token>, out: seq<Token>, st: seq<Token>)
    requires StackOk(st) && ShuntFrom(ts, out, st).Ok?
    ensures KeepsOperands(out, ts, ShuntFrom(ts, out, st).value)
    decreases |ts|
  {
    if ts == [] {
      DrainFacts(out, st, DefaultToken());
    } else {
      var (o, s) := ShuntStep(ts[0], out, st).value;
      StepOperands(ts[0], out, st, o, s);
      ShuntOperands(ts[1..], o, s);
      assert ts == [ts[0]] + ts[1..];
      TransOperands(out, [ts[0]], o, ts[1..], ShuntFrom(ts, out, st).value);
    }
  }

  /** On success the `for` loop keeps the multiplicity of every emitted token. */
  lemma {:induction false} ShuntCount(ts: seq<Token>, out: seq<Token>, st: seq<Token>, x: Token)
    requires StackOk(st) && ShuntFrom(ts, out, st).Ok?
    ensures KeepsCount(out, st, ts, ShuntFrom(ts, out, st).value, [], x)
    decreases |ts|
  {
    if ts == [] {
      DrainFacts(out, st, x);
    } else {
      var (o, s) := ShuntStep(ts[0], out, st).value;
      StepCount(ts[0], out, st, o, s, x);
      ShuntCount(ts[1..], o, s, x);
      assert ts == [ts[0]] + ts[1..];
      TransCount(out, st, [ts[0]], o, s, ts[1..], ShuntFrom(ts, out, st).value, [], x);
    }
  }

  /** On success the `for` loop emits only numbers, variables, operators and functions. */
  lemma {:induction false} ShuntKinds(ts: seq<Token>, out: seq<Token>, st: seq<Token>)
    requires StackOk(st) && ShuntFrom(ts, out, st).Ok?
    ensures KeepsKinds(out, ShuntFrom(ts, out, st).value)
    decreases |ts|
  {
    if ts == [] {
      DrainFacts(out, st, DefaultToken());
    } else {
      var (o, s) := ShuntStep(ts[0], out, st).value;
      StepKinds(ts[0], out, st, o, s);
      ShuntKinds(ts[1..], o, s);
    }
  }

  /** `shuntingYard` throws exactly when the parentheses of its input are unbalanced. */
  lemma ParensMatchedIff(tokens: seq<Token>)
    ensures Postfix(tokens).Ok? <==> Balanced(tokens)
  {
    ShuntBalance(tokens, [], []);
  }

  /** Numbers and variables reach the output in their input order, and nothing else does. */
  lemma OperandOrderKept(tokens: seq<Token>)
    requires Postfix(tokens).Ok?
    ensures Operands(Postfix(tokens).value) == Operands(tokens)
  {
    ShuntOperands(tokens, [], []);
    assert Operands([]) == [];
  }

  /**
   * The output is a rearrangement of the input's numbers, variables, operators
   * and functions: parentheses, commas, End and Invalid tokens are dropped and
   * nothing else is lost or added.
   */
  lemma OutputIsPermutation(tokens: seq<Token>)
    requires Postfix(tokens).Ok?
    ensures multiset(Postfix(tokens).value) == multiset(Emitted(tokens))
    ensures |Postfix(tokens).value| == |Emitted(tokens)|
  {
    var r := Postfix(tokens).value;
    forall x: Token
      ensures multiset(r)[x] == multiset(Emitted(tokens))[x]
    {
      ShuntCount(tokens, [], [], x);
      assert Emitted([]) == [];
    }
    assert multiset(r) == multiset(Emitted(tokens));
    assert |multiset(r)| == |multiset(Emitted(tokens))|;
  }

  /** The output holds only numbers, variables, operators and functions. */
  lemma OutputKinds(tokens: seq<Token>)
    requires Postfix(tokens).Ok?
    ensures AllEmitted(Postfix(tokens).value)
  {
    ShuntKinds(tokens, [], []);
  }

  // ---------------------------------------------------------------------------
  // Precedence and associativity
  // ---------------------------------------------------------------------------

  predicate IsOperand(t: Token) {
    t.kind == Number || t.kind == Variable
  }

  /** The first three tokens of `a op1 b op2 c`: both operands out, `op1` on the stack. */
  lemma FirstOperator(a: Token, op1: Token, b: Token, op2: Token, c: Token)
    requires IsOperand(a) && IsOperand(b) && op1.kind == Operator
    ensures Postfix([a, op1, b, op2, c]) == ShuntFrom([op2, c], [a, b], [op1])
  {
    var ts := [a, op1, b, op2, c];
    var none: seq<Token> := [];
    assert ShuntStep(a, [], []) == Ok(([a], [])) by { assert none + [a] == [a]; }
    assert ShuntStep(op1, [a], []) == Ok(([a], [op1])) by { assert none + [op1] == [op1]; }
    assert ShuntStep(b, [a], [op1]) == Ok(([a, b], [op1])) by { assert [a] + [b] == [a, b]; }
    assert ts[1..] == [op1, b, op2, c] && ts[2..] == [b, op2, c] && ts[3..] == [op2, c];
    assert ShuntFrom(ts, [], []) == ShuntFrom(ts[1..], [a], []);
    assert ShuntFrom(ts[1..], [a], []) == ShuntFrom(ts[2..], [a], [op1]);
  }

  lemma SecondOperatorPops(a: Token, op1: Token, b: Token, op2: Token, c: Token)
    requires IsOperand(c) && op1.kind == Operator && op2.kind == Operator && PopsBefore(op2, op1)
    ensures ShuntFrom([op2, c], [a, b], [op1]) == Ok([a, b, op1, c, op2])
  {
    var none: seq<Token> := [];
    assert PopOperators(op2, [a, b], [op1]) == ([a, b, op1], []) by {
      assert [a, b] + [op1] == [a, b, op1];
      assert [op1][..0] == [];
    }
    assert ShuntStep(op2, [a, b], [op1]) == Ok(([a, b, op1], [op2])) by { assert none + [op2] == [op2]; }
    assert ShuntStep(c, [a, b, op1], [op2]) == Ok(([a, b, op1, c], [op2])) by { assert [a, b, op1] + [c] == [a, b, op1, c]; }
    assert Drain([a, b, op1, c], [op2]) == Ok([a, b, op1, c, op2]) by {
      assert [a, b, op1, c] + [op2] == [a, b, op1, c, op2];
      assert [op2][..0] == [];
    }
    assert [op2, c][1..] == [c] && [c][1..] == [];
    assert ShuntFrom([op2, c], [a, b], [op1]) == ShuntFrom([c], [a, b, op1], [op2]);
  }

  lemma SecondOperatorWaits(a: Token, op1: Token, b: Token, op2: Token, c: Token)
    requires IsOperand(c) && op1.kind == Operator && op2.kind == Operator && !PopsBefore(op2, op1)
    ensures ShuntFrom([op2, c], [a, b], [op1]) == Ok([a, b, c, op2, op1])
  {
    assert PopOperators(op2, [a, b], [op1]) == ([a, b], [op1]);
    assert ShuntStep(op2, [a, b], [op1]) == Ok(([a, b], [op1, op2])) by { assert [op1] + [op2] == [op1, op2]; }
    assert ShuntStep(c, [a, b], [op1, op2]) == Ok(([a, b, c], [op1, op2])) by { assert [a, b] + [c] == [a, b, c]; }
    assert Drain([a, b, c, op2], [op1]) == Ok([a, b, c, op2, op1]) by {
      assert [a, b, c, op2] + [op1] == [a, b, c, op2, op1];
      assert [op1][..0] == [];
    }
    assert Drain([a, b, c], [op1, op2]) == Ok([a, b, c, op2, op1]) by {
      assert [a, b, c] + [op2] == [a, b, c, op2];
      assert [op1, op2][..1] == [op1];
    }
    assert [op2, c][1..] == [c] && [c][1..] == [];
    assert ShuntFrom([op2, c], [a, b], [op1]) == ShuntFrom([c], [a, b], [op1, op2]);
  }

  /**
   * `a op1 b op2 c`: the first operator is applied first exactly when the
   * incoming `op2` pops it, that is when `op1` binds tighter, or equally
   * tight with `op2` left-associative.
   */
  lemma TwoOperators(a: Token, op1: Token, b: Token, op2: Token, c: Token)
    requires IsOperand(a) && IsOperand(b) && IsOperand(c)
    requires op1.kind == Operator && op2.kind == Operator
    ensures Postfix([a, op1, b, op2, c]) ==
      if PopsBefore(op2, op1) then Ok([a, b, op1, c, op2]) else Ok([a, b, c, op2, op1])
  {
    FirstOperator(a, op1, b, op2, c);
    if PopsBefore(op2, op1) {
      SecondOperatorPops(a, op1, b, op2, c);
    } else {
      SecondOperatorWaits(a, op1, b, op2, c);
    }
  }

  /**
   * The operator table at work: `a + b * c` is `a (b * c) +`, because `*`
   * binds tighter; `a - b - c` is `(a - b) - c`, because `-` is
   * left-associative; `a ^ b ^ c` is `a ^ (b ^ c)`, because `^` is
   * right-associative.
   */
  lemma OperatorTableExamples(a: Token, b: Token, c: Token)
    requires IsOperand(a) && IsOperand(b) && IsOperand(c)
    ensures Postfix([a, OperatorToken("+"), b, OperatorToken("*"), c]) == Ok([a, b, c, OperatorToken("*"), OperatorToken("+")])
    ensures Postfix([a, OperatorToken("-"), b, OperatorToken("-"), c]) == Ok([a, b, OperatorToken("-"), c, OperatorToken("-")])
    ensures Postfix([a, OperatorToken("^"), b, OperatorToken("^"), c]) == Ok([a, b, c, OperatorToken("^"), OperatorToken("^")])
  {
    TwoOperators(a, OperatorToken("+"), b, OperatorToken("*"), c);
    TwoOperators(a, OperatorToken("-"), b, OperatorToken("-"), c);
    TwoOperators(a, OperatorToken("^"), b, OperatorToken("^"), c);
  }

  lemma FunctionAndOperand(f: Token, a: Token, op: Token, b: Token)
    requires f.kind == Function && IsOperand(a)
    ensures Postfix([f, a, op, b]) == ShuntFrom([op, b], [a], [f])
  {
    var ts := [f, a, op, b];
    var none: seq<Token> := [];
    assert ShuntStep(f, [], []) == Ok(([], [f])) by { assert none + [f] == [f]; }
    assert ShuntStep(a, [], [f]) == Ok(([a], [f])) by { assert none + [a] == [a]; }
    assert ts[1..] == [a, op, b] && ts[2..] == [op, b];
    assert ShuntFrom(ts, [], []) == ShuntFrom(ts[1..], [], [f]);
  }

  /**
   * A function token waiting on the stack is popped by any incoming operator,
   * so `f a ^ b` is `(f a) ^ b`: the tokenizer's unary minus `neg` applies
   * before `^`.
   */
  lemma FunctionBeforeOperator(f: Token, a: Token, op: Token, b: Token)
    requires f.kind == Function && IsOperand(a) && IsOperand(b) && op.kind == Operator
    ensures Postfix([f, a, op, b]) == Ok([a, f, b, op])
  {
    FunctionAndOperand(f, a, op, b);
    var none: seq<Token> := [];
    assert PopOperators(op, [a], [f]) == ([a, f], []) by {
      assert [a] + [f] == [a, f];
      assert [f][..0] == [];
    }
    assert ShuntStep(op, [a], [f]) == Ok(([a, f], [op])) by { assert none + [op] == [op]; }
    assert ShuntStep(b, [a, f], [op]) == Ok(([a, f, b], [op])) by { assert [a, f] + [b] == [a, f, b]; }
    assert Drain([a, f, b], [op]) == Ok([a, f, b, op]) by {
      assert [a, f, b] + [op] == [a, f, b, op];
      assert [op][..0] == [];
    }
    assert [op, b][1..] == [b] && [b][1..] == [];
    assert ShuntFrom([op, b], [a], [f]) == ShuntFrom([b], [a, f], [op]);
  }

  // ---------------------------------------------------------------------------
  // Function calls
  // ---------------------------------------------------------------------------

  /** The operator loop never looks below a `(`. */
  lemma {:induction false} PopOperatorsInFrame(t: Token, out: seq<Token>, st: seq<Token>, base: seq<Token>)
    requires base != [] && Top(base).kind == LeftParen
    ensures PopOperators(t, out, base + st) == (PopOperators(t, out, st).0, base + PopOperators(t, out, st).1)
    decreases |st|
  {
    if st == [] {
      assert base + st == base;
    } else {
      assert Top(base + st) == Top(st) && Pop(base + st) == base + Pop(st);
      if PopsBefore(t, Top(st)) {
        PopOperatorsInFrame(t, out + [Top(st)], Pop(st), base);
      }
    }
  }

  /** Popping to a `(` stops at the one in `base` when `st` holds none. */
  lemma {:induction false} PopToParenInFrame(out: seq<Token>, st: seq<Token>, base: seq<Token>)
    requires base != [] && Top(base).kind == LeftParen
    ensures PopToParen(out, base + st) == (PopToParen(out, st).0, base + PopToParen(out, st).1)
    decreases |st|
  {
    if st == [] {
      assert base + st == base;
    } else {
      assert Top(base + st) == Top(st) && Pop(base + st) == base + Pop(st);
      if Top(st).kind != LeftParen {
        PopToParenInFrame(out + [Top(st)], Pop(st), base);
      }
    }
  }

  /** When the drain of `st` succeeds, a `)` over `base + st` pops the same tokens and stops at base's `(`. */
  lemma {:induction false} DrainInFrame(out: seq<Token>, st: seq<Token>, base: seq<Token>)
    requires base != [] && Top(base).kind == LeftParen && Drain(out, st).Ok?
    ensures PopToParen(out, base + st) == (Drain(out, st).value, base)
    decreases |st|
  {
    if st == [] {
      assert base + st == base;
    } else {
      assert Top(base + st) == Top(st) && Pop(base + st) == base + Pop(st);
      DrainInFrame(out + [Top(st)], Pop(st), base);
    }
  }

  /** A step that succeeds on `st` does the same over `base + st`, leaving `base` untouched. */
  lemma StepInFrame(t: Token, out: seq<Token>, st: seq<Token>, base: seq<Token>)
    requires base != [] && Top(base).kind == LeftParen && ShuntStep(t, out, st).Ok?
    ensures ShuntStep(t, out, base + st) == Ok((ShuntStep(t, out, st).value.0, base + ShuntStep(t, out, st).value.1))
  {
    match t.kind
    case Number =>
    case Variable =>
    case Function => assert (base + st) + [t] == base + (st + [t]);
    case LeftParen => assert (base + st) + [t] == base + (st + [t]);
    case Operator =>
      PopOperatorsInFrame(t, out, st, base);
      var (o, s) := PopOperators(t, out, st);
      assert (base + s) + [t] == base + (s + [t]);
    case Comma => PopToParenInFrame(out, st, base);
    case RightParen =>
      PopToParenInFrame(out, st, base);
      var (o, s) := PopToParen(out, st);
      assert s != [];
      assert Pop(base + s) == base + Pop(s);
      var s' := Pop(s);
      if s' != [] {
        assert Top(base + s') == Top(s') && Pop(base + s') == base + Pop(s');
      } else {
        assert base + s' == base;
      }
    case End =>
    case Invalid =>
  }

  /** The `for` loop inside a call's parentheses, over the `f (` on the stack, then the closing `)`. */
  lemma {:induction false} CallFrame(f: Token, lp: Token, rp: Token, ts: seq<Token>, out: seq<Token>, st: seq<Token>)
    requires f.kind == Function && lp.kind == LeftParen && rp.kind == RightParen
    requires ShuntFrom(ts, out, st).Ok?
    ensures ShuntFrom(ts + [rp], out, [f, lp] + st) == Ok(ShuntFrom(ts, out, st).value + [f])
    decreases |ts|
  {
    var base := [f, lp];
    if ts == [] {
      var d := Drain(out, st).value;
      DrainInFrame(out, st, base);
      assert Pop(base) == [f] && Pop([f]) == [];
      assert ShuntStep(rp, out, base + st) == Ok((d + [f], []));
      assert [] + [rp] == [rp] && [rp][1..] == [];
    } else {
      var (o, s) := ShuntStep(ts[0], out, st).value;
      StepInFrame(ts[0], out, st, base);
      assert (ts + [rp])[0] == ts[0] && (ts + [rp])[1..] == ts[1..] + [rp];
      CallFrame(f, lp, rp, ts[1..], o, s);
    }
  }

  /**
   * A call `f ( args )` emits the function right after its arguments,
   * whatever they are, as long as they convert on their own: the `)` that
   * closes the call pops the `(` and then the function below it.
   */
  lemma CallAfterArguments(f: Token, lp: Token, args: seq<Token>, rp: Token)
    requires f.kind == Function && lp.kind == LeftParen && rp.kind == RightParen
    requires Postfix(args).Ok?
    ensures Postfix([f, lp] + args + [rp]) == Ok(Postfix(args).value + [f])
  {
    var ts := [f, lp] + args + [rp];
    var none: seq<Token> := [];
    assert ShuntStep(f, [], []) == Ok(([], [f])) by { assert none + [f] == [f]; }
    assert ShuntStep(lp, [], [f]) == Ok(([], [f, lp])) by { assert [f] + [lp] == [f, lp]; }
    assert ts[0] == f && ts[1..][0] == lp && ts[1..][1..] == args + [rp];
    assert ShuntFrom(ts, [], []) == ShuntFrom(ts[1..], [], [f]);
    assert [f, lp] + none == [f, lp];
    CallFrame(f, lp, rp, args, [], []);
  }
}
