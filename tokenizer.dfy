/**
 * The tokenizer: `tokenize` scans an expression string left to right into
 * typed tokens, folding named constants into numbers, turning a `-` that
 * cannot be binary into the function `neg`, and inserting an implicit `*`
 * between two adjacent value tokens.
 *
 * `Scan` is the loop of `tokenize` written as a recursive function (one call
 * per loop iteration); the method `Tokenize` is the loop itself and is proved
 * to compute `Lexed`. The lemmas state what every token sequence produced
 * this way satisfies.
 */
module Tokenizer {
  import opened Wrappers
  import opened Tokens

  // ---------------------------------------------------------------------
  // Character classes (the C locale's isspace, isdigit, isalpha)
  // ---------------------------------------------------------------------

  predicate IsSpace(c: char) {
    c == ' ' || c == '\t' || c == '\n' || c == '\U{0B}' || c == '\U{0C}' || c == '\r'
  }

  predicate IsDigit(c: char) { '0' <= c <= '9' }

  predicate IsAlpha(c: char) { 'a' <= c <= 'z' || 'A' <= c <= 'Z' }

  predicate IsNumberChar(c: char) { IsDigit(c) || c == '.' }

  /** `isOperatorChar`. */
  predicate IsOperatorChar(c: char) { c == '+' || c == '-' || c == '*' || c == '/' || c == '^' }

  /** A character for which no branch of the scanner applies: it becomes an Invalid token. */
  predicate Unrecognised(c: char) {
    !IsSpace(c) && !IsNumberChar(c) && !IsAlpha(c) && !IsOperatorChar(c) && c != '(' && c != ')' && c != ','
  }

  predicate AllDigits(s: string) { forall k | 0 <= k < |s| :: IsDigit(s[k]) }

  predicate AllAlpha(s: string) { forall k | 0 <= k < |s| :: IsAlpha(s[k]) }

  // ---------------------------------------------------------------------
  // Number literals and their value (std::stod on a scanned literal)
  // ---------------------------------------------------------------------

  /** A scanned number literal: digits and dots, at most one dot. */
  predicate IsLiteral(s: string) {
    && |s| > 0
    && (forall k | 0 <= k < |s| :: IsNumberChar(s[k]))
    && (forall a, b | 0 <= a < b < |s| :: !(s[a] == '.' && s[b] == '.'))
  }

  /** Index of the first dot of `s`, or `|s|` when there is none. */
  function IndexOfDot(s: string): (d: nat)
    ensures d <= |s|
    ensures d < |s| ==> s[d] == '.'
    ensures forall k | 0 <= k < d :: s[k] != '.'
  {
    if s == [] then 0 else if s[0] == '.' then 0 else 1 + IndexOfDot(s[1..])
  }

  function DigitsValue(s: string): nat
    requires AllDigits(s)
  {
    if s == [] then 0 else 10 * DigitsValue(s[..|s| - 1]) + (s[|s| - 1] as int - '0' as int)
  }

  function Pow10(n: nat): (p: nat)
    ensures p > 0
  {
    if n == 0 then 1 else 10 * Pow10(n - 1)
  }

  /**
   * The value `std::stod` gives a string of the form `digits [. digits]`, as
   * an exact decimal; `None` where `std::stod` throws because no digit is
   * present. (Rounding to a double and out-of-range literals are not modelled.)
   */
  function ParseDecimal(lit: string): Option<real> {
    var d := IndexOfDot(lit);
    var whole := lit[..d];
    var frac := if d < |lit| then lit[d + 1..] else "";
    if AllDigits(whole) && AllDigits(frac) && |whole| + |frac| > 0 then
      Some(DigitsValue(whole) as real + DigitsValue(frac) as real / Pow10(|frac|) as real)
    else
      None
  }

  /** Of all scanned literals, exactly `"."` has no exact decimal reading. */
  lemma LiteralParses(lit: string)
    requires IsLiteral(lit)
    ensures ParseDecimal(lit).None? <==> lit == "."
  {
    var d := IndexOfDot(lit);
    assert AllDigits(lit[..d]) by {
      forall k | 0 <= k < d ensures IsDigit(lit[..d][k]) { assert lit[k] != '.'; }
    }
    if d < |lit| {
      assert AllDigits(lit[d + 1..]) by {
        forall k | d + 1 <= k < |lit| ensures IsDigit(lit[k]) {
          assert lit[d] == '.';
        }
      }
      if |lit[..d]| + |lit[d + 1..]| == 0 {
        assert lit == ".";
      }
    }
  }

  // ---------------------------------------------------------------------
  // Tokens the scanner builds
  // ---------------------------------------------------------------------

  /** The unary minus: the function `neg` of arity 1. */
  const NegToken: Token := MakeToken(Function, "neg").(arity := 1)

  const EndToken: Token := MakeToken(End, "")

  function NumberToken(lit: string, v: real): Token {
    MakeToken(Number, lit).(number := v)
  }

  /** The identifier rule: function table first, then constant table, else a variable. */
  function Classify(name: string): (t: Token)
    ensures t.text == name
    ensures name in FunctionTable ==> t.kind == Function && t.arity == FunctionTable[name]
    ensures name !in FunctionTable && name in ConstantTable ==> t.kind == Number && t.number == ConstantTable[name]
    ensures name !in FunctionTable && name !in ConstantTable ==> t == MakeToken(Variable, name)
  {
    if name in FunctionTable then MakeToken(Function, name).(arity := FunctionTable[name])
    else if name in ConstantTable then MakeToken(Number, name).(number := ConstantTable[name])
    else MakeToken(Variable, name)
  }

  /** Kinds after which a following value gets an implicit `*`. */
  predicate ValueEnd(k: TokenType) { k == Number || k == Variable || k == RightParen }

  /** Kinds that start a value. */
  predicate ValueStart(k: TokenType) { k == Variable || k == Function || k == LeftParen || k == Number }

  /** No two adjacent tokens are a value end followed by a value start. */
  predicate NoImplicitGap(toks: seq<Token>) {
    forall k | 0 < k < |toks| :: !(ValueEnd(toks[k - 1].kind) && ValueStart(toks[k].kind))
  }

  /** The `push_token` lambda: append `t`, first inserting `*` between two values. */
  function PushToken(toks: seq<Token>, t: Token): (r: seq<Token>)
    ensures r == toks + [t] || r == toks + [OperatorToken("*"), t]
  {
    if toks != [] && ValueEnd(toks[|toks| - 1].kind) && ValueStart(t.kind) then
      toks + [OperatorToken("*"), t]
    else
      toks + [t]
  }

  /** A `-` read here is unary: nothing before it, or an operator, `(` or `,`. */
  predicate UnaryContext(toks: seq<Token>) {
    toks == [] || toks[|toks| - 1].kind in {Operator, LeftParen, Comma}
  }

  // ---------------------------------------------------------------------
  // The scanning loops
  // ---------------------------------------------------------------------

  /** Where the number-literal loop that starts at `i` stops (with `dot_seen`). */
  function NumberEnd(expr: string, i: nat, dotSeen: bool): (j: nat)
    requires i <= |expr|
    ensures i <= j <= |expr|
    ensures i < |expr| && IsNumberChar(expr[i]) && !dotSeen ==> j > i
    decreases |expr| - i
  {
    if i < |expr| && IsNumberChar(expr[i]) then
      if expr[i] == '.' && dotSeen then i else NumberEnd(expr, i + 1, dotSeen || expr[i] == '.')
    else
      i
  }

  /** Where the identifier loop that starts at `i` stops. */
  function IdentEnd(expr: string, i: nat): (j: nat)
    requires i <= |expr|
    ensures i <= j <= |expr|
    ensures i < |expr| && IsAlpha(expr[i]) ==> j > i
    ensures AllAlpha(expr[i..j]) && (j == |expr| || !IsAlpha(expr[j]))
    decreases |expr| - i
  {
    if i < |expr| && IsAlpha(expr[i]) then IdentEnd(expr, i + 1) else i
  }

  /**
   * One iteration of the main loop of `tokenize` at index `i < |expr|` with
   * `toks` emitted so far: the next index and the tokens emitted after it,
   * or the `std::invalid_argument` error of `std::stod`.
   */
  function Step(expr: string, i: nat, toks: seq<Token>): (r: Result<(nat, seq<Token>), LexError>)
    requires i < |expr|
    ensures r.Ok? ==> i < r.value.0 <= |expr|
  {
    var c := expr[i];
    if IsSpace(c) then Ok((i + 1, toks))
    else if IsNumberChar(c) then
      var j := NumberEnd(expr, i, false);
      var lit := expr[i..j];
      match ParseDecimal(lit)
      case None => Err(InvalidNumber(lit))
      case Some(v) => Ok((j, PushToken(toks, NumberToken(lit, v))))
    else if IsAlpha(c) then
      var j := IdentEnd(expr, i);
      Ok((j, PushToken(toks, Classify(expr[i..j]))))
    else if c == '-' && UnaryContext(toks) then Ok((i + 1, PushToken(toks, NegToken)))
    else if IsOperatorChar(c) then Ok((i + 1, toks + [OperatorToken([c])]))
    else if c == '(' then Ok((i + 1, PushToken(toks, MakeToken(LeftParen, "("))))
    else if c == ')' then Ok((i + 1, toks + [MakeToken(RightParen, ")")]))
    else if c == ',' then Ok((i + 1, toks + [MakeToken(Comma, ",")]))
    else Ok((i + 1, toks + [MakeToken(Invalid, [c])]))
  }

  /** The main loop of `tokenize` from index `i`, then the final End token. */
  function Scan(expr: string, i: nat, toks: seq<Token>): Result<seq<Token>, LexError>
    requires i <= |expr|
    decreases |expr| - i
  {
    if i == |expr| then Ok(toks + [EndToken])
    else
      match Step(expr, i, toks)
      case Err(e) => Err(e)
      case Ok((j, toks')) => Scan(expr, j, toks')
  }

  /** What `tokenize(expr)` returns, or the `std::invalid_argument` error of `std::stod`. */
  function Lexed(expr: string): Result<seq<Token>, LexError> {
    Scan(expr, 0, [])
  }

  /** `std::stod` throwing `std::invalid_argument` on a literal with no digit. */
  datatype LexError = InvalidNumber(literal: string)

  /** The inner loop of `tokenize` that scans a number literal, with its `dot_seen` flag. */
  method NumberLiteralEnd(expr: string, start: nat) returns (i: nat)
    requires start <= |expr|
    ensures i == NumberEnd(expr, start, false)
  {
    i := start;
    var dotSeen := false;
    while i < |expr| && (IsDigit(expr[i]) || expr[i] == '.')
      invariant start <= i <= |expr|
      invariant NumberEnd(expr, i, dotSeen) == NumberEnd(expr, start, false)
      decreases |expr| - i
    {
      ghost var seen0 := dotSeen;
      if expr[i] == '.' {
        if dotSeen {
          break;
        }
        dotSeen := true;
      }
      assert NumberEnd(expr, i, seen0) == NumberEnd(expr, i + 1, dotSeen);
      i := i + 1;
    }
  }

  /** The inner loop of `tokenize` that scans an identifier. */
  method IdentifierEnd(expr: string, start: nat) returns (i: nat)
    requires start <= |expr|
    ensures i == IdentEnd(expr, start)
  {
    i := start;
    while i < |expr| && IsAlpha(expr[i])
      invariant start <= i <= |expr|
      invariant IdentEnd(expr, i) == IdentEnd(expr, start)
      decreases |expr| - i
    {
      i := i + 1;
    }
  }

  /** `tokenize`. */
  method Tokenize(expr: string) returns (r: Result<seq<Token>, LexError>)
    ensures r == Lexed(expr)
  {
    var tokens: seq<Token> := [];
    var i := 0;
    while i < |expr|
      invariant 0 <= i <= |expr|
      invariant Scan(expr, i, tokens) == Lexed(expr)
      decreases |expr| - i
    {
      var c := expr[i];
      ghost var i0, tokens0 := i, tokens;
      if IsSpace(c) {
        i := i + 1;
      } else if IsDigit(c) || c == '.' {
        var start := i;
        i := NumberLiteralEnd(expr, start);
        var lit := expr[start..i];
        var val := ParseDecimal(lit);
        if val.None? {
          assert Step(expr, i0, tokens0) == Err(InvalidNumber(lit));
          return Err(InvalidNumber(lit));
        }
        tokens := PushToken(tokens, NumberToken(lit, val.value));
      } else if IsAlpha(c) {
        var start := i;
        i := IdentifierEnd(expr, start);
        tokens := PushToken(tokens, Classify(expr[start..i]));
      } else if c == '-' && (tokens == [] || tokens[|tokens| - 1].kind == Operator
                             || tokens[|tokens| - 1].kind == LeftParen || tokens[|tokens| - 1].kind == Comma) {
        tokens := PushToken(tokens, NegToken);
        i := i + 1;
      } else if IsOperatorChar(c) {
        tokens := tokens + [OperatorToken([c])];
        i := i + 1;
      } else if c == '(' {
        tokens := PushToken(tokens, MakeToken(LeftParen, "("));
        i := i + 1;
      } else if c == ')' {
        tokens := tokens + [MakeToken(RightParen, ")")];
        i := i + 1;
      } else if c == ',' {
        tokens := tokens + [MakeToken(Comma, ",")];
        i := i + 1;
      } else {
        tokens := tokens + [MakeToken(Invalid, [c])];
        i := i + 1;
      }
      assert Step(expr, i0, tokens0) == Ok((i, tokens));
    }
    tokens := tokens + [EndToken];
    r := Ok(tokens);
  }

  // ---------------------------------------------------------------------
  // What every emitted token sequence satisfies
  // ---------------------------------------------------------------------

  /**
   * A token as the scanner can emit it: a constant or a literal with its
   * value, an identifier classified by the tables, an operator with its table
   * precedence, a parenthesis, comma or End with its fixed text, or an
   * unrecognised character.
   */
  predicate ValidToken(t: Token) {
    match t.kind
    case Number =>
      || (t.text in ConstantTable && t == Classify(t.text))
      || (IsLiteral(t.text) && ParseDecimal(t.text) == Some(t.number) && t == NumberToken(t.text, t.number))
    case Variable => |t.text| > 0 && AllAlpha(t.text) && t == Classify(t.text)
    case Function => |t.text| > 0 && AllAlpha(t.text) && t == Classify(t.text)
    case Operator => t.text in OperatorTable && t == OperatorToken(t.text)
    case LeftParen => t == MakeToken(LeftParen, "(")
    case RightParen => t == MakeToken(RightParen, ")")
    case Comma => t == MakeToken(Comma, ",")
    case End => t == EndToken
    case Invalid => |t.text| == 1 && Unrecognised(t.text[0]) && t == MakeToken(Invalid, t.text)
  }

  predicate IsBinaryMinus(t: Token) { t.kind == Operator && t.text == "-" }

  /** Every binary `-` follows a token that is not an operator, `(` or `,`. */
  predicate MinusPlacement(toks: seq<Token>) {
    forall k | 0 <= k < |toks| && IsBinaryMinus(toks[k]) :: k > 0 && toks[k - 1].kind !in {Operator, LeftParen, Comma}
  }

  /** What holds of the tokens emitted so far at every iteration of the loop. */
  predicate WellFormedPrefix(toks: seq<Token>) {
    && NoImplicitGap(toks)
    && MinusPlacement(toks)
    && (forall k | 0 <= k < |toks| :: ValidToken(toks[k]) && toks[k].kind != End)
  }

  lemma NumberEndShape(expr: string, start: nat, i: nat, dotSeen: bool)
    requires start <= i <= |expr|
    requires forall k | start <= k < i :: IsNumberChar(expr[k])
    requires forall a, b | start <= a < b < i :: !(expr[a] == '.' && expr[b] == '.')
    requires dotSeen <==> exists k | start <= k < i :: expr[k] == '.'
    ensures var j := NumberEnd(expr, i, dotSeen);
      && (forall k | start <= k < j :: IsNumberChar(expr[k]))
      && (forall a, b | start <= a < b < j :: !(expr[a] == '.' && expr[b] == '.'))
      && (j == |expr| || !IsNumberChar(expr[j]) || (expr[j] == '.' && exists k | start <= k < j :: expr[k] == '.'))
    decreases |expr| - i
  {
    if i < |expr| && IsNumberChar(expr[i]) && !(expr[i] == '.' && dotSeen) {
      NumberEndShape(expr, start, i + 1, dotSeen || expr[i] == '.');
    }
  }

  /**
   * A number literal is a maximal run of digits and dots holding at most one
   * dot: it stops at the first character that is neither, or at a second dot.
   */
  lemma {:induction false} NumberLiteral(expr: string, start: nat)
    requires start < |expr| && IsNumberChar(expr[start])
    ensures var j := NumberEnd(expr, start, false);
      && start < j
      && IsLiteral(expr[start..j])
      && (j == |expr| || !IsNumberChar(expr[j]) || (expr[j] == '.' && '.' in expr[start..j]))
  {
    NumberEndShape(expr, start, start, false);
    var j := NumberEnd(expr, start, false);
    var lit := expr[start..j];
    assert forall k | 0 <= k < |lit| :: lit[k] == expr[start + k];
    if j < |expr| && IsNumberChar(expr[j]) {
      var k :| start <= k < j && expr[k] == '.';
      assert lit[k - start] == '.';
    }
  }

  lemma AppendKeeps(toks: seq<Token>, t: Token)
    requires WellFormedPrefix(toks)
    requires ValidToken(t) && t.kind != End && !ValueStart(t.kind)
    requires IsBinaryMinus(t) ==> !UnaryContext(toks)
    ensures WellFormedPrefix(toks + [t])
  {
    var r := toks + [t];
    forall k | 0 <= k < |r| && IsBinaryMinus(r[k])
      ensures k > 0 && r[k - 1].kind !in {Operator, LeftParen, Comma}
    {
      if k < |toks| { assert r[k] == toks[k]; }
    }
  }

  /** Appending a token that starts a value after one that does not end a value keeps the prefix well formed. */
  lemma AppendValueKeeps(toks: seq<Token>, t: Token)
    requires WellFormedPrefix(toks)
    requires ValidToken(t) && ValueStart(t.kind) && t.kind != End
    requires toks == [] || !ValueEnd(toks[|toks| - 1].kind)
    ensures WellFormedPrefix(toks + [t])
  {
    var r := toks + [t];
    assert NoImplicitGap(r) by {
      forall k | 0 < k < |r| ensures !(ValueEnd(r[k - 1].kind) && ValueStart(r[k].kind)) {
        if k < |toks| { assert r[k - 1] == toks[k - 1] && r[k] == toks[k]; }
      }
    }
    forall k | 0 <= k < |r| && IsBinaryMinus(r[k])
      ensures k > 0 && r[k - 1].kind !in {Operator, LeftParen, Comma}
    {
      assert k < |toks| && r[k] == toks[k];
    }
  }

  lemma PushKeeps(toks: seq<Token>, t: Token)
    requires WellFormedPrefix(toks)
    requires ValidToken(t) && ValueStart(t.kind)
    ensures WellFormedPrefix(PushToken(toks, t))
  {
    if toks != [] && ValueEnd(toks[|toks| - 1].kind) {
      var mul := OperatorToken("*");
      AppendKeeps(toks, mul);
      AppendValueKeeps(toks + [mul], t);
      assert PushToken(toks, t) == toks + [mul, t] == toks + [mul] + [t];
    } else {
      AppendValueKeeps(toks, t);
      assert PushToken(toks, t) == toks + [t];
    }
  }

  /** The number-literal branch of `StepFacts`. */
  lemma NumberStepFacts(expr: string, i: nat, toks: seq<Token>)
    requires i < |expr| && !IsSpace(expr[i]) && IsNumberChar(expr[i])
    requires WellFormedPrefix(toks)
    ensures Step(expr, i, toks).Ok? ==> WellFormedPrefix(Step(expr, i, toks).value.1)
    ensures Step(expr, i, toks).Err? ==> Step(expr, i, toks).error == InvalidNumber(".")
  {
    NumberLiteral(expr, i);
    var j := NumberEnd(expr, i, false);
    var lit := expr[i..j];
    LiteralParses(lit);
    if ParseDecimal(lit).Some? {
      PushKeeps(toks, NumberToken(lit, ParseDecimal(lit).value));
    }
  }

  /** One iteration keeps the emitted prefix well formed; its only error is the literal `"."`. */
  lemma StepFacts(expr: string, i: nat, toks: seq<Token>)
    requires i < |expr|
    requires WellFormedPrefix(toks)
    ensures Step(expr, i, toks).Ok? ==> WellFormedPrefix(Step(expr, i, toks).value.1)
    ensures Step(expr, i, toks).Err? ==> Step(expr, i, toks).error == InvalidNumber(".")
  {
    var c := expr[i];
    if IsSpace(c) {
    } else if IsNumberChar(c) {
      NumberStepFacts(expr, i, toks);
    } else if IsAlpha(c) || (c == '-' && UnaryContext(toks)) {
      ValueStepFacts(expr, i, toks);
    } else {
      SymbolStepFacts(expr, i, toks);
    }
  }

  /** The identifier and unary-minus branches of `StepFacts`. */
  lemma ValueStepFacts(expr: string, i: nat, toks: seq<Token>)
    requires i < |expr| && !IsSpace(expr[i]) && !IsNumberChar(expr[i])
    requires IsAlpha(expr[i]) || (expr[i] == '-' && UnaryContext(toks))
    requires WellFormedPrefix(toks)
    ensures Step(expr, i, toks).Ok? && WellFormedPrefix(Step(expr, i, toks).value.1)
  {
    var c := expr[i];
    if IsAlpha(c) {
      var j := IdentEnd(expr, i);
      PushKeeps(toks, Classify(expr[i..j]));
    } else {
      assert NegToken == Classify("neg");
      PushKeeps(toks, NegToken);
    }
  }

  /** The operator, parenthesis, comma and unrecognised-char branches of `StepFacts`. */
  lemma SymbolStepFacts(expr: string, i: nat, toks: seq<Token>)
    requires i < |expr| && !IsSpace(expr[i]) && !IsNumberChar(expr[i])
    requires !IsAlpha(expr[i]) && !(expr[i] == '-' && UnaryContext(toks))
    requires WellFormedPrefix(toks)
    ensures Step(expr, i, toks).Ok? && WellFormedPrefix(Step(expr, i, toks).value.1)
  {
    var c := expr[i];
    if IsOperatorChar(c) {
      AppendKeeps(toks, OperatorToken([c]));
    } else if c == '(' {
      PushKeeps(toks, MakeToken(LeftParen, "("));
    } else if c == ')' {
      AppendKeeps(toks, MakeToken(RightParen, ")"));
    } else if c == ',' {
      AppendKeeps(toks, MakeToken(Comma, ","));
    } else {
      AppendKeeps(toks, MakeToken(Invalid, [c]));
    }
  }

  /** The whole remaining loop plus the final End token. */
  lemma {:induction false} ScanFacts(expr: string, i: nat, toks: seq<Token>)
    requires i <= |expr|
    requires WellFormedPrefix(toks)
    ensures Scan(expr, i, toks).Ok? ==>
      var r := Scan(expr, i, toks).value;
      && |r| > 0 && r[|r| - 1] == EndToken
      && WellFormedPrefix(r[..|r| - 1])
    ensures Scan(expr, i, toks).Err? ==> Scan(expr, i, toks).error == InvalidNumber(".")
    decreases |expr| - i
  {
    if i == |expr| {
      assert (toks + [EndToken])[..|toks|] == toks;
    } else {
      StepFacts(expr, i, toks);
      match Step(expr, i, toks)
      case Err(_) =>
      case Ok((j, toks')) => ScanFacts(expr, j, toks');
    }
  }

  /** The output ends with exactly one End token, and End occurs nowhere else. */
  lemma EndOnlyAtEnd(expr: string)
    ensures Lexed(expr).Ok? ==>
      var r := Lexed(expr).value;
      && |r| > 0 && r[|r| - 1].kind == End
      && forall k | 0 <= k < |r| - 1 :: r[k].kind != End
  {
    ScanFacts(expr, 0, []);
    if Lexed(expr).Ok? {
      var r := Lexed(expr).value;
      forall k | 0 <= k < |r| - 1 ensures r[k].kind != End {
        assert r[k] == r[..|r| - 1][k];
      }
    }
  }

  /**
   * No two adjacent output tokens are a Number, Variable or `)` followed by a
   * Number, Variable, Function or `(`: an implicit `*` always separates them.
   */
  lemma NoAdjacentValues(expr: string)
    ensures Lexed(expr).Ok? ==> NoImplicitGap(Lexed(expr).value)
  {
    ScanFacts(expr, 0, []);
    if Lexed(expr).Ok? {
      var r := Lexed(expr).value;
      var p := r[..|r| - 1];
      assert r == p + [EndToken];
      EndKeepsGap(p);
    }
  }

  /** The final End token starts no value, so it opens no gap. */
  lemma EndKeepsGap(p: seq<Token>)
    requires NoImplicitGap(p)
    ensures NoImplicitGap(p + [EndToken])
  {
    var r := p + [EndToken];
    forall k | 0 < k < |r| ensures !(ValueEnd(r[k - 1].kind) && ValueStart(r[k].kind)) {
      if k < |p| { assert r[k - 1] == p[k - 1] && r[k] == p[k]; }
    }
  }

  /**
   * Every output token is one the scanner's tables and rules can produce:
   * operators carry their table precedence and associativity, identifiers are
   * classified function-table first, literals carry their decimal value.
   */
  lemma AllTokensValid(expr: string)
    ensures Lexed(expr).Ok? ==> forall t | t in Lexed(expr).value :: ValidToken(t)
  {
    ScanFacts(expr, 0, []);
    if Lexed(expr).Ok? {
      var r := Lexed(expr).value;
      forall t | t in r ensures ValidToken(t) {
        var k :| 0 <= k < |r| && r[k] == t;
        if k < |r| - 1 { assert r[k] == r[..|r| - 1][k]; }
      }
    }
  }

  /** A binary `-` is never first and never follows an operator, `(` or `,`. */
  lemma BinaryMinusPlacement(expr: string)
    ensures Lexed(expr).Ok? ==> MinusPlacement(Lexed(expr).value)
  {
    ScanFacts(expr, 0, []);
    if Lexed(expr).Ok? {
      var r := Lexed(expr).value;
      var p := r[..|r| - 1];
      assert r == p + [EndToken];
      forall k | 0 <= k < |r| && IsBinaryMinus(r[k])
        ensures k > 0 && r[k - 1].kind !in {Operator, LeftParen, Comma}
      {
        assert k < |p| && r[k] == p[k] && (k > 0 ==> r[k - 1] == p[k - 1]);
      }
    }
  }

  /** With exact, unbounded literals, the only way tokenizing fails is the literal `"."`. */
  lemma OnlyBareDotFails(expr: string)
    ensures Lexed(expr).Err? ==> Lexed(expr).error == InvalidNumber(".")
  {
    ScanFacts(expr, 0, []);
  }

  // ---------------------------------------------------------------------
  // Single steps and worked examples
  // ---------------------------------------------------------------------

  /**
   * A `-` becomes `neg` exactly when nothing precedes it or an operator, `(`
   * or `,` does; otherwise it is the binary operator of precedence 2.
   */
  lemma MinusRule(expr: string, i: nat, toks: seq<Token>)
    requires i < |expr| && expr[i] == '-'
    ensures UnaryContext(toks) ==> Step(expr, i, toks) == Ok((i + 1, toks + [NegToken]))
    ensures !UnaryContext(toks) ==> Step(expr, i, toks) == Ok((i + 1, toks + [OperatorToken("-")]))
    ensures NegToken.kind == Function && NegToken.arity == 1 && OperatorToken("-").precedence == 2
  {
  }

  /** Whitespace emits nothing; any other unrecognised character emits one Invalid token. */
  lemma SkippedAndInvalid(expr: string, i: nat, toks: seq<Token>)
    requires i < |expr|
    ensures IsSpace(expr[i]) ==> Step(expr, i, toks) == Ok((i + 1, toks))
    ensures Unrecognised(expr[i]) ==> Step(expr, i, toks) == Ok((i + 1, toks + [MakeToken(Invalid, [expr[i]])]))
  {
  }

  /** Identifiers: `sinx` and `abs` are variables, `sin` a function, `pi` a number. */
  lemma IdentifierExamples()
    ensures Classify("sinx") == MakeToken(Variable, "sinx")
    ensures Classify("abs") == MakeToken(Variable, "abs")
    ensures Classify("sin").kind == Function && Classify("sin").arity == 1
    ensures Classify("pow").kind == Function && Classify("pow").arity == 2
    ensures Classify("pi").kind == Number && Classify("pi").number == ConstantTable["pi"]
  {
  }

  /** The implicit `*` goes in exactly between a value end and a value start. */
  lemma ImplicitTimesRule(toks: seq<Token>, t: Token)
    ensures toks != [] && ValueEnd(toks[|toks| - 1].kind) && ValueStart(t.kind) ==>
              PushToken(toks, t) == toks + [OperatorToken("*"), t]
    ensures !(toks != [] && ValueEnd(toks[|toks| - 1].kind) && ValueStart(t.kind)) ==> PushToken(toks, t) == toks + [t]
    ensures OperatorToken("*").precedence == 3 && !OperatorToken("*").rightAssociative
  {
  }

  /** Literal values as `std::stod` reads them, and the one literal it rejects. */
  lemma LiteralValues()
    ensures ParseDecimal("2") == Some(2.0) && ParseDecimal("1.2") == Some(1.2) && ParseDecimal(".3") == Some(0.3)
    ensures ParseDecimal("10.") == Some(10.0) && ParseDecimal(".") == None
  {
    assert "2"[..0] == "" && "1"[..0] == "" && "3"[..0] == "" && "1"[..0] == "";
    assert IndexOfDot("2") == 1 && "2"[..1] == "2";
    assert IndexOfDot("1.2") == 1 && "1.2"[..1] == "1" && "1.2"[2..] == "2";
    assert IndexOfDot(".3") == 0 && ".3"[..0] == "" && ".3"[1..] == "3";
    assert IndexOfDot("10.") == 2 && "10."[..2] == "10" && "10."[3..] == "" && "10"[..1] == "1";
    assert IndexOfDot(".") == 0 && "."[..0] == "" && "."[1..] == "";
  }
}
