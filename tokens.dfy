/**
 * The token data model of the tokenizer (`TokenType`, `Token`) and the three
 * lookup tables the tokenizer uses: operators, functions and named constants.
 */
module Tokens {

  /** The nine kinds of token. */
  datatype TokenType = Number | Variable | Operator | Function | LeftParen | RightParen | Comma | End | Invalid

  /**
   * A token: its kind, its literal text, the value of a Number, the precedence
   * and associativity of an Operator and the arity of a Function.
   */
  datatype Token = Token(kind: TokenType, text: string, number: real, precedence: int, rightAssociative: bool, arity: int)

  /** Every kind, once each. */
  const AllKinds: seq<TokenType> := [Number, Variable, Operator, Function, LeftParen, RightParen, Comma, End, Invalid]

  lemma ExactlyNineKinds()
    ensures |AllKinds| == 9
    ensures forall i, j :: 0 <= i < j < |AllKinds| ==> AllKinds[i] != AllKinds[j]
    ensures forall k: TokenType :: k in AllKinds
  {
    forall k: TokenType ensures k in AllKinds {
      match k
      case Number => assert AllKinds[0] == k;
      case Variable => assert AllKinds[1] == k;
      case Operator => assert AllKinds[2] == k;
      case Function => assert AllKinds[3] == k;
      case LeftParen => assert AllKinds[4] == k;
      case RightParen => assert AllKinds[5] == k;
      case Comma => assert AllKinds[6] == k;
      case End => assert AllKinds[7] == k;
      case Invalid => assert AllKinds[8] == k;
    }
  }

  /** `Token()`: kind Invalid, every other field at its default initialiser. */
  function DefaultToken(): (t: Token)
    ensures t.kind == Invalid && t.text == ""
    ensures t.number == 0.0 && t.precedence == 0 && !t.rightAssociative && t.arity == 0
  {
    Token(Invalid, "", 0.0, 0, false, 0)
  }

  /** `Token(TokenType t, std::string s)`. */
  function MakeToken(kind: TokenType, text: string): (t: Token)
    ensures t == DefaultToken().(kind := kind, text := text)
  {
    Token(kind, text, 0.0, 0, false, 0)
  }

  /** `operator_table`: precedence and right-associativity of each binary operator. */
  const OperatorTable: map<string, (int, bool)> :=
    map["+" := (2, false), "-" := (2, false), "*" := (3, false), "/" := (3, false), "^" := (4, true)]

  /** `function_table`: the known function names and their arities (`abs` is not among them). */
  const FunctionTable: map<string, int> :=
    map["sin" := 1, "cos" := 1, "tan" := 1, "asin" := 1, "acos" := 1, "atan" := 1,
        "arcsin" := 1, "arccos" := 1, "arctan" := 1, "sqrt" := 1, "log" := 1, "ln" := 1,
        "exp" := 1, "pow" := 2, "neg" := 1]

  /**
   * `constant_table`. The value of phi is `(1 + sqrt 5) / 2` written out to the
   * same number of digits as the other two constants.
   */
  const ConstantTable: map<string, real> :=
    map["pi" := 3.14159265358979323846, "e" := 2.71828182845904523536, "phi" := 1.61803398874989484820]

  /** An Operator token for `op`, with precedence and associativity from the table. */
  function OperatorToken(op: string): (t: Token)
    requires op in OperatorTable
    ensures t.kind == Operator && t.text == op
    ensures t.precedence == OperatorTable[op].0 && t.rightAssociative == OperatorTable[op].1
  {
    MakeToken(Operator, op).(precedence := OperatorTable[op].0, rightAssociative := OperatorTable[op].1)
  }

  lemma OperatorPrecedences()
    ensures OperatorToken("+").precedence == 2 && !OperatorToken("+").rightAssociative
    ensures OperatorToken("-").precedence == 2 && !OperatorToken("-").rightAssociative
    ensures OperatorToken("*").precedence == 3 && !OperatorToken("*").rightAssociative
    ensures OperatorToken("/").precedence == 3 && !OperatorToken("/").rightAssociative
    ensures OperatorToken("^").precedence == 4 && OperatorToken("^").rightAssociative
  {
  }
}
