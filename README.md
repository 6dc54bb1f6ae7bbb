# DsignCalculator expression core in Dafny

DsignCalculator is a graphing calculator. An input line such as `y = x^2 - 1` or `2sin(x)` goes through these stages:

1. It is normalised: Unicode symbols become ASCII, and `lhs = rhs` becomes `(lhs)-(rhs)`.
2. It is tokenized.
3. It is turned into postfix (RPN) form by a shunting-yard parser.
4. It is graphed. A program that mentions `y` is drawn as the contour F(x, y) = 0, found by marching squares over a sampling grid. Any other program is sampled along x and bucketed into per-pixel-column screen vertices.

The UI keeps one graph slot per input box. A zoom changes the scale within a clamp. Parameter boxes hold `name = value` lines that feed an environment of named variables.

This project models that pipeline and the UI's state changes, and proves what each stage guarantees.

| file | module | models |
|---|---|---|
| `wrappers.dfy` | `Wrappers` | `Option` and `Result` |
| `numeric.dfy` | `Numeric` | a `double` as an exact real or NaN; the math library as parameters; screen points |
| `tokens.dfy` | `Tokens` | `TokenType`, `Token`, its constructors, and the operator, function and constant tables |
| `tokenizer.dfy` | `Tokenizer` | `tokenize` and its `push_token` lambda |
| `parser.dfy` | `Parser` | `shuntingYard` |
| `evaluator.dfy` | `Evaluator` | `evaluateRPNVec`, `evaluateRPNXY` and `evaluateRPNEnv` |
| `marching_squares.dfy` | `Contour` | `marchingSquares`, `interp` and `lerpPoint` |
| `grapher.dfy` | `Grapher` | `rpnUsesY`, `computeWorldSamplesFromRPN` and `computeGraphFromRPN` |
| `calculator.dfy` | `Calculator` | `normalizeExpression` (with `replaceAll` and `trim`), `parseParamAssignment`, the zoom clamp, `computeAdaptiveStep`, and the input-slot state with its Enter commit rule |

Each loop in the source has two forms in the model:

- an imperative `method` with the loop and its invariants;
- a recursive function that states what the loop computes, one call per iteration.

Each method's `ensures` ties its result, or its new state, to that function. The lemmas then prove the source's promises about the function.

The input slots are a class, `Calculator.Session`. Its fields are the vectors the UI mutates in place: the scale, `env`, `lastGraph`, `lastExpr`, `lastRPN`, `lastCenterX` and `lastCenterY`.

Arithmetic is modelled as follows:

- The model computes exactly where the source computes in floating point; `Numeric.Double` is `Num(real) | NaN`.
- In the evaluator, `+`, `-`, `*`, `neg` and `abs` are exact. The evaluator's `/`, `pow`, the trigonometric functions, `sqrt`, `log` and `exp` are fields of a `MathLib` value, passed in and left unconstrained.
- The divisions the grapher and the UI do themselves are exact real divisions. These are the contour interpolation parameter, the grid spacing and coordinates, the visible world bounds, the sample count, the zoom factor, the adaptive step and the Enter and recompute x-ranges. Their rounding is among what is left out below.
- An evaluation that throws is an `Err`. A grid cell whose evaluation throws holds `NaN`.

Some behaviours of the code are worth stating on their own:

- `-3^2` parses as `3 neg 2 ^`, i.e. pow(−3, 2), because an incoming `^` pops the Function `neg` off the stack (`DsignCalculator/core/parser/parser.cpp:25`). `Parser.FunctionBeforeOperator` proves this for every function, operator and pair of operands.
- `abs` has an evaluator case, but it is absent from the function table (`DsignCalculator/core/tokenizer/tokenizer.cpp:16-19`). So the text `abs` is tokenized as a Variable (`Tokenizer.IdentifierExamples`).
- 1-D plots are bucketed per pixel column: each occupied column contributes its lowest sample and, when it differs, its highest.
- Enter samples `[-graphW/2/scale, graphW/2/scale]` whatever the pan, while a zoom or parameter recompute samples the visible range `[-centerX/scale, (graphW - centerX)/scale]`. The two ranges agree exactly when there is no horizontal pan (`Calculator.RecomputeRangeIsEnterRange`).
- `DsignCalculator/core/grapher/grapher.h` declares signatures that differ from the definitions. The model follows `grapher.cpp`.

## Model

| member | source | states |
|---|---|---|
| Tokens.ExactlyNineKinds | DsignCalculator/core/tokenizer/tokenizer.h:6-16 | there are exactly nine token kinds, pairwise distinct, and every kind is one of them |
| Tokens.DefaultToken | DsignCalculator/core/tokenizer/tokenizer.h:19-26 | a default token is Invalid with empty text, number 0.0, precedence 0, left-associative and arity 0 |
| Tokens.MakeToken | DsignCalculator/core/tokenizer/tokenizer.h:27 | the (type, text) constructor sets exactly the kind and text and leaves every other field at its default |
| Tokens.OperatorToken | DsignCalculator/core/tokenizer/tokenizer.cpp:106-111 | an operator token has the table's precedence and associativity for its text |
| Tokens.OperatorPrecedences | DsignCalculator/core/tokenizer/tokenizer.cpp:10-14 | `+ -` have precedence 2, `* /` have 3, `^` has 4; only `^` is right-associative |
| Tokenizer.LiteralParses | DsignCalculator/core/tokenizer/tokenizer.cpp:63 | of all scanned literals (digits and at most one dot), the model's exact decimal reading has no value exactly for `"."`, which has no digit |
| Tokenizer.LiteralValues | DsignCalculator/core/tokenizer/tokenizer.cpp:63-65 | a literal's value is its decimal reading (`1.2`, `.3`, `10.`), and `"."` has none |
| Tokenizer.Classify | DsignCalculator/core/tokenizer/tokenizer.cpp:73-88 | an identifier is looked up in the function table first (with its arity), then in the constant table (with its value); otherwise it is a Variable |
| Tokenizer.IdentifierExamples | DsignCalculator/core/tokenizer/tokenizer.cpp:16-25 | `sinx` and `abs` are variables, `sin` has arity 1, `pow` has arity 2, and `pi` is a Number with its constant |
| Tokenizer.PushToken | DsignCalculator/core/tokenizer/tokenizer.cpp:31-47 | `push_token` appends the token, possibly preceded by one `*` |
| Tokenizer.ImplicitTimesRule | DsignCalculator/core/tokenizer/tokenizer.cpp:34-46 | a `*` (precedence 3, left-associative) is inserted exactly when a Number, Variable or `)` is followed by a Variable, Function, `(` or Number |
| Tokenizer.NumberEnd | DsignCalculator/core/tokenizer/tokenizer.cpp:54-62 | the number loop never moves backwards and consumes at least one character when it starts on a digit or dot |
| Tokenizer.IdentEnd | DsignCalculator/core/tokenizer/tokenizer.cpp:71-72 | the identifier loop stops at the end of a maximal run of letters |
| Tokenizer.Step | DsignCalculator/core/tokenizer/tokenizer.cpp:49-121 | every iteration of the main loop strictly advances the index, so the loop terminates |
| Tokenizer.NumberLiteralEnd | DsignCalculator/core/tokenizer/tokenizer.cpp:54-62 | the `dot_seen` loop stops where the specification function `NumberEnd` says |
| Tokenizer.NumberLiteral | DsignCalculator/core/tokenizer/tokenizer.cpp:53-62 | a literal is non-empty and holds at most one dot; it ends at the input's end, at a non-number character, or at a second dot |
| Tokenizer.IdentifierEnd | DsignCalculator/core/tokenizer/tokenizer.cpp:71-72 | the identifier loop stops where `IdentEnd` says |
| Tokenizer.Tokenize | DsignCalculator/core/tokenizer/tokenizer.cpp:27-126 | the imperative scanner returns exactly `Lexed(expr)`: the tokens, or the error for a literal with no digit |
| Tokenizer.MinusRule | DsignCalculator/core/tokenizer/tokenizer.cpp:92-114 | a `-` becomes `neg` (a Function of arity 1) exactly when no token, an Operator, `(` or `,` precedes it; otherwise it is the binary operator of precedence 2 |
| Tokenizer.SkippedAndInvalid | DsignCalculator/core/tokenizer/tokenizer.cpp:49-121 | whitespace emits nothing; an unrecognised character emits one single-character Invalid token |
| Tokenizer.ScanFacts | DsignCalculator/core/tokenizer/tokenizer.cpp:49-125 | from any well-formed prefix, the remaining loop ends in End and keeps every earlier token well formed; in the model, a failure is always the literal `"."` |
| Tokenizer.EndOnlyAtEnd | DsignCalculator/core/tokenizer/tokenizer.cpp:124 | the output ends with an End token and End occurs nowhere else |
| Tokenizer.NoAdjacentValues | DsignCalculator/core/tokenizer/tokenizer.cpp:31-47 | no Number, Variable or `)` is ever directly followed by a Number, Variable, Function or `(` |
| Tokenizer.AllTokensValid | DsignCalculator/core/tokenizer/tokenizer.cpp:49-124 | every output token is well formed for its kind: a constant or a parsed literal for Number; letters for Variable and Function; table values for operators; fixed text for punctuation; one unrecognised character for Invalid |
| Tokenizer.BinaryMinusPlacement | DsignCalculator/core/tokenizer/tokenizer.cpp:92-114 | every binary `-` follows a token that is not an Operator, `(` or `,` |
| Tokenizer.OnlyBareDotFails | DsignCalculator/core/tokenizer/tokenizer.cpp:63 | in the model, whose literal reading is exact and unbounded, tokenizing fails only on the literal `"."` |
| Parser.PopOperatorsLoop | DsignCalculator/core/parser/parser.cpp:20-30 | the operator-popping loop computes `PopOperators` |
| Parser.PopToParenLoop | DsignCalculator/core/parser/parser.cpp:34-49 | the loop that pops down to `(` computes `PopToParen` |
| Parser.ShuntingYard | DsignCalculator/core/parser/parser.cpp:4-72 | the imperative parser returns exactly `Postfix(tokens)`, the output or "Mismatched parentheses" |
| Parser.DrainBalance | DsignCalculator/core/parser/parser.cpp:64-69 | the final drain fails exactly when a `(` is left on the stack |
| Parser.StepRightParen | DsignCalculator/core/parser/parser.cpp:45-56 | a `)` fails exactly when no `(` is open; on success exactly one `(` is consumed, and tokens only move from the stack to the output |
| Parser.StepComma | DsignCalculator/core/parser/parser.cpp:34-39 | a Comma never fails and leaves every `(` on the stack; tokens only move from the stack to the output |
| Parser.StepSkip | DsignCalculator/core/parser/parser.cpp:58-60 | End and Invalid tokens change neither the output nor the stack |
| Parser.ParensMatchedIff | DsignCalculator/core/parser/parser.cpp:45-66 | parsing succeeds exactly when the parentheses balance: no prefix closes more than it opens, and all are closed at the end |
| Parser.OperandOrderKept | DsignCalculator/core/parser/parser.cpp:10-13 | the Number/Variable subsequence of the output equals that of the input, in order |
| Parser.OutputIsPermutation | DsignCalculator/core/parser/parser.cpp:8-69 | the output is a permutation of the input's Number, Variable, Operator and Function tokens |
| Parser.OutputKinds | DsignCalculator/core/parser/parser.cpp:8-69 | the output holds only Number, Variable, Operator and Function tokens |
| Parser.TwoOperators | DsignCalculator/core/parser/parser.cpp:19-32 | in `a op1 b op2 c`, op1 is emitted before c exactly when op2 pops op1 (lower precedence, or equal and left-associative) |
| Parser.OperatorTableExamples | DsignCalculator/core/parser/parser.cpp:19-32 | `a + b * c` gives `a b c * +`, `a - b - c` gives `a b - c -` and `a ^ b ^ c` gives `a b c ^ ^` |
| Parser.FunctionBeforeOperator | DsignCalculator/core/parser/parser.cpp:25 | an incoming operator pops a function: `f a op b` gives `a f b op`, so `neg 3 ^ 2` gives `3 neg 2 ^` |
| Parser.CallAfterArguments | DsignCalculator/core/parser/parser.cpp:45-56 | for any argument tokens that convert on their own to A, `f ( args )` converts to A followed by f: the closing `)` pops the `(` and then the function under it, and the stack below is never touched |
| Evaluator.EvaluateRPN | DsignCalculator/core/evaluator/evaluator.h:11-64 | the shared stack loop returns exactly `Evaluate`, the single final value or the error thrown |
| Evaluator.EvaluateRPNVec | DsignCalculator/core/evaluator/evaluator.h:11-64 | `evaluateRPNVec` binds only `x` |
| Evaluator.EvaluateRPNXY | DsignCalculator/core/evaluator/evaluator.h:67-120 | `evaluateRPNXY` binds only `x` and `y` |
| Evaluator.EvaluateRPNEnv | DsignCalculator/core/evaluator/evaluator.h:123-176 | `evaluateRPNEnv` binds the environment's names; every other name is 0 |
| Evaluator.KnownOperators | DsignCalculator/core/evaluator/evaluator.h:27-31 | an operator text has a result exactly when it is one of `+ - * / ^` |
| Evaluator.ErrorsDependOnHeightsOnly | DsignCalculator/core/evaluator/evaluator.h:14-61 | whether and how the loop fails depends only on stack heights; on success the stack has the predicted height |
| Evaluator.EvaluationShape | DsignCalculator/core/evaluator/evaluator.h:14-63 | evaluation succeeds exactly when no step underflows and one value is left: an underflow gives its error, any other final size gives "Invalid evaluation" |
| Evaluator.ErrorsIndependentOfValues | DsignCalculator/core/evaluator/evaluator.h:11-176 | success and the error raised do not depend on the variable binding or the math library |
| Evaluator.EnvAgreesWithVec | DsignCalculator/core/evaluator/evaluator.h:11-176 | `evaluateRPNEnv(rpn, {x: v})` equals `evaluateRPNVec(rpn, v)` |
| Evaluator.EnvAgreesWithXY | DsignCalculator/core/evaluator/evaluator.h:67-176 | `evaluateRPNEnv(rpn, {x: a, y: b})` equals `evaluateRPNXY(rpn, a, b)` |
| Evaluator.XYIgnoresYWhenUnused | DsignCalculator/core/evaluator/evaluator.h:11-120 | on a program with no variable `y`, `evaluateRPNXY` agrees with `evaluateRPNVec` |
| Evaluator.OperatorStep | DsignCalculator/core/evaluator/evaluator.h:23-31 | an Operator with fewer than 2 values throws "Invalid expression"; otherwise it pops b, then a, and pushes `a op b` |
| Evaluator.FunctionUnderflow | DsignCalculator/core/evaluator/evaluator.h:34 | a Function throws "Function args" exactly when the stack holds fewer than `arity` values (a negative arity, cast to `size_t`, always does) |
| Evaluator.OtherArityPushesZero | DsignCalculator/core/evaluator/evaluator.h:33-58 | a Function of arity other than 1 and 2 pops nothing and pushes 0 |
| Evaluator.UnknownFunctionsAreNaN | DsignCalculator/core/evaluator/evaluator.h:36-57 | an unknown function name of arity 1 or 2 yields NaN |
| Evaluator.NegAndAbs | DsignCalculator/core/evaluator/evaluator.h:48-49 | `neg` yields −a; `abs` yields a non-negative value equal to a or −a |
| Evaluator.BinaryProgram | DsignCalculator/core/evaluator/evaluator.h:14-63 | `u v op` evaluates to `u op v` |
| Evaluator.SubtractAndPower | DsignCalculator/core/evaluator/evaluator.h:25-31 | `5 3 -` gives 2 and `2 3 ^` gives pow(2, 3) |
| Evaluator.UnboundVariableIsZero | DsignCalculator/core/evaluator/evaluator.h:127-135 | `q 1 +` with an empty environment gives 1 |
| Evaluator.FinalSizeMustBeOne | DsignCalculator/core/evaluator/evaluator.h:62 | an empty program, or two values with no operator, throws "Invalid evaluation" |
| Contour.CellMask | DsignCalculator/core/grapher/grapher.cpp:54-58 | the cell mask is in [0, 16) |
| Contour.MaskBits | DsignCalculator/core/grapher/grapher.cpp:55-58 | bit k of the mask is set exactly when corner k is at least iso; a NaN corner never sets its bit |
| Contour.CornerPositions | DsignCalculator/core/grapher/grapher.cpp:70-73 | corners 0 and 3 lie on x0 + i·dx, corners 1 and 2 on x0 + (i+1)·dx; corners 0 and 1 lie on y0 + j·dy, corners 2 and 3 on y0 + (j+1)·dy |
| Contour.MarchingSquares | DsignCalculator/core/grapher/grapher.cpp:43-126 | the nested j/i loops return exactly `Segments`: each cell's segment, in row-major order |
| Contour.VisitRow | DsignCalculator/core/grapher/grapher.cpp:48-123 | the inner loop returns exactly the row's segments from left to right |
| Contour.VisitCell | DsignCalculator/core/grapher/grapher.cpp:49-122 | one cell gives the segment its case selects, or nothing |
| Contour.TrivialMasksOnly | DsignCalculator/core/grapher/grapher.cpp:60-120 | only masks 0 and 15 emit nothing; every other mask selects an edge pair |
| Contour.ComplementSameEdges | DsignCalculator/core/grapher/grapher.cpp:76-119 | masks m and 15 − m select the same edge pair |
| Contour.StraddlingCases | DsignCalculator/core/grapher/grapher.cpp:77-107 | for masks 1–5 and 10–14 both chosen edges straddle iso |
| Contour.NonStraddlingCases | DsignCalculator/core/grapher/grapher.cpp:108-119 | for masks 6–9, as written, exactly one of the two chosen edges straddles iso |
| Contour.LerpEndpoints | DsignCalculator/core/grapher/grapher.cpp:38-40 | `lerpPoint` gives A at t = 0 and B at t = 1 |
| Contour.InterpBetween | DsignCalculator/core/grapher/grapher.cpp:62-68 | on an edge whose ends lie on opposite sides of iso, t lies in [0, 1] |
| Contour.NaNCornerGivesNaNPoint | DsignCalculator/core/grapher/grapher.cpp:62-68 | a NaN corner value makes the interpolated point NaN |
| Contour.SegmentPointsOnEdges | DsignCalculator/core/grapher/grapher.cpp:62-107 | in a straddling case with finite corners, the cell emits one segment: the two interpolated points of its chosen edges, each with t in [0, 1] |
| Contour.SegmentCount | DsignCalculator/core/grapher/grapher.cpp:47-123 | at most (nx−1)(ny−1) segments, each of two points |
| Contour.NoCellsNoSegments | DsignCalculator/core/grapher/grapher.cpp:47-48 | a grid one row or column wide has no cells and yields nothing |
| Grapher.RpnUsesY | DsignCalculator/core/grapher/grapher.cpp:9-12 | true exactly when some Variable token has text `y` |
| Grapher.SampleOne | DsignCalculator/core/grapher/grapher.cpp:20-32 | one loop body: the value at x from the program with only `x` overridden, or nothing when evaluation throws or is not finite |
| Grapher.OnlyXOverridden | DsignCalculator/core/grapher/grapher.cpp:22-25 | the local copy of env differs from the caller's only at `x` |
| Grapher.ComputeWorldSamplesFromRPN | DsignCalculator/core/grapher/grapher.cpp:14-35 | the `x += step` loop returns exactly `WorldSamples` |
| Grapher.WorldSamplesSound | DsignCalculator/core/grapher/grapher.cpp:16-33 | an empty program gives no samples; every sample lies on the grid xMin + k·step within [xMin, xMax], carries the program's finite value there, and x increases strictly |
| Grapher.WorldSamplesComplete | DsignCalculator/core/grapher/grapher.cpp:19-30 | every grid point xMin + n·step ≤ xMax with a finite value is among the samples |
| Grapher.SamplesFromIncreasing | DsignCalculator/core/grapher/grapher.cpp:19 | sample x coordinates strictly increase |
| Grapher.SampleVertices | DsignCalculator/core/grapher/grapher.cpp:175-182 | with no screen width, there is one vertex per sample, in order, at (centerX + x·scale, centerY − y·scale) |
| Grapher.PlotSamples | DsignCalculator/core/grapher/grapher.cpp:176-181 | the loop computes `SampleVertices` |
| Grapher.PointVertices | DsignCalculator/core/grapher/grapher.cpp:164-168 | a segment's points map one-to-one to screen vertices |
| Grapher.PlotSegments | DsignCalculator/core/grapher/grapher.cpp:163-169 | the nested loop computes `SegmentVertices` |
| Grapher.SegmentVerticesPairs | DsignCalculator/core/grapher/grapher.cpp:163-169 | each 2-point segment contributes exactly its two points, in order, as vertices 2k and 2k+1 |
| Grapher.BucketIsMinMax | DsignCalculator/core/grapher/grapher.cpp:188-194 | a column's bucket is empty exactly when no sample falls in it; otherwise it holds the least and greatest y of its samples |
| Grapher.FillBuckets | DsignCalculator/core/grapher/grapher.cpp:185-194 | after the loop, `has`, `minY` and `maxY` hold every column's bucket; samples outside [0, screenWidth) are dropped |
| Grapher.BucketColumns | DsignCalculator/core/grapher/grapher.cpp:185-202 | the bucketing path returns exactly `Bucketed` |
| Grapher.ColumnVerticesShape | DsignCalculator/core/grapher/grapher.cpp:196-201 | an empty column emits nothing; an occupied one emits one vertex, plus one more only when maxY ≠ minY, all at x = px |
| Grapher.BucketedOrdered | DsignCalculator/core/grapher/grapher.cpp:195-202 | vertices come in non-decreasing column order, each at an integral occupied column in [0, width), at most 2·width in all |
| Grapher.BucketedTwoPerColumn | DsignCalculator/core/grapher/grapher.cpp:195-202 | no column holds three vertices: two vertices at least two places apart lie in strictly increasing columns, so each column emits at most its min and its max |
| Grapher.BucketedHasColumns | DsignCalculator/core/grapher/grapher.cpp:195-200 | every occupied column contributes its minimum vertex |
| Grapher.FillGrid | DsignCalculator/core/grapher/grapher.cpp:144-160 | the nested loops compute `Grid`, NaN where the evaluation throws |
| Grapher.GridShape | DsignCalculator/core/grapher/grapher.cpp:136-160 | the grid is ny × nx with nx = min(300, width) and ny = min(300, height), both at least 1; a throwing cell holds NaN |
| Grapher.GridCoordIsLinear | DsignCalculator/core/grapher/grapher.cpp:142-148 | grid line i lies at lo + i·(hi − lo)/(n − 1) |
| Grapher.ContourVertexCount | DsignCalculator/core/grapher/grapher.cpp:161-169 | a contour yields two vertices per segment, at most (nx−1)(ny−1) segments |
| Grapher.ImplicitVertexCount | DsignCalculator/core/grapher/grapher.cpp:133-170 | the implicit path yields an even number of vertices, at most 2(nx−1)(ny−1) |
| Grapher.ComputeGraphFromRPN | DsignCalculator/core/grapher/grapher.cpp:128-204 | the imperative grapher returns exactly `GraphFromRPN` |
| Grapher.GraphShape | DsignCalculator/core/grapher/grapher.cpp:130-203 | an empty program draws nothing; the contour path gives an even number of vertices, at most 2(nx−1)(ny−1); with width ≤ 0 there is one vertex per world sample, at its screen position, in order; with width > 0 the vertices sit at integral columns in [0, width) that some sample falls in, left to right, with no column holding more than two |
| Calculator.Find | DsignCalculator/DsignCalculator.cpp:17 | `std::string::find` from p returns a position at or after p where the pattern fits |
| Calculator.FindSpec | DsignCalculator/DsignCalculator.cpp:17 | `find` returns the first occurrence at or after p; it returns none exactly when there is no occurrence there |
| Calculator.FindChar | DsignCalculator/DsignCalculator.cpp:31 | a character is found exactly when it occurs, at its first occurrence |
| Calculator.Splice | DsignCalculator/DsignCalculator.cpp:18 | `replace(p, n, b)` changes the length by \|b\| − n |
| Calculator.SpliceChars | DsignCalculator/DsignCalculator.cpp:18 | the text before p is kept, b is inserted, and the text after the replaced block follows |
| Calculator.ReplaceAll | DsignCalculator/DsignCalculator.cpp:15-21 | the `replaceAll` loop computes `Replaced`, which is the reference substitution `Substituted`: the text between occurrences is kept, each leftmost non-overlapping occurrence of a becomes b, and scanning continues after it |
| Calculator.ReplacedIsSubstituted | DsignCalculator/DsignCalculator.cpp:15-21 | for every string and every non-empty pattern, the find/replace/resume loop equals the left-to-right substitution that keeps each char outside an occurrence and writes b for each occurrence |
| Calculator.ReplacedAbsent | DsignCalculator/DsignCalculator.cpp:15-21 | `replaceAll` leaves a string without the pattern unchanged |
| Calculator.ReplacedRemovesPattern | DsignCalculator/DsignCalculator.cpp:15-21 | after `replaceAll(a, b)` with a non-ASCII pattern and a non-empty ASCII replacement, a no longer occurs |
| Calculator.ReplacedKeepsAbsent | DsignCalculator/DsignCalculator.cpp:15-21 | `replaceAll` with an ASCII replacement never creates a non-ASCII pattern that was absent |
| Calculator.SymbolRulesWellFormed | DsignCalculator/DsignCalculator.cpp:23-28 | each of the six symbol patterns is non-empty and non-ASCII, and each replacement is non-empty ASCII |
| Calculator.ApplyRulesRemovesSymbols | DsignCalculator/DsignCalculator.cpp:23-28 | after a run of such replacements, none of their patterns occurs |
| Calculator.AsciiSymbolsClean | DsignCalculator/DsignCalculator.cpp:23-28 | after the six replacements, no π, Φ, φ, ·, × or − byte sequence occurs |
| Calculator.AsciiSymbolsIdentity | DsignCalculator/DsignCalculator.cpp:23-28 | an ASCII line, which is every line typed into an input box (only codes below 128 are appended at `DsignCalculator.cpp:375-377`), passes the six replacements unchanged |
| Calculator.ReplaceSymbols | DsignCalculator/DsignCalculator.cpp:14-28 | the six `replaceAll` calls, in order, compute `AsciiSymbols`, and return an ASCII input unchanged |
| Calculator.Trim | DsignCalculator/DsignCalculator.cpp:36-40 | the two index loops compute `Trimmed` |
| Calculator.TrimmedTight | DsignCalculator/DsignCalculator.cpp:36-40 | a trimmed string neither starts nor ends with whitespace |
| Calculator.TrimmedInfix | DsignCalculator/DsignCalculator.cpp:36-40 | the trimmed string is a contiguous substring with only whitespace outside it |
| Calculator.TrimmedOfTight | DsignCalculator/DsignCalculator.cpp:36-40 | trimming a string with no outer whitespace changes nothing |
| Calculator.TrimmedIdempotent | DsignCalculator/DsignCalculator.cpp:36-40 | trimming twice equals trimming once |
| Calculator.TrimmedEmptyIff | DsignCalculator/DsignCalculator.cpp:36-40 | trimming gives the empty string exactly when the input is all whitespace |
| Calculator.NormalizeExpression | DsignCalculator/DsignCalculator.cpp:13-45 | `normalizeExpression` computes `Normalized` |
| Calculator.NormalizedPlain | DsignCalculator/DsignCalculator.cpp:31-44 | with no `=`, the result is the symbol-replaced string and nothing else changes |
| Calculator.NormalizedEquation | DsignCalculator/DsignCalculator.cpp:31-42 | with `=`, the line splits at the first `=` into `(trim(lhs))-(trim(rhs))`, and later `=` signs stay in rhs |
| Calculator.AssignedNoEquals | DsignCalculator/DsignCalculator.cpp:49-50 | a line without `=` leaves env unchanged |
| Calculator.AssignedAt | DsignCalculator/DsignCalculator.cpp:49-65 | a blank name, a blank value or a `stod` failure leaves env unchanged; otherwise `env[trim(name)]` becomes the value |
| Calculator.AssignedFrame | DsignCalculator/DsignCalculator.cpp:59-62 | every key other than the assigned name keeps its value |
| Calculator.ZoomedScale | DsignCalculator/DsignCalculator.cpp:294-297 | a wheel zoom leaves the scale in [1.0, 4000.0] |
| Calculator.ZoomDirection | DsignCalculator/DsignCalculator.cpp:294-295 | a positive delta never zooms out and any other delta never zooms in |
| Calculator.ZoomRoundTrip | DsignCalculator/DsignCalculator.cpp:294-297 | away from the clamp, zooming in and then out restores the scale |
| Calculator.AdaptiveStep | DsignCalculator/DsignCalculator.cpp:144-146 | the step is at least 0.001 and at least 0.5/s, and equals one of them |
| Calculator.AdaptiveStepRange | DsignCalculator/DsignCalculator.cpp:142-146 | within the zoom range the step is at most 0.5, and it is 0.001 exactly when s ≥ 500 |
| Calculator.EnterCommits | DsignCalculator/DsignCalculator.cpp:344-371 | a failing `tokenize` or `shuntingYard` keeps the slot; a commit carries a non-empty graph, the input's own postfix form, and the graph-area centre |
| Calculator.CompiledEmpty | DsignCalculator/DsignCalculator.cpp:355-357 | an empty line normalises to itself and compiles to an empty postfix program |
| Calculator.EnterEmptyInput | DsignCalculator/DsignCalculator.cpp:358-366 | Enter on an empty line never commits |
| Calculator.CompileLine | DsignCalculator/DsignCalculator.cpp:355-357 | normalise, tokenize, parse: computes `Compiled` |
| Calculator.GraphLine | DsignCalculator/DsignCalculator.cpp:345-358 | the graph over ±(graphW/2)/scale at the adaptive step, centred on the graph area: computes `EnterGraph` |
| Calculator.PlotLine | DsignCalculator/DsignCalculator.cpp:344-371 | the try block computes `EnterOutcome` |
| Calculator.Session.constructor | DsignCalculator/DsignCalculator.cpp:135-141 | start-up: scale 50 and an empty env, with three empty slots |
| Calculator.Session.AddInputBox | DsignCalculator/DsignCalculator.cpp:111-119 | adds one empty slot to every vector, unless fifteen already exist; nothing else changes |
| Calculator.Session.ComputeAllGraphs | DsignCalculator/DsignCalculator.cpp:149-170 | every slot with a program is graphed again over the visible x range around the given centre and takes that centre; a slot without a program is cleared and keeps its centre; texts, programs, env and scale stay |
| Calculator.RecomputeRangeIsEnterRange | DsignCalculator/DsignCalculator.cpp:154-156 | a recompute around the graph area's centre samples exactly Enter's x range `[-xRange, xRange]` (lines 349-351) if and only if there is no horizontal pan |
| Calculator.Session.Zoom | DsignCalculator/DsignCalculator.cpp:289-302 | over the graph area, the scale becomes the clamped zoom and every slot is recomputed around the centre of the graph area; elsewhere nothing changes; texts, programs and env never change |
| Calculator.Session.ZoomScale | DsignCalculator/DsignCalculator.cpp:294-297 | the scale becomes `ZoomedScale(scale, delta)`, one factor in or out and then clamped to [1, 4000]; nothing else changes |
| Calculator.Session.ParseParamAssignment | DsignCalculator/DsignCalculator.cpp:47-66 | env becomes `Assigned(line, env)`; nothing else changes |
| Calculator.Session.Enter | DsignCalculator/DsignCalculator.cpp:344-371 | slot `active` is replaced only when every stage succeeds with a non-empty graph; otherwise every slot keeps its previous graph, text, program and centre |

## Left out

- The SFML window, the event loop and all rendering are not modelled. These cover drawing, fonts, the sidebar, the legend, tick labels, mouse hit-testing, typing into boxes, colours and the palette (`DsignCalculator.cpp` outside the cited lines, and `drawGraph` at `core/grapher/grapher.cpp:213-225`). They are I/O.
- `computeGraph` (`core/grapher/grapher.cpp:206-211`) is not modelled. It only chains `tokenize`, `shuntingYard` and `computeGraphFromRPN`, which are modelled.
- `Calculator.Session.ParseParamAssignment`: Enter in a parameter box runs `parseParamAssignment` and then `computeAllGraphs` (`DsignCalculator.cpp:321-335`). The model has both steps, as `Calculator.Session.ParseParamAssignment` and `Calculator.Session.ComputeAllGraphs`, but does not state their composition as one event.
- `computeAllGraphs` resizes the slot vectors to the number of input boxes first (`DsignCalculator.cpp:159-162`). The model keeps all slot vectors the same length at all times, so that resize never changes anything and is not modelled. Panning is mouse input: the pan offsets are parameters, and the recomputes a drag triggers (`DsignCalculator.cpp:266-274` on release, `DsignCalculator.cpp:389-397` after an idle time on a clock) are `Calculator.Session.ComputeAllGraphs` calls that the model does not sequence.
- The parameter boxes (`addParamBox`, adding a box once all are filled) are not modelled. They are UI layout, and only `parseParamAssignment` on `env` is modelled.
- Floating point is not modelled. A `double` is an exact real or NaN, so rounding, infinities, overflow and the `static_cast<float>` truncations are missing. So is the drift that `x += step` accumulates: sample k lies exactly at xMin + k·step. Pixel columns use the exact floor of centerX + x·scale.
- `isfinite` is modelled as "not NaN". There are no infinities.
- `Calculator.ZoomRoundTrip`: the round trip is exact only over the reals. In `double` arithmetic, `scale * 1.12 / 1.12` may differ in the last bit.
- The transcendental functions and the evaluator's `/` and `pow` have no properties in the model: they are parameters. The evaluator computes only `+`, `-`, `*`, `neg` and `abs` itself; the grapher's and the UI's own divisions are exact real divisions.
- `std::stod` in `tokenize` is modelled as an exact, unbounded decimal reading of `digits [. digits]`; a literal without digits throws.
- `Tokenizer.OnlyBareDotFails`: `std::out_of_range`, which `std::stod` throws in `tokenize` (`core/tokenizer/tokenizer.cpp:63`) on a literal outside the `double` range such as `1` followed by 400 zeros, is not modelled. In the source that exception leaves `tokenize`, and Enter's catch (`DsignCalculator.cpp:369`) keeps the slot. The model reads such a literal exactly and commits the graph.
- `std::stod` in `parseParamAssignment` is a parameter `stod: string -> Option<Double>`. Its prefix parsing, exponents and range errors are not modelled there.
- The `cancel` parameter of `computeGraphFromRPN` is left out, since it is never read.
- `reserve` calls and the sample-count estimate are left out. They do not change results.
- The infinity initialisers of `minY` and `maxY` are left out. The model writes a column's bounds only when a value arrives, which is the same result.
- `Grapher.ComputeWorldSamplesFromRPN`: does not cover `step <= 0` with `xMin <= xMax`; it requires `step > 0.0 || xMin > xMax`. The source loop does not terminate in that case. Enter always gives a step of at least 0.001.
- `Grapher.ComputeGraphFromRPN`: requires `scale != 0.0`. The source would divide by zero in the world bounds, so that case is not modelled. The UI scale never leaves [1, 4000]. It, `GraphFromRPN` and `Grapher.GraphShape` also require `step > 0.0 || xMin > xMax` on every path, including the empty-program and contour paths, which never read the step. Both callers in the program pass a step of at least 0.001, so no call they make is excluded.
- `Grapher.Spacing`: a grid one sample wide (n = 1) gets spacing 0.0. The source divides by n − 1 = 0 there, but such a grid has no cells, so no spacing is ever used.
- `Calculator.ReplaceAll`: requires a non-empty pattern. The source loop does not terminate on an empty one, and every call uses a non-empty literal.
- `Calculator.Session.Zoom`: `overGraph` stands for the test `mpos.x < graphW` on the mouse position, which is I/O.
- `Calculator.Session.Enter`: does not model the empty slot `addInputBox` appends after every typed character, Enter included, once all input boxes are non-empty (`DsignCalculator.cpp:380-385`). The box texts `currentInput` are UI state outside the model, and that test reads them.
- `Calculator.Session.Enter`: the input text, the window size and the pan offsets are parameters. `currentInput` and the window are UI state.
- The centres written on Enter and by `computeAllGraphs` are `float` in the source and exact reals in the model.
- Strings hold one `char` per byte. The UTF-8 symbols that `normalizeExpression` replaces are written as their byte values.
- `std::cerr` diagnostics are left out.
