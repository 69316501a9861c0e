# Numerical methods calculator — a verified model of its core

The calculator integrates a function typed as text over an interval `[a, b]`
with one of five quadrature rules, and shows the result beside a known exact
value when it has one. This project models, in Dafny, the three parts that
do the work:

- **The expression evaluator** (`src/lib/parser.ts`). `MathParser` is a class
  with a `tokens` list and a `position` cursor. Its `tokenize` loop cuts the
  text into number runs, operators and names, and drops every other
  character. Its recursive-descent methods evaluate the tokens at a given
  `x`, with `+ -` below `* /` below `^` below a factor. The free function
  `evaluateExpression` reads integration limits: it spells out `pi` and `e`,
  reads a plain numeral directly, and otherwise runs the parser at `x = 0`,
  falling back to `Number.parseFloat` when that throws.
  - In the model, the grammar is a set of pure functions over a token sequence
    and a position (`Parser.Expression`, `Binary`, `Operand`, `Fold`, `Factor`).
  - The class `Parser.MathParser` keeps the source's fields and loops.
  - Every method of the class is proved to compute the grammar function for
    its level and to leave `position` where that function says.
- **The quadrature rules** (`src/components/models/*.tsx`). These are the
  composite trapezoid rule, Simpson's 1/3 and 3/8 rules, Boole's rule and an
  open Simpson rule. Each has a `calculate` that returns a number, and a
  `getDetails` that also lists one `CoefficientIteration`
  `{i, xi, fxi, coef, term}` per sample point.
  - Each rule's table is a function (`Table`). `getDetails` is proved to build
    exactly that table, and `calculate` to return the normalising factor
    times the sum of its terms.
  - Lemmas state the table's shape, the weights' sum and what the rule gives
    for a constant (exact for four rules, short by `4c(b-a)/3N` for the open
    rule). Simpson's 1/3 and 3/8 rules are proved exact for every polynomial
    of degree at most three on any interval, and Boole's rule for degree at
    most five: each monomial is integrated exactly, and the rule is linear.
- **The analytical values** (`src/lib/analyticalValues.ts`). `getValorAnalitico`
  cleans the integrand's text. It then tries six special cases and then a
  constant table keyed by `${a},${b}`.

What the model takes as given:

- Numbers are exact reals.
- `Math.sin`, `cos`, `tan`, `sqrt`, `log`, `exp`, `abs` and `pow` are
  arbitrary functions gathered in a `JsRuntime.MathLib` record.
- JavaScript's number-to-string conversion and `Number.parseFloat` (on texts
  that are not plain numerals) are parameters.
- `Math.PI` and `Math.E` are the values of the numerals `String(Math.PI)` and
  `String(Math.E)` write.

## Model

| member | source | states |
|---|---|---|
| JsRuntime.NatToString | src/components/models/openSimpsonMethod.tsx:38 | the decimal text of a count is a non-empty run of digits, with no leading zero, whose value is the count |
| JsRuntime.IntToString | src/components/models/openSimpsonMethod.tsx:38 | a negative count is written as `-` followed by the digits of its magnitude, a non-negative one as its digits |
| JsRuntime.FractionBounds | src/lib/parser.ts:195 | the digits after the point of a numeral contribute a value in `[0, 1)` |
| JsRuntime.PiBounds | src/lib/parser.ts:190 | the value of the text that replaces `pi` lies in `[3, 4)` |
| JsRuntime.ConstantTextsAreNumerals | src/lib/parser.ts:190 | the texts of `Math.PI` and `Math.E` are unsigned numerals with one digit before the point |
| Tokenizer.RunEnd | src/lib/parser.ts:33-36 | a run read from `i` stops at the first character outside the class (or the end), and everything before that belongs to it |
| Tokenizer.RunEndUnique | src/lib/parser.ts:33-36 | any end with those two properties is the one the run finds, so runs are maximal |
| Tokenizer.TokenShapes | src/lib/parser.ts:16-62 | every token is a run of digits and dots, one of `+ - * / ^ ( )`, or a letter followed by letters, digits and `_` |
| Tokenizer.RunsAreMaximal | src/lib/parser.ts:31-57 | a number token or name token starting at `i` is followed by the end of the text or by a character that cannot extend it |
| Tokenizer.NumberRunKept | src/lib/parser.ts:31-39 | the characters of a number run are all kept, in order |
| Tokenizer.NameRunKept | src/lib/parser.ts:49-57 | the characters of a name run are all kept, in order |
| Tokenizer.ConcatTokensIsKept | src/lib/parser.ts:21-61 | the tokens read from any position concatenate to the text from there with exactly the dropped characters removed |
| Tokenizer.TokenizationRoundTrip | src/lib/parser.ts:16-62 | concatenating the tokens gives back the input minus the characters tokenizing drops (spaces, commas, a `_` that starts no name, …), order preserved |
| Parser.Apply | src/lib/parser.ts:76-123 | a binary operator fails exactly when it is `/` with a zero right operand, and then with the division-by-zero error |
| Parser.ApplyProduct | src/lib/parser.ts:101-102 | `*` multiplies |
| Parser.ApplyQuotient | src/lib/parser.ts:103-105 | `/` by a non-zero value divides |
| Parser.ApplyFunction | src/lib/parser.ts:163-181 | a named call fails exactly for a name outside sin/cos/tan/sqrt/log/exp/abs, with "Función desconocida" |
| Parser.Expression | src/lib/parser.ts:65-67 | a successful parse consumes at least one token and stays inside the list; a division-by-zero failure needs a `/` at or after the start |
| Parser.Binary | src/lib/parser.ts:70-127 | the same progress and division-by-zero facts for each of the three operator levels |
| Parser.Operand | src/lib/parser.ts:71-123 | the same facts for the operand one level tighter |
| Parser.Fold | src/lib/parser.ts:73-125 | the operator loop never moves the cursor backwards or past the end, and reports division by zero only past a `/` |
| Parser.Factor | src/lib/parser.ts:130-184 | a factor consumes at least one token when it succeeds; division by zero inside it comes from a `/` inside it |
| Parser.BinaryStart | src/lib/parser.ts:71 | each level first parses one operand one level tighter, fails with its error, or continues folding from where it stopped |
| Parser.FoldTurn | src/lib/parser.ts:73-86 | one turn of the operator loop consumes the operator and an operand, fails with the operand's or the operator's error, or folds the applied result |
| Parser.FoldTurnAdd | src/lib/parser.ts:80-81 | a `+` turn adds the right operand to the running value |
| Parser.FoldTurnSubtract | src/lib/parser.ts:82-84 | a `-` turn subtracts the right operand from the running value |
| Parser.FoldTurnMultiply | src/lib/parser.ts:101-102 | a `*` turn multiplies the running value |
| Parser.FoldTurnDivide | src/lib/parser.ts:103-105 | a `/` turn fails with "División por cero" on a zero operand and divides otherwise |
| Parser.FoldTurnPower | src/lib/parser.ts:116-123 | a `^` turn raises the running value with `Math.pow`, folding to the left |
| Parser.FoldStop | src/lib/parser.ts:73-75 | the loop stops, with the value so far and the cursor where it is, at the end or at a token that is not an operator of its level |
| Parser.MathParser.constructor | src/lib/parser.ts:3-6 | a new parser has no tokens and its cursor at 0 |
| Parser.MathParser.Evaluate | src/lib/parser.ts:9-13 | every call re-tokenizes and restarts at 0, so the outcome is a function of the text and `x` alone; trailing tokens are not checked |
| Parser.MathParser.Tokenize | src/lib/parser.ts:16-62 | the token list the loop builds is the tokenization of the text |
| Parser.MathParser.ReadRun | src/lib/parser.ts:33-36 | an inner loop reads exactly the maximal run from `i` |
| Parser.MathParser.ParseExpression | src/lib/parser.ts:65-67 | computes the grammar's value and leaves the cursor after what it read |
| Parser.MathParser.ParseAddSubtract | src/lib/parser.ts:70-88 | computes the left fold of `+` and `-` over products, and leaves the cursor after it |
| Parser.MathParser.ParseMultiplyDivide | src/lib/parser.ts:91-110 | computes the left fold of `*` and `/` over powers and fails on a zero divisor |
| Parser.MathParser.ParsePower | src/lib/parser.ts:113-127 | computes the left fold of `^` over factors |
| Parser.MathParser.ParseFactor | src/lib/parser.ts:130-184 | reads a parenthesis, a numeral, `x`, `pi`/`e`, or a function call, with each of the five error messages in its case |
| ParserProperties.ExpressionIgnoresX | src/lib/parser.ts:154-156 | without an `x` token the parse has the same outcome for any `x` |
| ParserProperties.BinaryIgnoresX | src/lib/parser.ts:154-156 | the same at every operator level |
| ParserProperties.OperandIgnoresX | src/lib/parser.ts:154-156 | the same for an operand |
| ParserProperties.FoldIgnoresX | src/lib/parser.ts:154-156 | the same for an operator loop |
| ParserProperties.FactorIgnoresX | src/lib/parser.ts:154-156 | the same for a factor |
| ParserProperties.EvaluationIgnoresX | src/lib/parser.ts:9-13 | an expression with no `x` token evaluates to the same result for every `x` |
| ParserProperties.BinaryFailsWithFactor | src/lib/parser.ts:130-184 | a failing first factor makes every level fail with the factor's error |
| ParserProperties.EmptyIsIncomplete | src/lib/parser.ts:131-133 | a text with no tokens fails with "Expresión incompleta" |
| ParserProperties.LeadingMinusFails | src/lib/parser.ts:183 | there is no unary minus: an expression starting with `-` always fails, and with "Token inesperado: -" unless `(` follows |
| ParserProperties.NoNegativeNumeralTokens | src/lib/parser.ts:31-39 | a numeral token never carries a sign |
| ParserProperties.NumeralFactor | src/lib/parser.ts:149-151 | a numeral token is read as its value and consumes one token |
| ParserProperties.OneLevel | src/lib/parser.ts:75-116 | every operator belongs to one level only |
| ParserProperties.LooserOperator | src/lib/parser.ts:75-116 | an operator of a looser level stops the loop of a tighter one |
| ParserProperties.FactorAlone | src/lib/parser.ts:70-127 | a factor followed by a looser operator (or nothing) is the whole operand at that level |
| ParserProperties.FoldsFromTheLeft | src/lib/parser.ts:70-127 | `a o1 b o2 c` with two operators of one level, `^` included, is `(a o1 b) o2 c` |
| ParserProperties.WholeAtLooserLevels | src/lib/parser.ts:65-110 | a value one level reads to the end of the tokens is the value of the whole expression: the looser loops find no operator |
| ParserProperties.TighterOnTheRight | src/lib/parser.ts:70-127 | for `o1` of one level and `o2` of the next tighter level (`+ -` then `* /`, or `* /` then `^`), `a o1 b o2 c` is `a o1 (b o2 c)` |
| ParserProperties.TighterOnTheLeft | src/lib/parser.ts:70-127 | for the same pairs of levels, `a o2 b o1 c` is `(a o2 b) o1 c` |
| ParserErrors.UnclosedParenthesis | src/lib/parser.ts:139-146 | `( a` with no `)` fails with "Paréntesis no cerrado" |
| ParserErrors.NameIsNoNumeral | src/lib/parser.ts:149 | a name token, which starts with a letter, never matches the numeral pattern |
| ParserErrors.UnclosedFunctionCall | src/lib/parser.ts:163-180 | `name ( a` with no `)` fails with "Paréntesis no cerrado en función", whatever the name |
| ParserErrors.UnexpectedToken | src/lib/parser.ts:130-183 | a first token that is not `(`, a numeral, `x`, `pi` or `e`, and has no `(` after it, fails with "Token inesperado" naming that token |
| ParserErrors.BareNameIsUnexpected | src/lib/parser.ts:162-183 | a name standing alone, such as `sin`, is no call and fails as unexpected |
| ParserErrors.MalformedNumbers | src/lib/parser.ts:149-151 | `.5` and `1.2.3` are number tokens but not numerals, so each fails as unexpected |
| LimitEvaluation.ConstantTextsHaveNoLetters | src/lib/parser.ts:190 | the replacement texts hold no letter, so they cannot create a new `pi` or `e` |
| LimitEvaluation.ReplacePiHead | src/lib/parser.ts:190 | after replacing `pi`, a non-empty text is still non-empty, and its first character is either the original one or not a letter |
| LimitEvaluation.ReplacePiLeavesNoPi | src/lib/parser.ts:190 | no `pi`, in any case, is left after the replacement |
| LimitEvaluation.ReplacePiKeepsPiFree | src/lib/parser.ts:190 | a text without `pi` is unchanged |
| LimitEvaluation.ReplacePiIdempotent | src/lib/parser.ts:190 | replacing twice is replacing once |
| LimitEvaluation.ReplaceEKeepsEFree | src/lib/parser.ts:190 | a text without an `e` standing before a non-letter is unchanged |
| LimitEvaluation.ReplaceELength | src/lib/parser.ts:190 | each lone `e` lengthens the text by the length of `String(Math.E)` less one |
| LimitEvaluation.EvaluateExpression | src/lib/parser.ts:188-205 | the limit is the numeral's value, or the parser's value at `x = 0`, or `parseFloat`'s after a parser error; the parser's state changes only when it is used |
| LimitEvaluation.ConstantTextsStay | src/lib/parser.ts:190 | the `e` replacement leaves both constant texts alone |
| LimitEvaluation.NumeralLimit | src/lib/parser.ts:195-197 | a text that is a numeral after substitution is read as that numeral |
| LimitEvaluation.PiLimit | src/lib/parser.ts:190-197 | `pi` is the limit π |
| LimitEvaluation.MinusPiLimit | src/lib/parser.ts:190-197 | `-pi` is the limit -π, through the signed numeral path |
| LimitEvaluation.MinusPiText | src/lib/parser.ts:190-195 | `-pi` becomes `-` followed by the text of π, a signed numeral |
| LimitEvaluation.ELimit | src/lib/parser.ts:190-197 | `e` is the limit e |
| LimitEvaluation.TwoPiLimit | src/lib/parser.ts:190-197 | `2pi` is not 2π: the texts run together into the numeral `23.14159…`, that is 20 + π |
| LimitEvaluation.TwoPiText | src/lib/parser.ts:190 | `2pi` becomes `2` followed by the text of π |
| LimitEvaluation.SpelledPi | src/lib/parser.ts:190 | `pi` becomes the text of π |
| LimitEvaluation.NonLetterBeforePi | src/lib/parser.ts:190 | a character before `pi` that is not a letter is kept |
| LimitEvaluation.TwoPiValue | src/lib/parser.ts:195-196 | the numeral `2` followed by the text of π has the value 20 + π |
| LimitEvaluation.PrependDigit | src/lib/parser.ts:195-196 | a digit put in front of a one-digit-integer numeral adds ten times its value |
| LimitEvaluation.NoLettersStay | src/lib/parser.ts:190 | a text with no letters passes the substitution unchanged |
| LimitEvaluation.ThreeCharacterTokens | src/lib/parser.ts:16-62 | `d op d` tokenizes to three tokens; `d c d`, where `c` is dropped, to two |
| LimitEvaluation.DigitNumeral | src/lib/parser.ts:149-151 | a single digit is a numeral with the digit's value and no operator |
| LimitEvaluation.DecimalCommaLimit | src/lib/parser.ts:60 | a limit written with a decimal comma, such as `1,5`, reads as its first digit, because the comma is dropped and trailing tokens are ignored |
| LimitEvaluation.DivisionByZeroLimit | src/lib/parser.ts:201-204 | `d/0` makes the parser throw, so the limit is whatever `parseFloat` gives for the text |
| LimitEvaluation.OverZero | src/lib/parser.ts:104 | the parser fails on `d / 0` with the division-by-zero error |
| Iterations.SumsConcat | src/lib/types.ts:10-14 | the sum of terms and the sum of weights of a concatenation are the sums of its parts |
| Iterations.ConstantTermSum | src/lib/types.ts:10-14 | for a constant `c`, the sum of the terms of a sampled table is `c` times the sum of its weights |
| Iterations.PointsAt | src/components/models/trapezoidalMethod.tsx:36-48 | a composite rule's loop yields `count` rows, row `k` at index `from + k`, abscissa `a + (from + k)·h`, with the pattern's weight; the inner loop of openSimpsonMethod.tsx:63-76 is built the same way |
| Iterations.PointsSampled | src/components/models/trapezoidalMethod.tsx:36-48 | every row a composite loop yields holds `f` at its abscissa and `coef · f` as its term; this holds for the open rule's inner loop too |
| Iterations.SampledConcat | src/lib/types.ts:10-14 | joining two sampled tables gives a sampled table |
| Iterations.UniformCoefSum | src/components/models/trapezoidalMethod.tsx:36-48 | `count` rows of one weight `w` add up to `count · w` |
| Trapezoidal.TableSum | src/components/models/trapezoidalMethod.tsx:24-61 | the table's sum is `f(a) + f(b)` plus the interior terms, and its weights are 2 plus the interior weights |
| Trapezoidal.InteriorStep | src/components/models/trapezoidalMethod.tsx:11-14 | one more interior turn adds the row of `a + i·h` with weight 2 and `2·f(a + i·h)` to the sum |
| Trapezoidal.Calculate | src/components/models/trapezoidalMethod.tsx:7-17 | `calculate` equals `h/2` times the sum of the terms `getDetails` lists |
| Trapezoidal.PushInterior | src/components/models/trapezoidalMethod.tsx:36-48 | each interior turn extends the table by its row and the sum by its term |
| Trapezoidal.PushLast | src/components/models/trapezoidalMethod.tsx:51-59 | the row of `b` with weight 1 and index `n` completes the table |
| Trapezoidal.GetDetails | src/components/models/trapezoidalMethod.tsx:19-68 | the iterations are the table and the result is `h/2` times the sum of their terms |
| Trapezoidal.TableAt | src/components/models/trapezoidalMethod.tsx:19-59 | for `n ≥ 1` there are `n + 1` rows, indices `0..n` in order, `a` and `b` with weight 1 at the ends and `a + k·h` with weight 2 between |
| Trapezoidal.TableSampled | src/components/models/trapezoidalMethod.tsx:24-59 | each row holds `f` at its abscissa and `term = coef · fxi` |
| Trapezoidal.CoefficientsSum | src/components/models/trapezoidalMethod.tsx:36-61 | the weights add up to `2n` |
| Trapezoidal.StepsSpan | src/components/models/trapezoidalMethod.tsx:20 | `n` steps of `h` span `b - a` |
| Trapezoidal.ConstantIsExact | src/components/models/trapezoidalMethod.tsx:36-61 | a constant `c` integrates to exactly `c·(b - a)` |
| Trapezoidal.NegativeSegments | src/components/models/trapezoidalMethod.tsx:36-59 | a negative `n` skips the loop and lists only the two ends |
| Simpson13.Calculate | src/components/models/simpsonMethod1-3.tsx:8-18 | `calculate` is `h/3` times the sum of the terms `getDetails` lists; its unused fourth argument is dropped |
| Simpson13.GetDetails | src/components/models/simpsonMethod1-3.tsx:21-53 | the iterations are the three-row table and the result is the value `calculate` gives |
| Simpson13.TableShape | src/components/models/simpsonMethod1-3.tsx:22-39 | three rows, `i = 1, 2, 3`, at `a`, the midpoint and `b`, sampled, weights adding up to 6 |
| Simpson13.ConstantIsExact | src/components/models/simpsonMethod1-3.tsx:41-42 | a constant `c` integrates to exactly `c·(b - a)` |
| Simpson13.SquareOnUnit | src/components/models/simpsonMethod1-3.tsx:41-42 | `x²` on `[0, 1]` gives 1/3 |
| Simpson13.CubeOnUnit | src/components/models/simpsonMethod1-3.tsx:41-42 | `x³` on `[0, 1]` gives 1/4 |
| Simpson13.LinearIsExact | src/components/models/simpsonMethod1-3.tsx:8-18 | `x` on any `[a, b]` gives exactly `(b² - a²)/2` |
| Simpson13.SquareIsExact | src/components/models/simpsonMethod1-3.tsx:8-18 | `x²` on any `[a, b]` gives exactly `(b³ - a³)/3` |
| Simpson13.CubeIsExact | src/components/models/simpsonMethod1-3.tsx:8-18 | `x³` on any `[a, b]` gives exactly `(b⁴ - a⁴)/4` |
| Simpson13.Linearity | src/components/models/simpsonMethod1-3.tsx:8-18 | the rule is linear in the integrand; with the lemmas above, every polynomial of degree at most three integrates exactly |
| Simpson38.Calculate | src/components/models/methodSimpson3-8.tsx:8-19 | `calculate` is `3h/8` times the sum of the terms `getDetails` lists; its unused fourth argument is dropped |
| Simpson38.GetDetails | src/components/models/methodSimpson3-8.tsx:22-58 | the iterations are the four-row table and the result is the value `calculate` gives |
| Simpson38.TableShape | src/components/models/methodSimpson3-8.tsx:23-43 | four rows, `i = 1..4`, at `a`, the two inner thirds and `b`, sampled, weights adding up to 8 |
| Simpson38.ConstantIsExact | src/components/models/methodSimpson3-8.tsx:45-46 | a constant `c` integrates to exactly `c·(b - a)` |
| Simpson38.CubeOnUnit | src/components/models/methodSimpson3-8.tsx:45-46 | `x³` on `[0, 1]` gives 1/4 |
| Simpson38.LinearIsExact | src/components/models/methodSimpson3-8.tsx:8-19 | `x` on any `[a, b]` gives exactly `(b² - a²)/2` |
| Simpson38.SquareIsExact | src/components/models/methodSimpson3-8.tsx:8-19 | `x²` on any `[a, b]` gives exactly `(b³ - a³)/3` |
| Simpson38.CubeIsExact | src/components/models/methodSimpson3-8.tsx:8-19 | `x³` on any `[a, b]` gives exactly `(b⁴ - a⁴)/4` |
| Simpson38.Linearity | src/components/models/methodSimpson3-8.tsx:8-19 | the rule is linear in the integrand; with the lemmas above, every polynomial of degree at most three integrates exactly |
| Boole.Rows | src/components/models/booleMethod.tsx:38-49 | `forEach` yields one row per point |
| Boole.RowsAt | src/components/models/booleMethod.tsx:38-49 | row `k` comes from point `k` and carries the zero-based index `k` |
| Boole.RowsPush | src/components/models/booleMethod.tsx:38-49 | the rows of one more point are the rows so far followed by that point's row, at its zero-based index |
| Boole.PushPoint | src/components/models/booleMethod.tsx:38-49 | each `forEach` turn extends the table by its point's row and the sum by its term |
| Boole.TableRows | src/components/models/booleMethod.tsx:29-49 | the table samples `a`, `a + h`, `a + 2h`, `a + 3h` and `b` itself, with weights 7, 32, 12, 32, 7 and indices 0..4 |
| Boole.Calculate | src/components/models/booleMethod.tsx:7-22 | `calculate` is `2h/45` times the sum of the terms `getDetails` lists |
| Boole.GetDetails | src/components/models/booleMethod.tsx:24-58 | the iterations are the five-row table and the result is the value `calculate` gives |
| Boole.TableWeights | src/components/models/booleMethod.tsx:29-51 | five sampled rows whose weights add up to 90 |
| Boole.ConstantIsExact | src/components/models/booleMethod.tsx:29-51 | a constant `c` integrates to exactly `c·(b - a)` |
| Boole.LinearIsExact | src/components/models/booleMethod.tsx:7-22 | `x` on any `[a, b]` gives exactly `(b² - a²)/2` |
| Boole.SquareIsExact | src/components/models/booleMethod.tsx:7-22 | `x²` on any `[a, b]` gives exactly `(b³ - a³)/3` |
| Boole.CubeIsExact | src/components/models/booleMethod.tsx:7-22 | `x³` on any `[a, b]` gives exactly `(b⁴ - a⁴)/4` |
| Boole.WeightedSum | src/components/models/booleMethod.tsx:7-22 | `calculate` is `2h/45·(7f(a) + 32f(a+h) + 12f(a+2h) + 32f(a+3h) + 7f(b))` with `h = (b - a)/4` |
| Boole.FourthPowerSum | src/components/models/booleMethod.tsx:7-22 | the weights applied to `x⁴` at five equally spaced points give the integral of `x⁴` over them |
| Boole.FourthPowerIsExact | src/components/models/booleMethod.tsx:7-22 | `x⁴` on any `[a, b]` gives exactly `(b⁵ - a⁵)/5` |
| Boole.FifthPowerIsExact | src/components/models/booleMethod.tsx:7-22 | `x⁵` on any `[a, b]` gives exactly `(b⁶ - a⁶)/6` |
| Boole.Linearity | src/components/models/booleMethod.tsx:7-22 | the rule is linear in the integrand; with the lemmas above, every polynomial of degree at most five integrates exactly |
| OpenSimpson.Adjust | src/components/models/openSimpsonMethod.tsx:8-14 | the adjusted count is even and at least 4 |
| OpenSimpson.Table | src/components/models/openSimpsonMethod.tsx:47-88 | the table has exactly `N` rows |
| OpenSimpson.TableSum | src/components/models/openSimpsonMethod.tsx:49-90 | the sum is `f(a + h)`, the inner terms and `f(b - h)`; the weights are 2 plus the inner weights |
| OpenSimpson.AddInner | src/components/models/openSimpsonMethod.tsx:20-24 | each turn of `calculate`'s loop adds the next inner term |
| OpenSimpson.PushInner | src/components/models/openSimpsonMethod.tsx:51-76 | each turn of `getDetails`' loop extends the table by its row and the sum by its term |
| OpenSimpson.PushLast | src/components/models/openSimpsonMethod.tsx:79-88 | the row of `b - h`, weight 1, index `N`, completes the table |
| OpenSimpson.AddLast | src/components/models/openSimpsonMethod.tsx:26 | adding `f(b - h)` after the loop completes the table's sum |
| OpenSimpson.SumInner | src/components/models/openSimpsonMethod.tsx:17-24 | the loop sums `f(a + h)` and the inner terms with weights 4 and 2 |
| OpenSimpson.Sum | src/components/models/openSimpsonMethod.tsx:16-28 | for an adjusted count the value is `h/3` times the sum of the table's terms |
| OpenSimpson.Calculate | src/components/models/openSimpsonMethod.tsx:7-29 | `calculate` adjusts `n` as `getDetails` does and returns the value of its table |
| OpenSimpson.TabulateInner | src/components/models/openSimpsonMethod.tsx:48-76 | the first loop pushes `(1, a + h, 1)` and then the inner rows, and sums their terms |
| OpenSimpson.Tabulate | src/components/models/openSimpsonMethod.tsx:47-90 | the iterations are the table and the result is its value |
| OpenSimpson.AdjustWithNotes | src/components/models/openSimpsonMethod.tsx:32-45 | the reassignments give the adjusted count and the accumulated notes |
| OpenSimpson.GetDetails | src/components/models/openSimpsonMethod.tsx:31-101 | the iterations are the table of the adjusted count, the result is the value `calculate` gives, and the details are the notes followed by the report |
| OpenSimpson.AdjustIsLeast | src/components/models/openSimpsonMethod.tsx:32-45 | the adjusted count is the least even count of at least 4 that is not below `n` |
| OpenSimpson.AdjustKeeps | src/components/models/openSimpsonMethod.tsx:36-45 | a count is kept exactly when it is even and at least 4, and adjusting is idempotent |
| OpenSimpson.NotesIffAdjusted | src/components/models/openSimpsonMethod.tsx:33-45 | the notes are empty exactly when the count is kept |
| OpenSimpson.NotesOrder | src/components/models/openSimpsonMethod.tsx:36-45 | odd and below 3: parity note then minimum note, giving 4; odd otherwise: parity note only, giving `n + 1`; even below 4: minimum note only, giving 4 |
| OpenSimpson.TableAt | src/components/models/openSimpsonMethod.tsx:47-88 | first `(1, a + h, 1)`, then `i = 2..N-1` at `a + i·h` weighted 4 for even and 2 for odd `i`, last `(N, b - h, 1)` |
| OpenSimpson.LastPointTwice | src/components/models/openSimpsonMethod.tsx:63-88 | the last two rows share the abscissa `b - h`, so that point is sampled twice |
| OpenSimpson.TableSampled | src/components/models/openSimpsonMethod.tsx:49-88 | each row holds `f` at its abscissa and `term = coef · fxi` |
| OpenSimpson.InnerCoefSum | src/components/models/openSimpsonMethod.tsx:51-76 | each pair of inner rows adds 6 to the weights |
| OpenSimpson.CoefficientsSum | src/components/models/openSimpsonMethod.tsx:49-90 | the weights add up to `3N - 4` |
| OpenSimpson.ConstantFallsShort | src/components/models/openSimpsonMethod.tsx:49-90 | a constant `c` gives `c·(b - a)` less `4c(b - a)/(3N)`: the rule is not exact on constants |
| AnalyticalValues.StripDx | src/lib/analyticalValues.ts:41 | a final `dx` in any case is removed, and nothing else |
| AnalyticalValues.TrimStart | src/lib/analyticalValues.ts:41 | the leading white space is removed, and only that |
| AnalyticalValues.TrimEnd | src/lib/analyticalValues.ts:41 | the trailing white space is removed, and only that |
| AnalyticalValues.Trim | src/lib/analyticalValues.ts:41 | the trimmed text is no longer and neither starts nor ends with white space |
| AnalyticalValues.TrimIsMiddle | src/lib/analyticalValues.ts:41 | `trim` gives `s` with its leading and trailing white space removed and nothing else: a middle slice of `s` with only white space around it |
| AnalyticalValues.SpecialCase | src/lib/analyticalValues.ts:44-78 | only the six named integrands have special cases |
| AnalyticalValues.SpecialCaseBounds | src/lib/analyticalValues.ts:44-78 | a special case applies exactly when the cleaned text and both bounds match one of the six cases, `b` being `Math.PI` itself for `sin(x)` |
| AnalyticalValues.Lookup | src/lib/analyticalValues.ts:35-90 | an answer is either a special case or a table hit for the cleaned text and the key `${a},${b}` |
| AnalyticalValues.CleanKeeps | src/lib/analyticalValues.ts:41 | a text with no white space at either end and no final `dx` is left as it is |
| AnalyticalValues.TrimKeeps | src/lib/analyticalValues.ts:41 | trimming leaves a text with no white space at either end alone |
| AnalyticalValues.CleanDropsTrailingDx | src/lib/analyticalValues.ts:41 | a final `dx`, `dX`, `Dx` or `DX` is dropped before trimming |
| AnalyticalValues.TrimDropsFinalSpace | src/lib/analyticalValues.ts:41 | a final white-space character is dropped |
| AnalyticalValues.CleanKeepsSpacedDx | src/lib/analyticalValues.ts:41 | `dx` followed by white space is not final, so it stays |
| AnalyticalValues.OnlyCleanedTextMatters | src/lib/analyticalValues.ts:41-89 | two texts that clean to the same text get the same answer |
| AnalyticalValues.SpecialCasesFirst | src/lib/analyticalValues.ts:44-78 | a matching special case is returned before the table is consulted |
| AnalyticalValues.TableAfterSpecialCases | src/lib/analyticalValues.ts:80-89 | with no special case, the answer is the table entry under the key when that is a hit, and null otherwise |
| AnalyticalValues.TableEntryLookup | src/lib/analyticalValues.ts:82-87 | an existing entry is returned as written only when its value is non-zero |
| AnalyticalValues.UnknownIsNull | src/lib/analyticalValues.ts:89 | an integrand with neither special case nor table row gets null |
| AnalyticalValues.SquareOnUnitCase | src/lib/analyticalValues.ts:73-77 | `x^2` on `[0, 1]` is a special case with value 1/3 |
| AnalyticalValues.SquareOnUnitInTable | src/lib/analyticalValues.ts:3-4 | the table's entry for `x^2` under `0,1` is 1/3 |
| AnalyticalValues.SquareOnUnitIsSpecial | src/lib/analyticalValues.ts:73-78 | `x^2` on `[0, 1]` returns the special-case formula, although the table holds 1/3 under `0,1` too |
| AnalyticalValues.SineUpToPi | src/lib/analyticalValues.ts:50-54 | `sin(x)` from 0 to `Math.PI` is the special case 2 |
| AnalyticalValues.PolynomialEntriesAreIntegrals | src/lib/analyticalValues.ts:3-22 | every entry for `x^2`, `x^3`, `x` and `5` is the difference of the antiderivative at its limits |
| AnalyticalValues.SimpsonAgreesWithTable | src/lib/analyticalValues.ts:5-10 | Simpson's 1/3 rule reproduces the table's `x^2` and `x^3` values on `[0, 2]` |
| AnalyticalValues.SqrtOneFourNotSpecial | src/lib/analyticalValues.ts:44 | `sqrt(x)` on `[1, 4]` is not a special case |
| AnalyticalValues.SqrtOneFourEntry | src/lib/analyticalValues.ts:29 | the table holds a non-zero entry for `sqrt(x)` under `1,4` |
| AnalyticalValues.SqrtOneFourLookup | src/lib/analyticalValues.ts:29 | `sqrt(x)` on `[1, 4]` is answered from that entry |
| AnalyticalValues.SqrtOneFourAsWritten | src/lib/analyticalValues.ts:29 | as written, `sqrt(x)` on `[1, 4]` is given as 4, which is not the integral |
| AnalyticalValues.SqrtOneFourCorrected | src/lib/analyticalValues.ts:27-31 | corrected, it is the integral `(2/3)(4^(3/2) - 1)` = 14/3, and the `0,1` entry is the integral too |
| AnalyticalValues.CubicLookup | src/lib/analyticalValues.ts:67-72 | the cubic on `[0, 2]` is answered by its special case |
| AnalyticalValues.SimpsonOnCubic | src/lib/analyticalValues.ts:67-72 | Simpson's 1/3 rule, exact on cubics, gives -16/3 for it |
| AnalyticalValues.CubicAsWritten | src/lib/analyticalValues.ts:68 | as written, the cubic's value is -14/3, which is neither the antiderivative difference nor Simpson's value |
| AnalyticalValues.CubicCorrected | src/lib/analyticalValues.ts:67-72 | corrected, it is the antiderivative difference, and Simpson's 1/3 rule agrees |
| AnalyticalValues.SineTwoPiNotSpecial | src/lib/analyticalValues.ts:50 | `sin(x)` on `[0, 6.28318]` is not a special case |
| AnalyticalValues.SineTwoPiEntry | src/lib/analyticalValues.ts:25 | the table holds the entry 0 for `sin(x)` under `0,6.28318` |
| AnalyticalValues.ZeroEntryLookup | src/lib/analyticalValues.ts:82 | the zero entry is found only when presence, not truthiness, is tested |
| AnalyticalValues.ZeroEntryAsWritten | src/lib/analyticalValues.ts:82 | as written, `sin(x)` on `[0, 6.28318]` returns null although the entry exists |
| AnalyticalValues.ZeroEntryCorrected | src/lib/analyticalValues.ts:82-87 | corrected, it returns the entry's value 0 with the table formula |

## Left out

- Floating point: numbers are exact reals. Rounding, NaN and Infinity are not modelled. Neither is the difference between `calculate` and `getDetails`, which sum in different orders.
- `Math.sin`, `cos`, `tan`, `sqrt`, `log`, `exp`, `abs` and `pow` are arbitrary functions, so nothing is proved about their values.
- JavaScript's number-to-string conversion is the parameter `fmt`. It is used for the table key `${a},${b}` and the formula and details texts. `Number.parseFloat` on texts that are not plain numerals is the parameter `parseFloat`.
- Only the adjustment notes and the summary of the open Simpson rule are modelled as text. The `details` strings of the other four rules are not modelled: they are fixed text around JavaScript number formatting.
- The parser's `tokens` and `position` after a thrown error are not specified. `Evaluate` resets both on the next call, so no result depends on them.
- Segment counts are integers. A fractional `n` cannot be given to the model's trapezoid or open Simpson rule.
- Trapezoidal.Calculate, Trapezoidal.GetDetails: these require `n ≠ 0`. At `n = 0` the source divides by zero and produces Infinity or NaN, which the real-number model cannot represent.
- OpenSimpson.Sum, OpenSimpson.SumInner, OpenSimpson.TabulateInner: the loops of the open rule are split into helper methods that take `h` as a parameter. The computation and its order are unchanged.
- AnalyticalValues.Lookup: the table is a map, so properties that JavaScript objects inherit (`constructor`, `toString`, …) are not in it. In the source such a name passes the first test, but the key `${a},${b}` always contains a comma, and no inherited member has a property of that name. The answer is null either way.
- The React views, form handlers, charts and the example lists are not part of this model. They only display and forward values. So is the check in the form that rejects odd or small counts for the open rule: the model keeps the rule's own adjustment.

## Findings

| source | as written | input that shows it | evidently intended | confidence | as-written member | corrected member |
|---|---|---|---|---|---|---|
| src/lib/analyticalValues.ts:29 | the `sqrt(x)` entry under `1,4` is `14/3 - 2/3`, that is 4 | `getValorAnalitico("sqrt(x)", 1, 4)` returns 4, but ∫₁⁴ √x dx = 14/3 | `16/3 - 2/3` = 14/3 | high, not executed | AnalyticalValues.SqrtOneFourAsWritten | AnalyticalValues.SqrtOneFourCorrected |
| src/lib/analyticalValues.ts:68 | `2 - 8/3 + 6 - 10` = -14/3 | `getValorAnalitico("x^3 - 2*x^2 + 3*x - 5", 0, 2)` returns -14/3, but the antiderivative in the formula's own text gives -16/3, as does Simpson's 1/3 rule | `4 - 16/3 + 6 - 10` = -16/3 | high, not executed | AnalyticalValues.CubicAsWritten | AnalyticalValues.CubicCorrected |
| src/lib/analyticalValues.ts:82 | the entry is tested for truthiness, so a value of 0 counts as missing | `getValorAnalitico("sin(x)", 0, 6.28318)` returns null, although line 25 holds 0 for that key | test that the key is present | medium, not executed | AnalyticalValues.ZeroEntryAsWritten | AnalyticalValues.ZeroEntryCorrected |
