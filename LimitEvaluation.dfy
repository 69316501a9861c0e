/** `evaluateExpression` (src/lib/parser.ts): the value of an integration
    limit typed as text. The constants are spelled out first (`pi` in any
    case, then every `e` or `E` not followed by a letter); a plain numeral is
    read directly, anything else goes through `MathParser.evaluate` with
    `x = 0`, and when that throws, `Number.parseFloat` has the last word. */
module LimitEvaluation {
  import opened Results
  import opened JsRuntime
  import opened Tokenizer
  import opened Parser
  import opened ParserProperties

  predicate IsP(c: char) { c == 'p' || c == 'P' }
  predicate IsI(c: char) { c == 'i' || c == 'I' }
  predicate IsE(c: char) { c == 'e' || c == 'E' }

  /** A text with no ASCII letter in it. */
  predicate NoLetters(t: string) {
    forall k :: 0 <= k < |t| ==> !IsLetter(t[k])
  }

  /** The texts of `Math.PI` and `Math.E` are digits and a point. */
  lemma ConstantTextsHaveNoLetters()
    ensures NoLetters(PI_TEXT) && NoLetters(E_TEXT)
  {
  }

  // ----- replace(/pi/gi, String(Math.PI)) -----

  /** A case-insensitive `pi` starts at `k`. */
  predicate PiAt(s: string, k: int) {
    0 <= k && k + 1 < |s| && IsP(s[k]) && IsI(s[k + 1])
  }

  predicate HasPi(s: string) {
    exists k :: 0 <= k < |s| && PiAt(s, k)
  }

  /** Every `pi`, `Pi`, `pI` and `PI`, found left to right without overlap,
      becomes the text of `Math.PI`. */
  function ReplacePi(s: string): string
    decreases |s|
  {
    if |s| < 2 then s
    else if IsP(s[0]) && IsI(s[1]) then PI_TEXT + ReplacePi(s[2..])
    else [s[0]] + ReplacePi(s[1..])
  }

  /** The replacement starts with the first character, or with a non-letter. */
  lemma ReplacePiHead(s: string)
    requires |s| > 0
    ensures |ReplacePi(s)| > 0
    ensures ReplacePi(s)[0] == s[0] || !IsLetter(ReplacePi(s)[0])
  {
    ConstantTextsHaveNoLetters();
  }

  /** No `pi` survives the replacement, in any case. */
  lemma {:induction false} ReplacePiLeavesNoPi(s: string)
    ensures !HasPi(ReplacePi(s))
    decreases |s|
  {
    if |s| < 2 {
      assert forall k :: !PiAt(s, k);
    } else if IsP(s[0]) && IsI(s[1]) {
      var rest := ReplacePi(s[2..]);
      ReplacePiLeavesNoPi(s[2..]);
      ConstantTextsHaveNoLetters();
      var out := PI_TEXT + rest;
      forall k | 0 <= k < |out|
        ensures !PiAt(out, k)
      {
        if k >= |PI_TEXT| {
          assert !PiAt(rest, k - |PI_TEXT|);
        } else {
          assert !IsLetter(out[k]);
        }
      }
    } else {
      var rest := ReplacePi(s[1..]);
      ReplacePiLeavesNoPi(s[1..]);
      ReplacePiHead(s[1..]);
      var out := [s[0]] + rest;
      forall k | 0 <= k < |out|
        ensures !PiAt(out, k)
      {
        if k > 0 {
          assert !PiAt(rest, k - 1);
        }
      }
    }
  }

  /** A text without `pi` is left as it is. */
  lemma {:induction false} ReplacePiKeepsPiFree(s: string)
    requires !HasPi(s)
    ensures ReplacePi(s) == s
    decreases |s|
  {
    if |s| >= 2 {
      assert !PiAt(s, 0);
      assert !HasPi(s[1..]) by {
        forall k | PiAt(s[1..], k)
          ensures false
        {
          assert PiAt(s, k + 1);
        }
      }
      ReplacePiKeepsPiFree(s[1..]);
      assert s == [s[0]] + s[1..];
    }
  }

  /** Replacing twice is replacing once. */
  lemma ReplacePiIdempotent(s: string)
    ensures ReplacePi(ReplacePi(s)) == ReplacePi(s)
  {
    ReplacePiLeavesNoPi(s);
    ReplacePiKeepsPiFree(ReplacePi(s));
  }

  // ----- replace(/e(?![a-zA-Z])/gi, String(Math.E)) -----

  /** An `e` or `E` at `k` that is not followed by a letter. */
  predicate LoneEAt(s: string, k: int) {
    0 <= k < |s| && IsE(s[k]) && (k + 1 == |s| || !IsLetter(s[k + 1]))
  }

  /** Every `e` or `E` that is not followed by a letter becomes the text of
      `Math.E`; the look-ahead reads the original text. */
  function ReplaceE(s: string): string
    decreases |s|
  {
    if s == [] then []
    else if LoneEAt(s, 0) then E_TEXT + ReplaceE(s[1..])
    else [s[0]] + ReplaceE(s[1..])
  }

  /** A text without a lone `e` is left as it is. */
  lemma {:induction false} ReplaceEKeepsEFree(s: string)
    requires forall k :: 0 <= k < |s| ==> !LoneEAt(s, k)
    ensures ReplaceE(s) == s
    decreases |s|
  {
    if s != [] {
      assert !LoneEAt(s, 0);
      forall k | 0 <= k < |s| - 1
        ensures !LoneEAt(s[1..], k)
      {
        assert LoneEAt(s[1..], k) ==> LoneEAt(s, k + 1);
      }
      ReplaceEKeepsEFree(s[1..]);
      assert s == [s[0]] + s[1..];
    }
  }

  /** Each lone `e` grows the text by the length of `Math.E`'s text less one. */
  function LoneECount(s: string): nat
    decreases |s|
  {
    if s == [] then 0 else (if LoneEAt(s, 0) then 1 else 0) + LoneECount(s[1..])
  }

  lemma {:induction false} ReplaceELength(s: string)
    ensures |ReplaceE(s)| == |s| + (|E_TEXT| - 1) * LoneECount(s)
    decreases |s|
  {
    if s != [] {
      ReplaceELength(s[1..]);
    }
  }

  // ----- The limit value -----

  /** The text handed to the numeral test and to the parser. */
  function Substituted(expression: string): string {
    ReplaceE(ReplacePi(expression))
  }

  /** The value `evaluateExpression` returns. `parseFloat` stands for
      `Number.parseFloat` on texts the numeral pattern rejects. */
  function LimitValue(expression: string, m: MathLib, parseFloat: string -> real): real {
    var text := Substituted(expression);
    if IsNumeral(text) then NumeralValue(text)
    else
      match Evaluation(text, 0.0, m)
      case Ok(v) => v
      case Err(_) => parseFloat(text)
  }

  /** `evaluateExpression(expression, parser)`: the parser object is reused,
      its tokens and position are left as the last evaluation set them. */
  method EvaluateExpression(expression: string, parser: MathParser, m: MathLib, parseFloat: string -> real)
    returns (value: real)
    modifies parser
    ensures value == LimitValue(expression, m, parseFloat)
    ensures IsNumeral(Substituted(expression)) ==> parser.tokens == old(parser.tokens) && parser.position == old(parser.position)
    ensures !IsNumeral(Substituted(expression)) ==> parser.tokens == Tokenization(Substituted(expression))
  {
    var text := ReplaceE(ReplacePi(expression));
    if IsNumeral(text) {
      return NumeralValue(text);
    }
    var r := parser.Evaluate(text, 0.0, m);
    if r.Ok? {
      return r.value;
    }
    return parseFloat(text);
  }

  // ----- What some limits evaluate to -----

  /** The constant texts survive both replacements unchanged. */
  lemma ConstantTextsStay()
    ensures ReplaceE(PI_TEXT) == PI_TEXT && ReplaceE(E_TEXT) == E_TEXT
  {
    ConstantTextsHaveNoLetters();
    ReplaceEKeepsEFree(PI_TEXT);
    ReplaceEKeepsEFree(E_TEXT);
  }

  /** A limit whose spelled-out text is a numeral has that numeral's value. */
  lemma NumeralLimit(expression: string, text: string, m: MathLib, parseFloat: string -> real)
    requires Substituted(expression) == text && IsNumeral(text)
    ensures LimitValue(expression, m, parseFloat) == NumeralValue(text)
  {
  }

  /** `pi` is `Math.PI`, read back from its own text. */
  lemma PiLimit(m: MathLib, parseFloat: string -> real)
    ensures LimitValue("pi", m, parseFloat) == PI
  {
    SpelledPi();
    ConstantTextsAreNumerals();
    assert IsNumeral(PI_TEXT);
    NumeralLimit("pi", PI_TEXT, m, parseFloat);
  }

  /** `-pi` is a numeral once spelled out, so no unary minus is needed. */
  lemma MinusPiLimit(m: MathLib, parseFloat: string -> real)
    ensures LimitValue("-pi", m, parseFloat) == -PI
  {
    MinusPiText();
    NumeralLimit("-pi", "-" + PI_TEXT, m, parseFloat);
    ConstantTextsAreNumerals();
    assert ("-" + PI_TEXT)[1..] == PI_TEXT;
  }

  lemma MinusPiText()
    ensures Substituted("-pi") == "-" + PI_TEXT
    ensures IsNumeral("-" + PI_TEXT) && !IsUnsignedNumeral("-" + PI_TEXT)
  {
    var text := "-" + PI_TEXT;
    SpelledPi();
    NonLetterBeforePi('-');
    assert "-pi" == ['-'] + "pi";
    ConstantTextsAreNumerals();
    assert text[1..] == PI_TEXT;
    assert RunEnd(text, 0, IsDigit) == 0;
  }

  /** `e` is `Math.E`. */
  lemma ELimit(m: MathLib, parseFloat: string -> real)
    ensures LimitValue("e", m, parseFloat) == E
  {
    assert ReplacePi("e") == "e";
    assert ReplaceE("e") == E_TEXT + ReplaceE([]);
    assert Substituted("e") == E_TEXT;
    ConstantTextsAreNumerals();
    assert IsNumeral(E_TEXT);
    NumeralLimit("e", E_TEXT, m, parseFloat);
  }

  /** `2pi` is spelled out as `23.141592653589793`, which is read as a numeral:
      it is twenty plus pi, not two times pi. */
  lemma TwoPiLimit(m: MathLib, parseFloat: string -> real)
    ensures LimitValue("2pi", m, parseFloat) == 20.0 + PI
  {
    TwoPiText();
    TwoPiValue();
    NumeralLimit("2pi", "2" + PI_TEXT, m, parseFloat);
  }

  lemma TwoPiText()
    ensures Substituted("2pi") == "2" + PI_TEXT
  {
    SpelledPi();
    NonLetterBeforePi('2');
    assert "2pi" == ['2'] + "pi";
  }

  /** `pi` alone is spelled out as the text of `Math.PI`. */
  lemma SpelledPi()
    ensures Substituted("pi") == PI_TEXT
  {
    assert ReplacePi("pi") == PI_TEXT + ReplacePi([]);
    assert ReplacePi("pi") == PI_TEXT;
    ConstantTextsStay();
  }

  /** A character that is not a letter, written before `pi`, stays in front. */
  lemma NonLetterBeforePi(c: char)
    requires !IsLetter(c)
    ensures Substituted([c] + "pi") == [c] + Substituted("pi")
  {
    var s := [c] + "pi";
    assert s[1..] == "pi";
    assert ReplacePi(s) == [c] + ReplacePi("pi");
    var t := [c] + ReplacePi("pi");
    assert t[1..] == ReplacePi("pi");
    assert ReplaceE(t) == [c] + ReplaceE(ReplacePi("pi"));
  }

  lemma TwoPiValue()
    ensures IsNumeral("2" + PI_TEXT) && NumeralValue("2" + PI_TEXT) == 20.0 + PI
  {
    ConstantTextsAreNumerals();
    PrependDigit('2', PI_TEXT);
    assert ['2'] + PI_TEXT == "2" + PI_TEXT;
  }

  /** A digit written before a numeral with a one-digit integer part adds ten
      times its value. */
  lemma PrependDigit(d: char, t: string)
    requires IsDigit(d) && IsUnsignedNumeral(t) && RunEnd(t, 0, IsDigit) == 1
    ensures IsNumeral([d] + t)
    ensures NumeralValue([d] + t) == 10.0 * DigitValue(d) as real + NumeralValue(t)
  {
    var text := [d] + t;
    assert RunEnd(text, 0, IsDigit) == 2 by {
      RunEndUnique(text, 0, 2, IsDigit);
    }
    assert text[..2] == [d, t[0]] && t[..1] == [t[0]];
    assert DigitsValue([d, t[0]]) == 10 * DigitValue(d) + DigitValue(t[0]) by {
      assert [d, t[0]][..1] == [d] && [d][..0] == [];
      assert DigitsValue([d]) == DigitValue(d);
      assert DigitsValue([d, t[0]]) == DigitsValue([d]) * 10 + DigitValue(t[0]);
    }
    assert DigitsValue([t[0]]) == DigitValue(t[0]) by {
      assert [t[0]][..0] == [];
    }
    if |t| > 1 {
      assert text[3..] == t[2..];
    } else {
      assert text == [d, t[0]] && t == [t[0]];
    }
  }

  /** A text without letters has no constant to spell out. */
  lemma NoLettersStay(t: string)
    requires NoLetters(t)
    ensures Substituted(t) == t
  {
    assert !HasPi(t) by {
      forall k | 0 <= k < |t|
        ensures !PiAt(t, k)
      {
        assert !IsLetter(t[k]);
      }
    }
    ReplacePiKeepsPiFree(t);
    ReplaceEKeepsEFree(t);
  }

  /** The tokens of a digit, one more character and a digit. */
  lemma ThreeCharacterTokens(text: string)
    requires |text| == 3 && IsDigit(text[0]) && IsDigit(text[2])
    ensures IsOperatorChar(text[1]) ==> Tokenization(text) == [text[..1], text[1..2], text[2..]]
    ensures !IsNumberChar(text[1]) && !IsOperatorChar(text[1]) && !IsLetter(text[1]) && text[1] != ' ' ==>
      Tokenization(text) == [text[..1], text[2..]]
  {
    if !IsNumberChar(text[1]) {
      RunEndUnique(text, 0, 1, IsNumberChar);
      RunEndUnique(text, 2, 3, IsNumberChar);
      assert text[2..3] == text[2..];
      assert TokensFrom(text, 2) == [text[2..]] + TokensFrom(text, 3);
      assert TokensFrom(text, 0) == [text[..1]] + TokensFrom(text, 1);
      if IsOperatorChar(text[1]) {
        assert [text[1]] == text[1..2];
        assert TokensFrom(text, 1) == [text[1..2]] + TokensFrom(text, 2);
      }
    }
  }

  /** A one-digit numeral and its value. */
  lemma DigitNumeral(d: char)
    requires IsDigit(d)
    ensures IsNumeral([d]) && NumeralValue([d]) == DigitValue(d) as real
    ensures forall l: nat :: l <= 2 ==> !IsLevelOperator(l, [d])
  {
    RunEndUnique([d], 0, 1, IsDigit);
    assert [d][..0] == [];
    assert DigitsValue([d]) == DigitsValue([]) * 10 + DigitValue(d);
    assert UnsignedValue([d]) == DigitsValue([d]) as real;
  }

  /** The parser reads one expression and ignores the tokens after it: a
      decimal comma, as in `2,5`, is dropped by the tokenizer and the limit is
      the digit before it. */
  lemma DecimalCommaLimit(d1: char, sep: char, d2: char, m: MathLib, parseFloat: string -> real)
    requires IsDigit(d1) && IsDigit(d2)
    requires !IsNumberChar(sep) && !IsOperatorChar(sep) && !IsLetter(sep) && sep != ' '
    ensures LimitValue([d1, sep, d2], m, parseFloat) == DigitValue(d1) as real
  {
    var text := [d1, sep, d2];
    NoLettersStay(text);
    assert !IsNumeral(text) by {
      RunEndUnique(text, 0, 1, IsDigit);
    }
    var toks := [[d1], [d2]];
    ThreeCharacterTokens(text);
    assert text[..1] == [d1] && text[2..] == [d2];
    DigitNumeral(d1);
    DigitNumeral(d2);
    NumeralFactor(toks, 0, 0.0, m);
    assert LooseFrom(0, toks, 1);
    FactorAlone(0, toks, 0, DigitValue(d1) as real, 0.0, m);
  }

  /** A limit the parser rejects falls back to `Number.parseFloat` of the
      spelled-out text: a digit over `0` divides by zero. */
  lemma DivisionByZeroLimit(d: char, m: MathLib, parseFloat: string -> real)
    requires IsDigit(d)
    ensures LimitValue([d, '/', '0'], m, parseFloat) == parseFloat([d, '/', '0'])
  {
    var text := [d, '/', '0'];
    NoLettersStay(text);
    assert !IsNumeral(text) by {
      RunEndUnique(text, 0, 1, IsDigit);
    }
    ThreeCharacterTokens(text);
    assert text[..1] == [d] && text[1..2] == "/" && text[2..] == "0";
    OverZero(d, m);
  }

  lemma OverZero(d: char, m: MathLib)
    requires IsDigit(d)
    ensures Expression([[d], "/", "0"], 0, 0.0, m) == Err(DivisionByZero)
  {
    var toks := [[d], "/", "0"];
    var v := DigitValue(d) as real;
    DigitNumeral(d);
    DigitNumeral('0');
    NumeralFactor(toks, 0, 0.0, m);
    NumeralFactor(toks, 2, 0.0, m);
    LooserOperator(2, toks, 1, 1);
    FactorAlone(2, toks, 0, v, 0.0, m);
    assert LooseFrom(2, toks, 3);
    FactorAlone(2, toks, 2, 0.0, 0.0, m);
    assert Fold(1, toks, 1, v, 0.0, m) == Err(DivisionByZero);
    assert Binary(1, toks, 0, 0.0, m) == Err(DivisionByZero);
    assert Operand(0, toks, 0, 0.0, m) == Err(DivisionByZero);
  }
}
