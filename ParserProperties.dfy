/** What the grammar functions of `Parser` promise about whole inputs: the
    variable is only read through `x` tokens, an empty input and a leading
    minus are errors, operators of one level fold from the left, `*` `/`
    bind tighter than `+` `-`, and `^` binds tighter than `*` `/`. */
module ParserProperties {
  import opened Results
  import opened JsRuntime
  import opened Tokenizer
  import opened Parser

  // ----- The variable is read only where an `x` token stands -----

  lemma {:induction false} ExpressionIgnoresX(toks: seq<string>, pos: nat, x1: real, x2: real, m: MathLib)
    requires pos <= |toks| && "x" !in toks
    ensures Expression(toks, pos, x1, m) == Expression(toks, pos, x2, m)
    decreases |toks| - pos, 7
  {
    BinaryIgnoresX(0, toks, pos, x1, x2, m);
  }

  lemma {:induction false} BinaryIgnoresX(level: nat, toks: seq<string>, pos: nat, x1: real, x2: real, m: MathLib)
    requires level <= 2 && pos <= |toks| && "x" !in toks
    ensures Binary(level, toks, pos, x1, m) == Binary(level, toks, pos, x2, m)
    decreases |toks| - pos, 2 * (3 - level)
  {
    OperandIgnoresX(level, toks, pos, x1, x2, m);
    var first := Operand(level, toks, pos, x1, m);
    if first.Ok? {
      FoldIgnoresX(level, toks, first.value.next, first.value.value, x1, x2, m);
    }
  }

  lemma {:induction false} OperandIgnoresX(level: nat, toks: seq<string>, pos: nat, x1: real, x2: real, m: MathLib)
    requires level <= 2 && pos <= |toks| && "x" !in toks
    ensures Operand(level, toks, pos, x1, m) == Operand(level, toks, pos, x2, m)
    decreases |toks| - pos, 2 * (3 - level) - 1
  {
    if level == 2 {
      FactorIgnoresX(toks, pos, x1, x2, m);
    } else {
      BinaryIgnoresX(level + 1, toks, pos, x1, x2, m);
    }
  }

  lemma {:induction false} FoldIgnoresX(level: nat, toks: seq<string>, pos: nat, left: real, x1: real, x2: real, m: MathLib)
    requires level <= 2 && pos <= |toks| && "x" !in toks
    ensures Fold(level, toks, pos, left, x1, m) == Fold(level, toks, pos, left, x2, m)
    decreases |toks| - pos, 0
  {
    if pos < |toks| && IsLevelOperator(level, toks[pos]) {
      OperandIgnoresX(level, toks, pos + 1, x1, x2, m);
      var right := Operand(level, toks, pos + 1, x1, m);
      if right.Ok? {
        var v := Apply(toks[pos], left, right.value.value, m);
        if v.Ok? {
          FoldIgnoresX(level, toks, right.value.next, v.value, x1, x2, m);
        }
      }
    }
  }

  lemma {:induction false} FactorIgnoresX(toks: seq<string>, pos: nat, x1: real, x2: real, m: MathLib)
    requires pos <= |toks| && "x" !in toks
    ensures Factor(toks, pos, x1, m) == Factor(toks, pos, x2, m)
    decreases |toks| - pos, 0
  {
    if pos < |toks| {
      if toks[pos] == "(" {
        ExpressionIgnoresX(toks, pos + 1, x1, x2, m);
      } else if pos + 1 < |toks| && toks[pos + 1] == "(" {
        ExpressionIgnoresX(toks, pos + 2, x1, x2, m);
      }
    }
  }

  /** An expression without the variable has one value, whatever `x` is: the
      reason `evaluateExpression` may pass 0 for it. */
  lemma EvaluationIgnoresX(expression: string, x1: real, x2: real, m: MathLib)
    requires "x" !in Tokenization(expression)
    ensures Evaluation(expression, x1, m) == Evaluation(expression, x2, m)
  {
    ExpressionIgnoresX(Tokenization(expression), 0, x1, x2, m);
  }

  // ----- Inputs that always fail -----

  /** The first operand of every level is a factor read at the same position. */
  lemma {:induction false} BinaryFailsWithFactor(level: nat, toks: seq<string>, pos: nat, x: real, m: MathLib)
    requires level <= 2 && pos <= |toks|
    requires Factor(toks, pos, x, m).Err?
    ensures Binary(level, toks, pos, x, m) == Err(Factor(toks, pos, x, m).error)
    decreases 2 - level
  {
    if level < 2 {
      BinaryFailsWithFactor(level + 1, toks, pos, x, m);
    }
  }

  /** An empty (or all-blank) text is "Expresión incompleta". */
  lemma EmptyIsIncomplete(expression: string, x: real, m: MathLib)
    requires Tokenization(expression) == []
    ensures Evaluation(expression, x, m) == Err(Incomplete)
  {
    BinaryFailsWithFactor(0, [], 0, x, m);
  }

  /** There is no unary minus: a leading `-` is either an unexpected token or,
      before `(`, a call of an unknown function named `-`. */
  lemma LeadingMinusFails(toks: seq<string>, x: real, m: MathLib)
    requires |toks| > 0 && toks[0] == "-"
    ensures Expression(toks, 0, x, m).Err?
    ensures |toks| == 1 || toks[1] != "(" ==> Expression(toks, 0, x, m) == Err(Unexpected("-"))
  {
    assert !IsNumeral("-") by {
      assert !IsUnsignedNumeral("-");
      assert "-"[1..] == [];
    }
    assert Factor(toks, 0, x, m).Err?;
    BinaryFailsWithFactor(0, toks, 0, x, m);
  }

  /** The tokenizer never produces a negative numeral: `-` is always a token of
      its own, so the `-?` of the numeral pattern never matches. */
  lemma {:induction false} NoNegativeNumeralTokens(s: string, i: nat)
    requires i <= |s|
    ensures forall t :: t in TokensFrom(s, i) && IsNumeral(t) ==> IsUnsignedNumeral(t)
    decreases |s| - i
  {
    if i < |s| {
      if s[i] == ' ' {
        NoNegativeNumeralTokens(s, i + 1);
      } else if IsNumberChar(s[i]) {
        NoNegativeNumeralTokens(s, RunEnd(s, i, IsNumberChar));
      } else if IsOperatorChar(s[i]) {
        NoNegativeNumeralTokens(s, i + 1);
      } else if IsLetter(s[i]) {
        NoNegativeNumeralTokens(s, RunEnd(s, i, IsWordChar));
      } else {
        NoNegativeNumeralTokens(s, i + 1);
      }
    }
  }
  // ----- Associativity and precedence -----

  /** A numeral token is a factor of its own value. */
  lemma NumeralFactor(toks: seq<string>, pos: nat, x: real, m: MathLib)
    requires pos < |toks| && IsNumeral(toks[pos])
    ensures Factor(toks, pos, x, m) == Ok(Parsed(NumeralValue(toks[pos]), pos + 1))
  {
    assert toks[pos] != "(" by {
      assert "("[0] == '(';
    }
  }

  /** A token is an operator of at most one level. */
  lemma OneLevel(l1: nat, l2: nat, t: string)
    requires IsLevelOperator(l1, t) && IsLevelOperator(l2, t)
    ensures l1 == l2
  {
    assert "+"[0] == '+' && "-"[0] == '-' && "*"[0] == '*' && "/"[0] == '/' && "^"[0] == '^';
  }

  /** No operator of a level at least `level` stands at `pos`. */
  predicate LooseFrom(level: nat, toks: seq<string>, pos: nat) {
    pos == |toks| || (pos < |toks| && forall l: nat :: level <= l <= 2 ==> !IsLevelOperator(l, toks[pos]))
  }

  /** An operator of a looser level does not bind at `level`. */
  lemma LooserOperator(level: nat, toks: seq<string>, pos: nat, looser: nat)
    requires looser < level && pos < |toks| && IsLevelOperator(looser, toks[pos])
    ensures LooseFrom(level, toks, pos)
  {
    forall l: nat | level <= l <= 2
      ensures !IsLevelOperator(l, toks[pos])
    {
      if IsLevelOperator(l, toks[pos]) {
        OneLevel(looser, l, toks[pos]);
      }
    }
  }

  /** A factor followed by nothing that binds at `level` or tighter is the
      whole operand of that level. */
  lemma {:induction false} FactorAlone(level: nat, toks: seq<string>, pos: nat, v: real, x: real, m: MathLib)
    requires level <= 2 && pos < |toks|
    requires Factor(toks, pos, x, m) == Ok(Parsed(v, pos + 1))
    requires LooseFrom(level, toks, pos + 1)
    ensures Binary(level, toks, pos, x, m) == Ok(Parsed(v, pos + 1))
    decreases 2 - level
  {
    if level < 2 {
      FactorAlone(level + 1, toks, pos, v, x, m);
    }
    FoldStop(level, toks, pos + 1, v, x, m);
  }

  /** Two operators of one level fold from the left, for every level: `a - b - c`
      is `(a - b) - c`, `a / b / c` is `(a / b) / c`, and `a ^ b ^ c` is
      `(a ^ b) ^ c` (not the usual right-nested power). */
  lemma FoldsFromTheLeft(level: nat, a: string, o1: string, b: string, o2: string, c: string, x: real, m: MathLib)
    requires level <= 2 && IsNumeral(a) && IsNumeral(b) && IsNumeral(c)
    requires IsLevelOperator(level, o1) && IsLevelOperator(level, o2)
    requires Apply(o1, NumeralValue(a), NumeralValue(b), m).Ok?
    requires Apply(o2, Apply(o1, NumeralValue(a), NumeralValue(b), m).value, NumeralValue(c), m).Ok?
    ensures var ab := Apply(o1, NumeralValue(a), NumeralValue(b), m).value;
      Binary(level, [a, o1, b, o2, c], 0, x, m) == Ok(Parsed(Apply(o2, ab, NumeralValue(c), m).value, 5))
  {
    var toks := [a, o1, b, o2, c];
    var ab := Apply(o1, NumeralValue(a), NumeralValue(b), m).value;
    var abc := Apply(o2, ab, NumeralValue(c), m).value;
    NumeralFactor(toks, 0, x, m);
    NumeralFactor(toks, 2, x, m);
    NumeralFactor(toks, 4, x, m);
    FactorAlone(level, toks, 4, NumeralValue(c), x, m);
    if level < 2 {
      LooserOperator(level + 1, toks, 1, level);
      LooserOperator(level + 1, toks, 3, level);
      FactorAlone(level + 1, toks, 0, NumeralValue(a), x, m);
      FactorAlone(level + 1, toks, 2, NumeralValue(b), x, m);
      FactorAlone(level + 1, toks, 4, NumeralValue(c), x, m);
    }
    FoldStop(level, toks, 5, abc, x, m);
    assert Fold(level, toks, 3, ab, x, m) == Ok(Parsed(abc, 5));
    assert Fold(level, toks, 1, NumeralValue(a), x, m) == Ok(Parsed(abc, 5));
  }

  /** A value that a level reads up to the end of the tokens is also what every
      looser level reads there: their loops find no operator to fold. */
  lemma {:induction false} WholeAtLooserLevels(level: nat, toks: seq<string>, pos: nat, v: real, x: real, m: MathLib)
    requires level <= 2 && pos <= |toks|
    requires Binary(level, toks, pos, x, m) == Ok(Parsed(v, |toks|))
    ensures Expression(toks, pos, x, m) == Ok(Parsed(v, |toks|))
    decreases level
  {
    if level > 0 {
      FoldStop(level - 1, toks, |toks|, v, x, m);
      WholeAtLooserLevels(level - 1, toks, pos, v, x, m);
    }
  }

  /** The operand of `level` read at `pos` is the lone factor there, when the
      next token is an operator of `level` or a looser one. */
  lemma LoneOperand(level: nat, toks: seq<string>, pos: nat, v: real, x: real, m: MathLib, next: nat)
    requires level <= 2 && pos + 1 < |toks| && Factor(toks, pos, x, m) == Ok(Parsed(v, pos + 1))
    requires next <= level && IsLevelOperator(next, toks[pos + 1])
    ensures Operand(level, toks, pos, x, m) == Ok(Parsed(v, pos + 1))
  {
    if level < 2 {
      LooserOperator(level + 1, toks, pos + 1, next);
      FactorAlone(level + 1, toks, pos, v, x, m);
    }
  }

  /** An operator one level tighter binds first when it stands on the right:
      `a + b * c` is `a + (b * c)` and `a * b ^ c` is `a * (b ^ c)`. */
  lemma TighterOnTheRight(level: nat, a: string, o1: string, b: string, o2: string, c: string, x: real, m: MathLib)
    requires level < 2 && IsNumeral(a) && IsNumeral(b) && IsNumeral(c)
    requires IsLevelOperator(level, o1) && IsLevelOperator(level + 1, o2)
    requires Apply(o2, NumeralValue(b), NumeralValue(c), m).Ok?
    requires Apply(o1, NumeralValue(a), Apply(o2, NumeralValue(b), NumeralValue(c), m).value, m).Ok?
    ensures var bc := Apply(o2, NumeralValue(b), NumeralValue(c), m).value;
      Expression([a, o1, b, o2, c], 0, x, m) == Ok(Parsed(Apply(o1, NumeralValue(a), bc, m).value, 5))
  {
    var toks := [a, o1, b, o2, c];
    var bc := Apply(o2, NumeralValue(b), NumeralValue(c), m).value;
    var abc := Apply(o1, NumeralValue(a), bc, m).value;
    NumeralFactor(toks, 0, x, m);
    NumeralFactor(toks, 2, x, m);
    NumeralFactor(toks, 4, x, m);
    // `b o2 c` at the tighter level
    LoneOperand(level + 1, toks, 2, NumeralValue(b), x, m, level + 1);
    if level + 1 < 2 {
      FactorAlone(level + 2, toks, 4, NumeralValue(c), x, m);
    }
    assert Operand(level + 1, toks, 4, x, m) == Ok(Parsed(NumeralValue(c), 5));
    FoldStop(level + 1, toks, 5, bc, x, m);
    assert Fold(level + 1, toks, 3, NumeralValue(b), x, m) == Ok(Parsed(bc, 5));
    assert Binary(level + 1, toks, 2, x, m) == Ok(Parsed(bc, 5));
    // `a o1 (b o2 c)` at this level
    LoneOperand(level, toks, 0, NumeralValue(a), x, m, level);
    assert Operand(level, toks, 2, x, m) == Ok(Parsed(bc, 5));
    FoldStop(level, toks, 5, abc, x, m);
    assert Fold(level, toks, 1, NumeralValue(a), x, m) == Ok(Parsed(abc, 5));
    assert Binary(level, toks, 0, x, m) == Ok(Parsed(abc, 5));
    WholeAtLooserLevels(level, toks, 0, abc, x, m);
  }

  /** An operator one level tighter binds first when it stands on the left:
      `a * b + c` is `(a * b) + c` and `a ^ b * c` is `(a ^ b) * c`. */
  lemma TighterOnTheLeft(level: nat, a: string, o2: string, b: string, o1: string, c: string, x: real, m: MathLib)
    requires level < 2 && IsNumeral(a) && IsNumeral(b) && IsNumeral(c)
    requires IsLevelOperator(level + 1, o2) && IsLevelOperator(level, o1)
    requires Apply(o2, NumeralValue(a), NumeralValue(b), m).Ok?
    requires Apply(o1, Apply(o2, NumeralValue(a), NumeralValue(b), m).value, NumeralValue(c), m).Ok?
    ensures var ab := Apply(o2, NumeralValue(a), NumeralValue(b), m).value;
      Expression([a, o2, b, o1, c], 0, x, m) == Ok(Parsed(Apply(o1, ab, NumeralValue(c), m).value, 5))
  {
    var toks := [a, o2, b, o1, c];
    var ab := Apply(o2, NumeralValue(a), NumeralValue(b), m).value;
    var abc := Apply(o1, ab, NumeralValue(c), m).value;
    NumeralFactor(toks, 0, x, m);
    NumeralFactor(toks, 2, x, m);
    NumeralFactor(toks, 4, x, m);
    // `a o2 b` at the tighter level, which stops before `o1`
    LoneOperand(level + 1, toks, 0, NumeralValue(a), x, m, level + 1);
    LoneOperand(level + 1, toks, 2, NumeralValue(b), x, m, level);
    assert !IsLevelOperator(level + 1, o1) by {
      if IsLevelOperator(level + 1, o1) {
        OneLevel(level, level + 1, o1);
      }
    }
    FoldStop(level + 1, toks, 3, ab, x, m);
    assert Fold(level + 1, toks, 1, NumeralValue(a), x, m) == Ok(Parsed(ab, 3));
    assert Binary(level + 1, toks, 0, x, m) == Ok(Parsed(ab, 3));
    // `(a o2 b) o1 c` at this level
    assert Operand(level, toks, 0, x, m) == Ok(Parsed(ab, 3));
    FactorAlone(level + 1, toks, 4, NumeralValue(c), x, m);
    assert Operand(level, toks, 4, x, m) == Ok(Parsed(NumeralValue(c), 5));
    FoldStop(level, toks, 5, abc, x, m);
    assert Fold(level, toks, 3, ab, x, m) == Ok(Parsed(abc, 5));
    assert Binary(level, toks, 0, x, m) == Ok(Parsed(abc, 5));
    WholeAtLooserLevels(level, toks, 0, abc, x, m);
  }
}

/** The errors a factor reports when its parentheses are left open or its
    token is neither a number, a constant, `x`, nor a call. */
module ParserErrors {
  import opened Results
  import opened JsRuntime
  import opened Tokenizer
  import opened Parser
  import opened ParserProperties

  /** An opening parenthesis that is never closed: `( 1` fails with `Unclosed`. */
  lemma UnclosedParenthesis(a: string, x: real, m: MathLib)
    requires IsNumeral(a)
    ensures Expression(["(", a], 0, x, m) == Err(Unclosed)
  {
    var toks := ["(", a];
    NumeralFactor(toks, 1, x, m);
    FactorAlone(0, toks, 1, NumeralValue(a), x, m);
    assert Factor(toks, 0, x, m) == Err(Unclosed);
    BinaryFailsWithFactor(0, toks, 0, x, m);
  }

  /** A name starts with a letter, so it is never a numeral. */
  lemma NameIsNoNumeral(name: string)
    requires IsNameToken(name)
    ensures !IsNumeral(name)
  {
    assert !IsDigit(name[0]);
    assert RunEnd(name, 0, IsDigit) == 0;
  }

  /** A call whose argument is never closed: `sin ( 1` fails with `UnclosedCall`. */
  lemma UnclosedFunctionCall(name: string, a: string, x: real, m: MathLib)
    requires IsNameToken(name) && name != "x" && name != "pi" && name != "e"
    requires IsNumeral(a)
    ensures Expression([name, "(", a], 0, x, m) == Err(UnclosedCall)
  {
    var toks := [name, "(", a];
    NameIsNoNumeral(name);
    NumeralFactor(toks, 2, x, m);
    FactorAlone(0, toks, 2, NumeralValue(a), x, m);
    assert Factor(toks, 0, x, m) == Err(UnclosedCall);
    BinaryFailsWithFactor(0, toks, 0, x, m);
  }

  /** A token that is not `(`, a numeral, `x`, `pi` or `e`, and is not followed
      by `(`, is reported as unexpected. */
  lemma UnexpectedToken(toks: seq<string>, x: real, m: MathLib)
    requires |toks| > 0 && toks[0] != "(" && !IsNumeral(toks[0])
    requires toks[0] != "x" && toks[0] != "pi" && toks[0] != "e"
    requires |toks| == 1 || toks[1] != "("
    ensures Expression(toks, 0, x, m) == Err(Unexpected(toks[0]))
  {
    assert Factor(toks, 0, x, m) == Err(Unexpected(toks[0]));
    BinaryFailsWithFactor(0, toks, 0, x, m);
  }

  /** A name standing alone is no call: `sin` fails with `Unexpected("sin")`. */
  lemma BareNameIsUnexpected(name: string, x: real, m: MathLib)
    requires IsNameToken(name) && name != "x" && name != "pi" && name != "e"
    ensures Expression([name], 0, x, m) == Err(Unexpected(name))
  {
    NameIsNoNumeral(name);
    UnexpectedToken([name], x, m);
  }

  /** The tokenizer reads `.5` and `1.2.3` as number tokens, but neither is a
      numeral, so each fails as unexpected when it stands alone. */
  lemma MalformedNumbers(x: real, m: MathLib)
    ensures IsNumberToken(".5") && !IsNumeral(".5")
    ensures IsNumberToken("1.2.3") && !IsNumeral("1.2.3")
    ensures Expression([".5"], 0, x, m) == Err(Unexpected(".5"))
    ensures Expression(["1.2.3"], 0, x, m) == Err(Unexpected("1.2.3"))
  {
    assert RunEnd(".5", 0, IsDigit) == 0;
    assert !IsNumeral(".5") by {
      assert ".5"[0] != '-';
    }
    assert RunEnd("1.2.3", 0, IsDigit) == 1 by {
      assert RunEnd("1.2.3", 1, IsDigit) == 1;
    }
    assert !AllDigits("1.2.3"[2..]) by {
      assert "1.2.3"[2..][1] == '.';
    }
    assert !IsNumeral("1.2.3") by {
      assert "1.2.3"[0] != '-';
    }
    UnexpectedToken([".5"], x, m);
    UnexpectedToken(["1.2.3"], x, m);
  }
}
