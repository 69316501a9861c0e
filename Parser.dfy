/** The expression evaluator of src/lib/parser.ts.

    The recursive-descent parser is given twice: as pure functions over a token
    sequence and a read position (the specification), and as the class
    `MathParser`, whose methods move the `position` field through the `tokens`
    field exactly as the source does and are proved to compute those functions. */
module Parser {
  import opened Results
  import opened JsRuntime
  import opened Tokenizer

  /** The errors `MathParser` throws; `Message` is the thrown error's text. */
  datatype ParseError =
    | Incomplete
    | Unclosed
    | UnclosedCall
    | UnknownFunction(name: string)
    | Unexpected(token: string)
    | DivisionByZero
  {
    function Message(): string {
      match this
      case Incomplete => "Expresión incompleta"
      case Unclosed => "Paréntesis no cerrado"
      case UnclosedCall => "Paréntesis no cerrado en función"
      case UnknownFunction(name) => "Función desconocida: " + name
      case Unexpected(token) => "Token inesperado: " + token
      case DivisionByZero => "División por cero"
    }
  }

  /** A value read by one grammar rule and the position just after it. */
  datatype Parsed = Parsed(value: real, next: nat)

  function ValueOf(p: Result<Parsed, ParseError>): Result<real, ParseError> {
    match p
    case Ok(q) => Ok(q.value)
    case Err(e) => Err(e)
  }

  // ----- Operators and functions -----

  /** The operators folded at each binary level: 0 is `+ -`, 1 is `* /`, 2 is `^`. */
  predicate IsLevelOperator(level: nat, t: string) {
    if level == 0 then t == "+" || t == "-"
    else if level == 1 then t == "*" || t == "/"
    else level == 2 && t == "^"
  }

  /** The five operator tokens are different texts. */
  lemma DistinctOperators()
    ensures "+" != "-" && "+" != "*" && "+" != "/" && "+" != "^"
    ensures "-" != "*" && "-" != "/" && "-" != "^"
    ensures "*" != "/" && "*" != "^" && "/" != "^"
  {
    assert "+"[0] == '+' && "-"[0] == '-' && "*"[0] == '*' && "/"[0] == '/' && "^"[0] == '^';
  }

  /** One step of a fold: `left op right`; only `/` by an exact zero fails. */
  function Apply(op: string, left: real, right: real, m: MathLib): (r: Result<real, ParseError>)
    ensures r.Err? <==> op == "/" && right == 0.0
    ensures r.Err? ==> r.error == DivisionByZero
  {
    if op == "+" then Ok(left + right)
    else if op == "-" then Ok(left - right)
    else if op == "*" then Ok(left * right)
    else if op == "/" then (if right == 0.0 then Err(DivisionByZero) else Ok(left / right))
    else Ok(m.pow(left, right))
  }

  /** `Apply` on `*` multiplies. */
  lemma ApplyProduct(op: string, left: real, right: real, m: MathLib)
    requires op == "*"
    ensures Apply(op, left, right, m) == Ok(left * right)
  {
    DistinctOperators();
  }

  /** `Apply` on `/` divides by a non-zero right operand. */
  lemma ApplyQuotient(op: string, left: real, right: real, m: MathLib)
    requires op == "/" && right != 0.0
    ensures Apply(op, left, right, m) == Ok(left / right)
  {
    DistinctOperators();
  }

  predicate IsFunctionName(name: string) {
    name in {"sin", "cos", "tan", "sqrt", "log", "exp", "abs"}
  }

  /** A named function applied to an argument, after its closing parenthesis. */
  function ApplyFunction(name: string, arg: real, m: MathLib): (r: Result<real, ParseError>)
    ensures r.Err? <==> !IsFunctionName(name)
    ensures r.Err? ==> r.error == UnknownFunction(name)
  {
    if name == "sin" then Ok(m.sin(arg))
    else if name == "cos" then Ok(m.cos(arg))
    else if name == "tan" then Ok(m.tan(arg))
    else if name == "sqrt" then Ok(m.sqrt(arg))
    else if name == "log" then Ok(m.log(arg))
    else if name == "exp" then Ok(m.exp(arg))
    else if name == "abs" then Ok(m.abs(arg))
    else Err(UnknownFunction(name))
  }

  predicate SlashFrom(toks: seq<string>, pos: nat) {
    exists k :: pos <= k < |toks| && toks[k] == "/"
  }

  // ----- The grammar, as functions of (tokens, position) -----

  /** `parseExpression`: the loosest level. */
  function Expression(toks: seq<string>, pos: nat, x: real, m: MathLib): (r: Result<Parsed, ParseError>)
    requires pos <= |toks|
    ensures r.Ok? ==> pos < r.value.next <= |toks|
    ensures r == Err(DivisionByZero) ==> SlashFrom(toks, pos)
    decreases |toks| - pos, 7
  {
    Binary(0, toks, pos, x, m)
  }

  /** `parseAddSubtract` (level 0), `parseMultiplyDivide` (level 1) and
      `parsePower` (level 2): one operand, then a left-to-right fold. */
  function Binary(level: nat, toks: seq<string>, pos: nat, x: real, m: MathLib): (r: Result<Parsed, ParseError>)
    requires level <= 2 && pos <= |toks|
    ensures r.Ok? ==> pos < r.value.next <= |toks|
    ensures r == Err(DivisionByZero) ==> SlashFrom(toks, pos)
    decreases |toks| - pos, 2 * (3 - level)
  {
    match Operand(level, toks, pos, x, m)
    case Err(e) => Err(e)
    case Ok(first) => Fold(level, toks, first.next, first.value, x, m)
  }

  /** The operand of a level: the next tighter level, or a factor under `^`. */
  function Operand(level: nat, toks: seq<string>, pos: nat, x: real, m: MathLib): (r: Result<Parsed, ParseError>)
    requires level <= 2 && pos <= |toks|
    ensures r.Ok? ==> pos < r.value.next <= |toks|
    ensures r == Err(DivisionByZero) ==> SlashFrom(toks, pos)
    decreases |toks| - pos, 2 * (3 - level) - 1
  {
    if level == 2 then Factor(toks, pos, x, m) else Binary(level + 1, toks, pos, x, m)
  }

  /** The loop of a level: while the next token is one of its operators, read
      another operand and combine it with the value so far. */
  function Fold(level: nat, toks: seq<string>, pos: nat, left: real, x: real, m: MathLib): (r: Result<Parsed, ParseError>)
    requires level <= 2 && pos <= |toks|
    ensures r.Ok? ==> pos <= r.value.next <= |toks|
    ensures r == Err(DivisionByZero) ==> SlashFrom(toks, pos)
    decreases |toks| - pos, 0
  {
    if pos < |toks| && IsLevelOperator(level, toks[pos]) then
      match Operand(level, toks, pos + 1, x, m)
      case Err(e) => Err(e)
      case Ok(right) =>
        match Apply(toks[pos], left, right.value, m)
        case Err(e) => Err(e)
        case Ok(v) => Fold(level, toks, right.next, v, x, m)
    else
      Ok(Parsed(left, pos))
  }

  /** `parseFactor`: consumes one token before anything else. */
  function Factor(toks: seq<string>, pos: nat, x: real, m: MathLib): (r: Result<Parsed, ParseError>)
    requires pos <= |toks|
    ensures r.Ok? ==> pos < r.value.next <= |toks|
    ensures r == Err(DivisionByZero) ==> SlashFrom(toks, pos)
    decreases |toks| - pos, 0
  {
    if pos == |toks| then Err(Incomplete)
    else
      var token := toks[pos];
      if token == "(" then
        match Expression(toks, pos + 1, x, m)
        case Err(e) => Err(e)
        case Ok(inner) =>
          if inner.next < |toks| && toks[inner.next] == ")" then Ok(Parsed(inner.value, inner.next + 1))
          else Err(Unclosed)
      else if IsNumeral(token) then Ok(Parsed(NumeralValue(token), pos + 1))
      else if token == "x" then Ok(Parsed(x, pos + 1))
      else if token == "pi" then Ok(Parsed(PI, pos + 1))
      else if token == "e" then Ok(Parsed(E, pos + 1))
      else if pos + 1 < |toks| && toks[pos + 1] == "(" then
        match Expression(toks, pos + 2, x, m)
        case Err(e) => Err(e)
        case Ok(arg) =>
          if arg.next < |toks| && toks[arg.next] == ")" then
            match ApplyFunction(token, arg.value, m)
            case Err(e) => Err(e)
            case Ok(v) => Ok(Parsed(v, arg.next + 1))
          else Err(UnclosedCall)
      else Err(Unexpected(token))
  }

  /** `evaluate(expression, x)`: tokenize, start at position 0, read one
      expression. Tokens left over after it are not looked at. */
  function Evaluation(expression: string, x: real, m: MathLib): Result<real, ParseError> {
    ValueOf(Expression(Tokenization(expression), 0, x, m))
  }

  /** A method's outcome `r`, ending at `pos`, is the one the function `spec` gives. */
  predicate Matches(spec: Result<Parsed, ParseError>, r: Result<real, ParseError>, pos: nat) {
    spec == (if r.Ok? then Ok(Parsed(r.value, pos)) else Err(r.error))
  }

  // ----- One step of a fold, for the loops of the class -----

  /** A level starts with its operand: an error there is the level's error,
      and otherwise the fold goes on from just after it. */
  lemma BinaryStart(level: nat, toks: seq<string>, pos: nat, x: real, m: MathLib, r: Result<real, ParseError>, q: nat)
    requires level <= 2 && pos <= |toks|
    requires Matches(if level == 2 then Factor(toks, pos, x, m) else Binary(level + 1, toks, pos, x, m), r, q)
    ensures r.Err? ==> Binary(level, toks, pos, x, m) == Err(r.error)
    ensures r.Ok? ==> pos < q <= |toks| && Binary(level, toks, pos, x, m) == Fold(level, toks, q, r.value, x, m)
  {
  }

  /** One turn of a level's loop, at an operator of that level: the operand
      after it fails the fold, or the operator combines it into the value. */
  lemma FoldTurn(level: nat, toks: seq<string>, pos: nat, left: real, x: real, m: MathLib, r: Result<real, ParseError>, q: nat)
    requires level <= 2 && pos < |toks| && IsLevelOperator(level, toks[pos])
    requires Matches(if level == 2 then Factor(toks, pos + 1, x, m) else Binary(level + 1, toks, pos + 1, x, m), r, q)
    ensures r.Err? ==> Fold(level, toks, pos, left, x, m) == Err(r.error)
    ensures r.Ok? ==> pos + 1 < q <= |toks|
    ensures r.Ok? && Apply(toks[pos], left, r.value, m).Err? ==>
      Fold(level, toks, pos, left, x, m) == Err(Apply(toks[pos], left, r.value, m).error)
    ensures r.Ok? && Apply(toks[pos], left, r.value, m).Ok? ==>
      Fold(level, toks, pos, left, x, m) == Fold(level, toks, q, Apply(toks[pos], left, r.value, m).value, x, m)
  {
  }

  /** `FoldTurn` at `+`: the operand is added. */
  lemma FoldTurnAdd(level: nat, toks: seq<string>, pos: nat, left: real, x: real, m: MathLib, r: Result<real, ParseError>, q: nat)
    requires level <= 2 && pos < |toks| && toks[pos] == "+" && IsLevelOperator(level, toks[pos])
    requires Matches(if level == 2 then Factor(toks, pos + 1, x, m) else Binary(level + 1, toks, pos + 1, x, m), r, q)
    ensures r.Ok? ==> Fold(level, toks, pos, left, x, m) == Fold(level, toks, q, left + r.value, x, m)
  {
    FoldTurn(level, toks, pos, left, x, m, r, q);
  }

  /** `FoldTurn` at `-`: the operand is subtracted. */
  lemma FoldTurnSubtract(level: nat, toks: seq<string>, pos: nat, left: real, x: real, m: MathLib, r: Result<real, ParseError>, q: nat)
    requires level <= 2 && pos < |toks| && toks[pos] == "-" && IsLevelOperator(level, toks[pos])
    requires Matches(if level == 2 then Factor(toks, pos + 1, x, m) else Binary(level + 1, toks, pos + 1, x, m), r, q)
    ensures r.Ok? ==> Fold(level, toks, pos, left, x, m) == Fold(level, toks, q, left - r.value, x, m)
  {
    FoldTurn(level, toks, pos, left, x, m, r, q);
    DistinctOperators();
  }

  /** `FoldTurn` at `*`: the value is multiplied by the operand. */
  lemma FoldTurnMultiply(level: nat, toks: seq<string>, pos: nat, left: real, x: real, m: MathLib, r: Result<real, ParseError>, q: nat)
    requires level <= 2 && pos < |toks| && toks[pos] == "*" && IsLevelOperator(level, toks[pos])
    requires Matches(if level == 2 then Factor(toks, pos + 1, x, m) else Binary(level + 1, toks, pos + 1, x, m), r, q)
    ensures r.Ok? ==> Fold(level, toks, pos, left, x, m) == Fold(level, toks, q, left * r.value, x, m)
  {
    FoldTurn(level, toks, pos, left, x, m, r, q);
    if r.Ok? {
      ApplyProduct(toks[pos], left, r.value, m);
    }
  }

  /** `FoldTurn` at `/`: a zero divisor fails the fold, any other divides. */
  lemma FoldTurnDivide(level: nat, toks: seq<string>, pos: nat, left: real, x: real, m: MathLib, r: Result<real, ParseError>, q: nat)
    requires level <= 2 && pos < |toks| && toks[pos] == "/" && IsLevelOperator(level, toks[pos])
    requires Matches(if level == 2 then Factor(toks, pos + 1, x, m) else Binary(level + 1, toks, pos + 1, x, m), r, q)
    ensures r.Ok? && r.value == 0.0 ==> Fold(level, toks, pos, left, x, m) == Err(DivisionByZero)
    ensures r.Ok? && r.value != 0.0 ==> Fold(level, toks, pos, left, x, m) == Fold(level, toks, q, left / r.value, x, m)
  {
    FoldTurn(level, toks, pos, left, x, m, r, q);
    if r.Ok? && r.value != 0.0 {
      ApplyQuotient(toks[pos], left, r.value, m);
    }
  }

  /** `FoldTurn` at `^`: the value is raised to the operand with `Math.pow`. */
  lemma FoldTurnPower(level: nat, toks: seq<string>, pos: nat, left: real, x: real, m: MathLib, r: Result<real, ParseError>, q: nat)
    requires level <= 2 && pos < |toks| && toks[pos] == "^" && IsLevelOperator(level, toks[pos])
    requires Matches(if level == 2 then Factor(toks, pos + 1, x, m) else Binary(level + 1, toks, pos + 1, x, m), r, q)
    ensures r.Ok? ==> Fold(level, toks, pos, left, x, m) == Fold(level, toks, q, m.pow(left, r.value), x, m)
  {
    FoldTurn(level, toks, pos, left, x, m, r, q);
    DistinctOperators();
  }

  /** A level's loop stops at a token that is not one of its operators. */
  lemma FoldStop(level: nat, toks: seq<string>, pos: nat, left: real, x: real, m: MathLib)
    requires level <= 2 && pos <= |toks|
    requires pos == |toks| || !IsLevelOperator(level, toks[pos])
    ensures Fold(level, toks, pos, left, x, m) == Ok(Parsed(left, pos))
  {
  }

  // ----- The class -----

  class MathParser {
    var tokens: seq<string>
    var position: nat

    constructor ()
      ensures tokens == [] && position == 0
    {
      tokens := [];
      position := 0;
    }

    /** Each call re-tokenizes and restarts at position 0, so the result
        depends only on the arguments, never on earlier calls. */
    method Evaluate(expression: string, x: real, m: MathLib) returns (r: Result<real, ParseError>)
      modifies this
      ensures tokens == Tokenization(expression)
      ensures r == Evaluation(expression, x, m)
      ensures r.Ok? ==> position == Expression(tokens, 0, x, m).value.next
    {
      Tokenize(expression);
      position := 0;
      r := ParseExpression(x, m);
    }

    /** `tokenize`: one pass over the text, pushing each token onto `tokens`. */
    method Tokenize(expression: string)
      modifies this`tokens
      ensures tokens == Tokenization(expression)
    {
      tokens := [];
      var i := 0;
      var len := |expression|;
      while i < len
        invariant i <= len
        invariant tokens + TokensFrom(expression, i) == Tokenization(expression)
      {
        var c := expression[i];
        if c == ' ' {
          i := i + 1;
        } else if IsNumberChar(c) {
          var num;
          num, i := ReadRun(expression, i, IsNumberChar);
          tokens := tokens + [num];
        } else if IsOperatorChar(c) {
          tokens := tokens + [[c]];
          i := i + 1;
        } else if IsLetter(c) {
          var name;
          name, i := ReadRun(expression, i, IsWordChar);
          tokens := tokens + [name];
        } else {
          i := i + 1;
        }
      }
    }

    /** The inner loops of `tokenize`: gather characters while they stay in the class. */
    static method ReadRun(s: string, i: nat, inRun: char -> bool) returns (run: string, j: nat)
      requires i <= |s|
      ensures j == RunEnd(s, i, inRun) && run == s[i..j]
    {
      run, j := "", i;
      while j < |s| && inRun(s[j])
        invariant i <= j <= |s|
        invariant run == s[i..j]
        invariant forall k :: i <= k < j ==> inRun(s[k])
      {
        run := run + [s[j]];
        j := j + 1;
      }
      RunEndUnique(s, i, j, inRun);
    }

    method ParseExpression(x: real, m: MathLib) returns (r: Result<real, ParseError>)
      requires position <= |tokens|
      modifies this`position
      ensures Matches(Expression(tokens, old(position), x, m), r, position)
      decreases |tokens| - position, 7
    {
      r := ParseAddSubtract(x, m);
    }

    method ParseAddSubtract(x: real, m: MathLib) returns (r: Result<real, ParseError>)
      requires position <= |tokens|
      modifies this`position
      ensures Matches(Binary(0, tokens, old(position), x, m), r, position)
      decreases |tokens| - position, 6
    {
      ghost var start, toks := position, tokens;
      var first := ParseMultiplyDivide(x, m);
      BinaryStart(0, toks, start, x, m, first, position);
      if first.Err? {
        return Err(first.error);
      }
      var left := first.value;
      while position < |tokens|
        invariant start < position <= |tokens|
        invariant tokens == toks
        invariant Binary(0, toks, start, x, m) == Fold(0, toks, position, left, x, m)
        decreases |tokens| - position
      {
        var operator := tokens[position];
        if operator != "+" && operator != "-" {
          break;
        }
        ghost var at := position;
        position := position + 1;
        var right := ParseMultiplyDivide(x, m);
        FoldTurn(0, toks, at, left, x, m, right, position);
        if right.Err? {
          return Err(right.error);
        }
        if operator == "+" {
          FoldTurnAdd(0, toks, at, left, x, m, right, position);
          left := left + right.value;
        } else {
          FoldTurnSubtract(0, toks, at, left, x, m, right, position);
          left := left - right.value;
        }
      }
      FoldStop(0, toks, position, left, x, m);
      r := Ok(left);
    }

    method ParseMultiplyDivide(x: real, m: MathLib) returns (r: Result<real, ParseError>)
      requires position <= |tokens|
      modifies this`position
      ensures Matches(Binary(1, tokens, old(position), x, m), r, position)
      decreases |tokens| - position, 4
    {
      ghost var start, toks := position, tokens;
      var first := ParsePower(x, m);
      BinaryStart(1, toks, start, x, m, first, position);
      if first.Err? {
        return Err(first.error);
      }
      var left := first.value;
      while position < |tokens|
        invariant start < position <= |tokens|
        invariant tokens == toks
        invariant Binary(1, toks, start, x, m) == Fold(1, toks, position, left, x, m)
        decreases |tokens| - position
      {
        var operator := tokens[position];
        if operator != "*" && operator != "/" {
          break;
        }
        ghost var at := position;
        position := position + 1;
        var right := ParsePower(x, m);
        FoldTurn(1, toks, at, left, x, m, right, position);
        if right.Err? {
          return Err(right.error);
        }
        if operator == "*" {
          FoldTurnMultiply(1, toks, at, left, x, m, right, position);
          left := left * right.value;
        } else {
          FoldTurnDivide(1, toks, at, left, x, m, right, position);
          if right.value == 0.0 {
            return Err(DivisionByZero);
          }
          left := left / right.value;
        }
      }
      FoldStop(1, toks, position, left, x, m);
      r := Ok(left);
    }

    method ParsePower(x: real, m: MathLib) returns (r: Result<real, ParseError>)
      requires position <= |tokens|
      modifies this`position
      ensures Matches(Binary(2, tokens, old(position), x, m), r, position)
      decreases |tokens| - position, 2
    {
      ghost var start, toks := position, tokens;
      var first := ParseFactor(x, m);
      BinaryStart(2, toks, start, x, m, first, position);
      if first.Err? {
        return Err(first.error);
      }
      var left := first.value;
      while position < |tokens|
        invariant start < position <= |tokens|
        invariant tokens == toks
        invariant Binary(2, toks, start, x, m) == Fold(2, toks, position, left, x, m)
        decreases |tokens| - position
      {
        var operator := tokens[position];
        if operator != "^" {
          break;
        }
        ghost var at := position;
        position := position + 1;
        var right := ParseFactor(x, m);
        FoldTurn(2, toks, at, left, x, m, right, position);
        if right.Err? {
          return Err(right.error);
        }
        FoldTurnPower(2, toks, at, left, x, m, right, position);
        left := m.pow(left, right.value);
      }
      FoldStop(2, toks, position, left, x, m);
      r := Ok(left);
    }

    method ParseFactor(x: real, m: MathLib) returns (r: Result<real, ParseError>)
      requires position <= |tokens|
      modifies this`position
      ensures Matches(Factor(tokens, old(position), x, m), r, position)
      decreases |tokens| - position, 0
    {
      if position >= |tokens| {
        return Err(Incomplete);
      }
      var token := tokens[position];
      position := position + 1;

      if token == "(" {
        var value :- ParseExpression(x, m);
        if position < |tokens| && tokens[position] == ")" {
          position := position + 1;
          return Ok(value);
        }
        return Err(Unclosed);
      }

      if IsNumeral(token) {
        return Ok(NumeralValue(token));
      }
      if token == "x" {
        return Ok(x);
      }
      if token == "pi" {
        return Ok(PI);
      }
      if token == "e" {
        return Ok(E);
      }

      if position < |tokens| && tokens[position] == "(" {
        position := position + 1;
        var arg :- ParseExpression(x, m);
        if position < |tokens| && tokens[position] == ")" {
          position := position + 1;
          if token == "sin" { return Ok(m.sin(arg)); }
          if token == "cos" { return Ok(m.cos(arg)); }
          if token == "tan" { return Ok(m.tan(arg)); }
          if token == "sqrt" { return Ok(m.sqrt(arg)); }
          if token == "log" { return Ok(m.log(arg)); }
          if token == "exp" { return Ok(m.exp(arg)); }
          if token == "abs" { return Ok(m.abs(arg)); }
          return Err(UnknownFunction(token));
        }
        return Err(UnclosedCall);
      }

      return Err(Unexpected(token));
    }
  }
}
