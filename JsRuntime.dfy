/** The parts of the JavaScript runtime the model relies on.

    Numbers are exact reals. The library functions `Math.sin` ... `Math.abs`
    and `Math.pow` are not given a meaning: every operation that uses them
    takes a `MathLib` record of arbitrary functions. `Math.PI` and `Math.E`
    are the reals written by `String(Math.PI)` and `String(Math.E)`. */
module JsRuntime {
  import opened Tokenizer

  /** The uninterpreted math library: one arbitrary function per `Math.*` member used. */
  datatype MathLib = MathLib(
    sin: real -> real,
    cos: real -> real,
    tan: real -> real,
    sqrt: real -> real,
    log: real -> real,
    exp: real -> real,
    abs: real -> real,
    pow: (real, real) -> real)

  /** `String(Math.PI)` and `String(Math.E)`. */
  const PI_TEXT: string := "3.141592653589793"
  const E_TEXT: string := "2.718281828459045"

  predicate IsDigit(c: char) {
    '0' <= c <= '9'
  }

  function DigitValue(c: char): (d: nat)
    requires IsDigit(c)
    ensures d < 10
  {
    (c as int) - ('0' as int)
  }

  function DigitChar(d: nat): (c: char)
    requires d < 10
    ensures IsDigit(c) && DigitValue(c) == d
  {
    (('0' as int) + d) as char
  }

  /** The value of a non-empty run of decimal digits, most significant first. */
  function DigitsValue(s: string): nat
    requires forall k :: 0 <= k < |s| ==> IsDigit(s[k])
  {
    if s == [] then 0 else DigitsValue(s[..|s| - 1]) * 10 + DigitValue(s[|s| - 1])
  }

  /** `String(n)` for an integer `n`: its decimal digits, with a leading `-` when negative. */
  function NatToString(n: nat): (s: string)
    ensures |s| > 0 && forall k :: 0 <= k < |s| ==> IsDigit(s[k])
    ensures DigitsValue(s) == n
    ensures n > 0 ==> s[0] != '0'
  {
    if n < 10 then [DigitChar(n)]
    else
      var s := NatToString(n / 10) + [DigitChar(n % 10)];
      assert s[..|s| - 1] == NatToString(n / 10);
      s
  }

  function IntToString(n: int): (s: string)
    ensures n >= 0 ==> s == NatToString(n)
    ensures n < 0 ==> s == "-" + NatToString(-n)
  {
    if n < 0 then "-" + NatToString(-n) else NatToString(n)
  }

  // ----- Numerals: /^-?\d+(\.\d+)?$/ and the value `Number.parseFloat` gives them -----

  predicate AllDigits(s: string) {
    |s| > 0 && forall k :: 0 <= k < |s| ==> IsDigit(s[k])
  }

  predicate IsUnsignedNumeral(t: string) {
    var j := RunEnd(t, 0, IsDigit);
    j > 0 && (j == |t| || (t[j] == '.' && AllDigits(t[j + 1..])))
  }

  /** The texts `/^-?\d+(\.\d+)?$/` accepts. */
  predicate IsNumeral(t: string) {
    IsUnsignedNumeral(t) || (|t| > 0 && t[0] == '-' && IsUnsignedNumeral(t[1..]))
  }

  /** The value of the digits after a decimal point. */
  function FractionValue(s: string): real
    requires forall k :: 0 <= k < |s| ==> IsDigit(s[k])
  {
    if s == [] then 0.0 else (DigitValue(s[0]) as real + FractionValue(s[1..])) / 10.0
  }

  function UnsignedValue(t: string): real
    requires IsUnsignedNumeral(t)
  {
    var j := RunEnd(t, 0, IsDigit);
    if j == |t| then DigitsValue(t) as real
    else DigitsValue(t[..j]) as real + FractionValue(t[j + 1..])
  }

  /** The exact decimal value of a numeral (rounding to a double is not modelled). */
  function NumeralValue(t: string): real
    requires IsNumeral(t)
  {
    if IsUnsignedNumeral(t) then UnsignedValue(t) else -UnsignedValue(t[1..])
  }

  /** `Math.PI` and `Math.E`: the reals their texts denote, so that
      `Number.parseFloat(String(Math.PI)) == Math.PI`. */
  const PI: real := (ConstantTextsAreNumerals(); NumeralValue(PI_TEXT))
  const E: real := (ConstantTextsAreNumerals(); NumeralValue(E_TEXT))

  /** Both texts are one digit, a point and fifteen digits. */
  lemma ConstantTextsAreNumerals()
    ensures IsUnsignedNumeral(PI_TEXT) && RunEnd(PI_TEXT, 0, IsDigit) == 1
    ensures IsUnsignedNumeral(E_TEXT) && RunEnd(E_TEXT, 0, IsDigit) == 1
  {
    assert RunEnd(PI_TEXT, 0, IsDigit) == 1;
    assert RunEnd(E_TEXT, 0, IsDigit) == 1;
  }

  /** The digits after a decimal point denote a value in `[0, 1)`. */
  lemma {:induction false} FractionBounds(s: string)
    requires forall k :: 0 <= k < |s| ==> IsDigit(s[k])
    ensures 0.0 <= FractionValue(s) < 1.0
    decreases |s|
  {
    if s != [] {
      FractionBounds(s[1..]);
    }
  }

  /** `Math.PI` lies in `[3, 4)`: its text is the digit 3, a point and a fraction. */
  lemma PiBounds()
    ensures 3.0 <= PI < 4.0
  {
    ConstantTextsAreNumerals();
    var t := PI_TEXT;
    assert t[..1] == "3";
    assert DigitsValue(t[..1]) == 3 by {
      assert t[..1][..0] == [];
    }
    FractionBounds(t[2..]);
  }
}
