/** `getValorAnalitico` (src/lib/analyticalValues.ts): the exact value of a few
    well-known integrals, looked up by the integrand's text and the limits.

    The cleaned text is compared first with six special cases, in order, and
    then looked up in the constant table `valoresAnaliticos` under the key
    `${a},${b}`. JavaScript's number-to-string conversion, used for that key and
    for the formula text, is the parameter `fmt`; the `Math` library is the
    parameter `m`.

    The lookup is written once, for two variants: `AsWritten` follows the code
    line by line, and `Corrected` repairs the three places where the code
    departs from what it evidently means (see the lemmas at the end). */
module AnalyticalValues {
  import opened Results
  import opened JsRuntime
  import Simpson13

  /** A successful lookup: the exact value and the formula shown with it. */
  datatype Known = Known(valorExacto: real, formula: string)

  datatype Variant = AsWritten | Corrected

  // ----- Cleaning: `expression.replace(/dx$/i, "").trim()` -----

  /** The characters JavaScript's `trim` removes: white space and line terminators. */
  predicate IsJsSpace(c: char) {
    c == '\t' || c == '\n' || c == '\U{000B}' || c == '\U{000C}' || c == '\r' || c == ' '
    || c == '\U{00A0}' || c == '\U{1680}' || ('\U{2000}' <= c <= '\U{200A}')
    || c == '\U{2028}' || c == '\U{2029}' || c == '\U{202F}' || c == '\U{205F}'
    || c == '\U{3000}' || c == '\U{FEFF}'
  }

  /** `/dx$/i`: a final `d` and `x`, in either case, are removed; nothing else is. */
  function StripDx(s: string): (r: string)
    ensures r == s || (|s| >= 2 && r == s[..|s| - 2] && s[|s| - 2] in "dD" && s[|s| - 1] in "xX")
    ensures |s| >= 2 && s[|s| - 2] in "dD" && s[|s| - 1] in "xX" ==> r == s[..|s| - 2]
  {
    if |s| >= 2 && (s[|s| - 2] == 'd' || s[|s| - 2] == 'D') && (s[|s| - 1] == 'x' || s[|s| - 1] == 'X')
    then s[..|s| - 2]
    else s
  }

  /** The leading white space removed: a suffix of `s` that does not start with white space. */
  function TrimStart(s: string): (r: string)
    ensures |r| <= |s| && r == s[|s| - |r|..]
    ensures forall k :: 0 <= k < |s| - |r| ==> IsJsSpace(s[k])
    ensures r == [] || !IsJsSpace(r[0])
  {
    if s != [] && IsJsSpace(s[0]) then TrimStart(s[1..]) else s
  }

  /** The trailing white space removed: a prefix of `s` that does not end with white space. */
  function TrimEnd(s: string): (r: string)
    ensures |r| <= |s| && r == s[..|r|]
    ensures forall k :: |r| <= k < |s| ==> IsJsSpace(s[k])
    ensures r == [] || !IsJsSpace(r[|r| - 1])
  {
    if s != [] && IsJsSpace(s[|s| - 1]) then TrimEnd(s[..|s| - 1]) else s
  }

  /** `String.prototype.trim`. */
  function Trim(s: string): (r: string)
    ensures |r| <= |s|
    ensures r == [] || (!IsJsSpace(r[0]) && !IsJsSpace(r[|r| - 1]))
  {
    var t := TrimStart(s);
    var r := TrimEnd(t);
    assert r != [] ==> r[0] == t[0];
    r
  }

  /** The text every comparison uses. */
  function Clean(expression: string): string {
    Trim(StripDx(expression))
  }

  // ----- The table and the special cases -----

  /** `(2/3)·(12^(3/2) - 6^(3/2))`, with `Math.pow` from `m`. */
  function SqrtSixTwelve(m: MathLib): real {
    (2.0 / 3.0) * (m.pow(12.0, 3.0 / 2.0) - m.pow(6.0, 3.0 / 2.0))
  }

  /** The `sqrt(x)` entry for `"1,4"`: written `14/3 - 2/3`; the value of `(2/3)·x^(3/2)`
      at 4 is 16/3. */
  function SqrtOneFour(v: Variant): real {
    match v
    case AsWritten => 14.0 / 3.0 - 2.0 / 3.0
    case Corrected => 16.0 / 3.0 - 2.0 / 3.0
  }

  /** The special value for the cubic on `[0, 2]`: written `2 - 8/3 + 6 - 10`; the
      terms of `x^4/4 - 2x^3/3 + 3x^2/2 - 5x` at 2 are 4, 16/3, 6 and 10. */
  function CubicOnZeroTwo(v: Variant): real {
    match v
    case AsWritten => 2.0 - 8.0 / 3.0 + 6.0 - 10.0
    case Corrected => 4.0 - 16.0 / 3.0 + 6.0 - 10.0
  }

  /** `valoresAnaliticos`. */
  function Table(v: Variant, m: MathLib): map<string, map<string, real>> {
    map[
      "x^2" := map["0,1" := 1.0 / 3.0, "0,2" := 8.0 / 3.0, "1,2" := 7.0 / 3.0],
      "x^3" := map["0,1" := 1.0 / 4.0, "0,2" := 4.0, "1,2" := 15.0 / 4.0],
      "x" := map["0,1" := 1.0 / 2.0, "0,2" := 2.0, "1,2" := 3.0 / 2.0],
      "5" := map["0,1" := 5.0, "0,2" := 10.0, "1,2" := 5.0],
      "sin(x)" := map["0,3.14159" := 2.0, "0,6.28318" := 0.0],
      "sqrt(x)" := map["0,1" := 2.0 / 3.0, "1,4" := SqrtOneFour(v), "6,12" := SqrtSixTwelve(m)]
    ]
  }

  const CubicText: string := "x^3 - 2*x^2 + 3*x - 5"

  /** The six special cases, tried in order before the table. */
  function SpecialCase(v: Variant, m: MathLib, c: string, a: real, b: real): (r: Option<Known>)
    ensures r.Some? ==> c in {"sqrt(x)", "sin(x)", "exp(x)", "log(x)", CubicText, "x^2"}
  {
    if c == "sqrt(x)" && a == 6.0 && b == 12.0 then
      Some(Known(SqrtSixTwelve(m), "(2/3) * (12^(3/2) - 6^(3/2))"))
    else if c == "sin(x)" && a == 0.0 && b == PI then
      Some(Known(2.0, "∫sin(x)dx de 0 a π = 2"))
    else if c == "exp(x)" && a == 0.0 && b == 1.0 then
      Some(Known(E - 1.0, "∫e^x dx de 0 a 1 = e - 1"))
    else if c == "log(x)" && a == 1.0 && b == 2.0 then
      Some(Known(2.0 * m.log(2.0) - 1.0, "∫ln(x)dx de 1 a 2 = 2ln(2) - 1"))
    else if c == CubicText && a == 0.0 && b == 2.0 then
      Some(Known(CubicOnZeroTwo(v), "∫(x^3 - 2x^2 + 3x - 5)dx de 0 a 2 = (x^4/4 - 2x^3/3 + 3x^2/2 - 5x)|_0^2"))
    else if c == "x^2" && a == 0.0 && b == 1.0 then
      Some(Known(1.0 / 3.0, "∫x^2 dx de 0 a 1 = x^3/3|_0^1 = 1/3"))
    else
      None
  }

  /** Whether the table lookup succeeds: the code tests the entry for
      truthiness, so an entry 0 counts as missing; the corrected lookup tests
      only that the entry is there. */
  predicate Hit(v: Variant, t: map<string, map<string, real>>, c: string, key: string) {
    c in t && key in t[c] && (v == Corrected || t[c][key] != 0.0)
  }

  /** The formula shown with a table value. */
  function TableFormula(fmt: real -> string, c: string, a: real, b: real): string {
    "Valor analítico conocido para ∫" + c + " dx de " + fmt(a) + " a " + fmt(b)
  }

  /** The lookup: special cases first, then the table, else `null`. */
  function Lookup(v: Variant, m: MathLib, fmt: real -> string, expression: string, a: real, b: real): (r: Option<Known>)
    ensures r.Some? ==> (SpecialCase(v, m, Clean(expression), a, b) == r
                          || Hit(v, Table(v, m), Clean(expression), fmt(a) + "," + fmt(b)))
  {
    var c := Clean(expression);
    var special := SpecialCase(v, m, c, a, b);
    if special.Some? then special
    else
      var t := Table(v, m);
      var key := fmt(a) + "," + fmt(b);
      if Hit(v, t, c, key) then Some(Known(t[c][key], TableFormula(fmt, c, a, b)))
      else None
  }

  /** `getValorAnalitico` as the code is written. */
  function GetValorAnaliticoAsWritten(m: MathLib, fmt: real -> string, expression: string, a: real, b: real): Option<Known> {
    Lookup(AsWritten, m, fmt, expression, a, b)
  }

  /** `getValorAnalitico` with the three corrections. */
  function GetValorAnalitico(m: MathLib, fmt: real -> string, expression: string, a: real, b: real): Option<Known> {
    Lookup(Corrected, m, fmt, expression, a, b)
  }

  // ----- Reference values -----

  /** Antiderivatives of the polynomial integrands the lookup knows. */
  function Antiderivative(c: string, x: real): real {
    if c == "x^2" then x * x * x / 3.0
    else if c == "x^3" then x * x * x * x / 4.0
    else if c == "x" then x * x / 2.0
    else if c == "5" then 5.0 * x
    else if c == CubicText then x * x * x * x / 4.0 - 2.0 * x * x * x / 3.0 + 3.0 * x * x / 2.0 - 5.0 * x
    else 0.0
  }

  /** `∫ √x dx` from `r²` to `s²`, that is `(2/3)·(s³ - r³)`, for `0 ≤ r ≤ s`. */
  function SqrtIntegralOverSquares(r: real, s: real): real
    requires 0.0 <= r <= s
  {
    (2.0 / 3.0) * (s * s * s - r * r * r)
  }

  /** The table entry for `c` and `key` is `∫ c dx` from `a` to `b`. */
  predicate EntryIsIntegral(t: map<string, map<string, real>>, c: string, key: string, a: real, b: real) {
    c in t && key in t[c] && t[c][key] == Antiderivative(c, b) - Antiderivative(c, a)
  }

  // ----- Properties -----

  /** A text with no white space at either end and no final `dx` is its own cleaned form. */
  lemma {:induction false} CleanKeeps(s: string)
    requires s != [] && !IsJsSpace(s[0]) && !IsJsSpace(s[|s| - 1])
    requires |s| < 2 || !(s[|s| - 2] in "dD" && s[|s| - 1] in "xX")
    ensures Clean(s) == s
  {
    assert StripDx(s) == s;
    TrimKeeps(s);
  }

  /** A text with no white space at either end is its own trimmed form. */
  lemma {:induction false} TrimKeeps(s: string)
    requires s != [] && !IsJsSpace(s[0]) && !IsJsSpace(s[|s| - 1])
    ensures Trim(s) == s
  {
    assert TrimStart(s) == s;
    assert TrimEnd(s) == s;
  }

  /** A trailing `dx` in any case is removed before trimming, and only that one:
      what is left is trimmed, and `TrimKeeps` shows that trimming keeps an
      inner `dx` at the end. */
  lemma {:induction false} CleanDropsTrailingDx(s: string, d: char, x: char)
    requires d in "dD" && x in "xX"
    ensures Clean(s + [d, x]) == Trim(s)
  {
    assert (s + [d, x])[..|s + [d, x]| - 2] == s;
  }

  /** Trimming one final white space character off a text that otherwise has none at its ends. */
  lemma {:induction false} TrimDropsFinalSpace(s: string, c: char)
    requires s != [] && !IsJsSpace(s[0]) && !IsJsSpace(s[|s| - 1]) && IsJsSpace(c)
    ensures Trim(s + [c]) == s
  {
    assert TrimStart(s + [c]) == s + [c];
    assert (s + [c])[..|s + [c]| - 1] == s;
    assert TrimEnd(s) == s;
  }

  /** `trim` removes the leading and the trailing white space and nothing else:
      the result is the middle of `s`, and everything around it is white space. */
  lemma {:induction false} TrimIsMiddle(s: string)
    ensures var i := |s| - |TrimStart(s)|;
      i + |Trim(s)| <= |s| && Trim(s) == s[i..i + |Trim(s)|]
      && (forall k :: 0 <= k < i ==> IsJsSpace(s[k]))
      && (forall k :: i + |Trim(s)| <= k < |s| ==> IsJsSpace(s[k]))
  {
  }

  /** A `dx` followed by white space stays: only the white space is trimmed. */
  lemma {:induction false} CleanKeepsSpacedDx(s: string, c: char)
    requires s != [] && !IsJsSpace(s[0]) && IsJsSpace(c)
    ensures Clean(s + "dx" + [c]) == s + "dx"
  {
    var t := s + "dx";
    assert t[0] == s[0] && t[|t| - 1] == 'x';
    assert s + "dx" + [c] == t + [c];
    assert StripDx(t + [c]) == t + [c];
    TrimDropsFinalSpace(t, c);
  }

  /** Every comparison reads the cleaned text only. */
  lemma {:induction false} OnlyCleanedTextMatters(v: Variant, m: MathLib, fmt: real -> string, e1: string, e2: string, a: real, b: real)
    requires Clean(e1) == Clean(e2)
    ensures Lookup(v, m, fmt, e1, a, b) == Lookup(v, m, fmt, e2, a, b)
  {
  }

  /** Each special case needs its integrand's exact text and exactly its own
      bounds; for `sin(x)` the upper bound must be `Math.PI` itself. */
  lemma {:induction false} SpecialCaseBounds(v: Variant, m: MathLib, c: string, a: real, b: real)
    ensures SpecialCase(v, m, c, a, b).Some? <==>
      (c == "sqrt(x)" && a == 6.0 && b == 12.0) || (c == "sin(x)" && a == 0.0 && b == PI)
      || (c == "exp(x)" && a == 0.0 && b == 1.0) || (c == "log(x)" && a == 1.0 && b == 2.0)
      || (c == CubicText && a == 0.0 && b == 2.0) || (c == "x^2" && a == 0.0 && b == 1.0)
  {
  }

  /** A special case that applies wins over the table. */
  lemma {:induction false} SpecialCasesFirst(v: Variant, m: MathLib, fmt: real -> string, expression: string, a: real, b: real)
    requires SpecialCase(v, m, Clean(expression), a, b).Some?
    ensures Lookup(v, m, fmt, expression, a, b) == SpecialCase(v, m, Clean(expression), a, b)
  {
  }

  /** Without a special case the lookup gives the table value with the generic
      formula exactly when the entry is hit, and `null` otherwise. */
  lemma {:induction false} TableAfterSpecialCases(v: Variant, m: MathLib, fmt: real -> string, expression: string, a: real, b: real)
    requires SpecialCase(v, m, Clean(expression), a, b).None?
    ensures var c := Clean(expression);
            var key := fmt(a) + "," + fmt(b);
            Lookup(v, m, fmt, expression, a, b)
              == if Hit(v, Table(v, m), c, key) then Some(Known(Table(v, m)[c][key], TableFormula(fmt, c, a, b))) else None
  {
  }

  /** A cleaned integrand without a special case whose entry is in the table
      gets that entry, unless the code's truthiness test rejects a 0. */
  lemma {:induction false} TableEntryLookup(v: Variant, m: MathLib, fmt: real -> string, c: string, a: real, b: real, key: string)
    requires Clean(c) == c && SpecialCase(v, m, c, a, b) == None && fmt(a) + "," + fmt(b) == key
    requires c in Table(v, m) && key in Table(v, m)[c]
    ensures Lookup(v, m, fmt, c, a, b)
      == if v == Corrected || Table(v, m)[c][key] != 0.0 then Some(Known(Table(v, m)[c][key], TableFormula(fmt, c, a, b))) else None
  {
    TableAfterSpecialCases(v, m, fmt, c, a, b);
  }

  /** An integrand neither in the table nor among the special cases gives `null`. */
  lemma {:induction false} UnknownIsNull(v: Variant, m: MathLib, fmt: real -> string, expression: string, a: real, b: real)
    requires Clean(expression) !in Table(v, m)
    requires Clean(expression) !in {"sqrt(x)", "sin(x)", "exp(x)", "log(x)", CubicText, "x^2"}
    ensures Lookup(v, m, fmt, expression, a, b) == None
  {
  }

  /** The last special case: `x^2` on `[0, 1]`. */
  lemma {:induction false} SquareOnUnitCase(v: Variant, m: MathLib)
    ensures SpecialCase(v, m, "x^2", 0.0, 1.0) == Some(Known(1.0 / 3.0, "∫x^2 dx de 0 a 1 = x^3/3|_0^1 = 1/3"))
  {
  }

  /** The table's entry for `x^2` on `[0, 1]` is 1/3 as well. */
  lemma {:induction false} SquareOnUnitInTable(v: Variant, m: MathLib)
    ensures Table(v, m)["x^2"]["0,1"] == 1.0 / 3.0
  {
  }

  /** `x^2` on `[0, 1]` is answered by its special case, whose formula is not
      the table's, although the table holds the same value 1/3. */
  lemma {:induction false} SquareOnUnitIsSpecial(v: Variant, m: MathLib, fmt: real -> string)
    ensures Table(v, m)["x^2"]["0,1"] == 1.0 / 3.0
    ensures Lookup(v, m, fmt, "x^2", 0.0, 1.0) == Some(Known(1.0 / 3.0, "∫x^2 dx de 0 a 1 = x^3/3|_0^1 = 1/3"))
  {
    CleanKeeps("x^2");
    SquareOnUnitCase(v, m);
    SpecialCasesFirst(v, m, fmt, "x^2", 0.0, 1.0);
    SquareOnUnitInTable(v, m);
  }

  /** `sin(x)` needs `b` to be `Math.PI` itself for its special case. */
  lemma {:induction false} SineUpToPi(v: Variant, m: MathLib, fmt: real -> string)
    ensures Lookup(v, m, fmt, "sin(x)", 0.0, PI) == Some(Known(2.0, "∫sin(x)dx de 0 a π = 2"))
  {
    CleanKeeps("sin(x)");
    assert SpecialCase(v, m, "sin(x)", 0.0, PI) == Some(Known(2.0, "∫sin(x)dx de 0 a π = 2"));
    SpecialCasesFirst(v, m, fmt, "sin(x)", 0.0, PI);
  }

  /** The polynomial entries are the integrals their keys name. */
  lemma {:induction false} PolynomialEntriesAreIntegrals(v: Variant, m: MathLib)
    ensures forall c | c in ["x^2", "x^3", "x", "5"] ::
      EntryIsIntegral(Table(v, m), c, "0,1", 0.0, 1.0)
      && EntryIsIntegral(Table(v, m), c, "0,2", 0.0, 2.0)
      && EntryIsIntegral(Table(v, m), c, "1,2", 1.0, 2.0)
  {
  }

  /** Simpson's 1/3 rule is exact for cubics: it reproduces the table's
      entries for `x^2` and `x^3` on `[0, 2]`. */
  lemma {:induction false} SimpsonAgreesWithTable(v: Variant, m: MathLib, square: real -> real, cube: real -> real)
    requires forall x :: square(x) == x * x
    requires forall x :: cube(x) == x * x * x
    ensures Simpson13.Calculate(square, 0.0, 2.0) == Table(v, m)["x^2"]["0,2"]
    ensures Simpson13.Calculate(cube, 0.0, 2.0) == Table(v, m)["x^3"]["0,2"]
  {
    assert square(1.0) == 1.0 && square(2.0) == 4.0;
    assert cube(1.0) == 1.0 && cube(2.0) == 8.0;
  }

  // ----- Findings -----

  /** `sqrt(x)` has a special case on `[6, 12]` only. */
  lemma {:induction false} SqrtOneFourNotSpecial(v: Variant, m: MathLib)
    ensures SpecialCase(v, m, "sqrt(x)", 1.0, 4.0) == None
  {
  }

  /** The table's `sqrt(x)` entry under `"1,4"`. */
  lemma {:induction false} SqrtOneFourEntry(v: Variant, m: MathLib)
    ensures "sqrt(x)" in Table(v, m) && "1,4" in Table(v, m)["sqrt(x)"]
    ensures Table(v, m)["sqrt(x)"]["1,4"] == SqrtOneFour(v) != 0.0
  {
  }

  /** `sqrt(x)` on `[1, 4]` has no special case and is read from the table under `"1,4"`. */
  lemma {:induction false} SqrtOneFourLookup(v: Variant, m: MathLib, fmt: real -> string)
    requires fmt(1.0) == "1" && fmt(4.0) == "4"
    ensures Lookup(v, m, fmt, "sqrt(x)", 1.0, 4.0) == Some(Known(SqrtOneFour(v), TableFormula(fmt, "sqrt(x)", 1.0, 4.0)))
  {
    assert fmt(1.0) + "," + fmt(4.0) == "1,4" by {
      assert fmt(1.0) + "," + fmt(4.0) == "1" + "," + "4";
      assert "1" + "," + "4" == "1,4";
    }
    CleanKeeps("sqrt(x)");
    SqrtOneFourNotSpecial(v, m);
    SqrtOneFourEntry(v, m);
    TableEntryLookup(v, m, fmt, "sqrt(x)", 1.0, 4.0, "1,4");
  }

  /** As written, `sqrt(x)` on `[1, 4]` gives 4, but `∫ √x dx` from 1 to 4 is 14/3. */
  lemma {:induction false} SqrtOneFourAsWritten(m: MathLib, fmt: real -> string)
    requires fmt(1.0) == "1" && fmt(4.0) == "4"
    ensures GetValorAnaliticoAsWritten(m, fmt, "sqrt(x)", 1.0, 4.0) == Some(Known(4.0, TableFormula(fmt, "sqrt(x)", 1.0, 4.0)))
    ensures 4.0 != SqrtIntegralOverSquares(1.0, 2.0)
  {
    SqrtOneFourLookup(AsWritten, m, fmt);
  }

  /** Corrected, `sqrt(x)` on `[1, 4]` gives `∫ √x dx` from 1 to 4, as the entry for `[0, 1]` does for its interval. */
  lemma {:induction false} SqrtOneFourCorrected(m: MathLib, fmt: real -> string)
    requires fmt(1.0) == "1" && fmt(4.0) == "4"
    ensures GetValorAnalitico(m, fmt, "sqrt(x)", 1.0, 4.0)
      == Some(Known(SqrtIntegralOverSquares(1.0, 2.0), TableFormula(fmt, "sqrt(x)", 1.0, 4.0)))
    ensures Table(Corrected, m)["sqrt(x)"]["0,1"] == SqrtIntegralOverSquares(0.0, 1.0)
  {
    SqrtOneFourLookup(Corrected, m, fmt);
  }

  /** The cubic on `[0, 2]` is answered by its special case. */
  lemma {:induction false} CubicLookup(v: Variant, m: MathLib, fmt: real -> string)
    ensures Lookup(v, m, fmt, CubicText, 0.0, 2.0).Some?
    ensures Lookup(v, m, fmt, CubicText, 0.0, 2.0).value.valorExacto == CubicOnZeroTwo(v)
  {
    CleanKeeps(CubicText);
    assert SpecialCase(v, m, CubicText, 0.0, 2.0).Some?;
    assert SpecialCase(v, m, CubicText, 0.0, 2.0).value.valorExacto == CubicOnZeroTwo(v);
    SpecialCasesFirst(v, m, fmt, CubicText, 0.0, 2.0);
  }

  /** Simpson's 1/3 rule on the cubic over `[0, 2]`: `(1/3)·(f(0) + 4·f(1) + f(2)) = -16/3`. */
  lemma {:induction false} SimpsonOnCubic(f: real -> real)
    requires forall x :: f(x) == x * x * x - 2.0 * x * x + 3.0 * x - 5.0
    ensures Simpson13.Calculate(f, 0.0, 2.0) == -16.0 / 3.0
  {
    assert f(0.0) == -5.0 && f(1.0) == -3.0 && f(2.0) == 1.0;
  }

  /** As written, the cubic on `[0, 2]` gives -14/3, which is neither its
      antiderivative's difference nor Simpson's value (exact for cubics): both are -16/3. */
  lemma {:induction false} CubicAsWritten(m: MathLib, fmt: real -> string, f: real -> real)
    requires forall x :: f(x) == x * x * x - 2.0 * x * x + 3.0 * x - 5.0
    ensures GetValorAnaliticoAsWritten(m, fmt, CubicText, 0.0, 2.0).Some?
    ensures GetValorAnaliticoAsWritten(m, fmt, CubicText, 0.0, 2.0).value.valorExacto == -14.0 / 3.0
    ensures -14.0 / 3.0 != Antiderivative(CubicText, 2.0) - Antiderivative(CubicText, 0.0)
    ensures -14.0 / 3.0 != Simpson13.Calculate(f, 0.0, 2.0)
  {
    CubicLookup(AsWritten, m, fmt);
    SimpsonOnCubic(f);
  }

  /** Corrected, the cubic on `[0, 2]` gives the antiderivative's difference,
      which Simpson's rule reproduces. */
  lemma {:induction false} CubicCorrected(m: MathLib, fmt: real -> string, f: real -> real)
    requires forall x :: f(x) == x * x * x - 2.0 * x * x + 3.0 * x - 5.0
    ensures GetValorAnalitico(m, fmt, CubicText, 0.0, 2.0).Some?
    ensures GetValorAnalitico(m, fmt, CubicText, 0.0, 2.0).value.valorExacto
      == Antiderivative(CubicText, 2.0) - Antiderivative(CubicText, 0.0)
    ensures Antiderivative(CubicText, 2.0) - Antiderivative(CubicText, 0.0) == Simpson13.Calculate(f, 0.0, 2.0)
  {
    CubicLookup(Corrected, m, fmt);
    SimpsonOnCubic(f);
  }

  /** 6.28318 is not `Math.PI`, so `sin(x)` on `[0, 6.28318]` has no special case. */
  lemma {:induction false} SineTwoPiNotSpecial(v: Variant, m: MathLib)
    ensures SpecialCase(v, m, "sin(x)", 0.0, 6.28318) == None
  {
    PiBounds();
  }

  /** The table holds 0 for `sin(x)` under `"0,6.28318"`. */
  lemma {:induction false} SineTwoPiEntry(v: Variant, m: MathLib)
    ensures "sin(x)" in Table(v, m) && "0,6.28318" in Table(v, m)["sin(x)"]
    ensures Table(v, m)["sin(x)"]["0,6.28318"] == 0.0
  {
  }

  /** `sin(x)` on `[0, 6.28318]` meets the table entry 0: only the corrected lookup returns it. */
  lemma {:induction false} ZeroEntryLookup(v: Variant, m: MathLib, fmt: real -> string)
    requires fmt(0.0) == "0" && fmt(6.28318) == "6.28318"
    ensures Lookup(v, m, fmt, "sin(x)", 0.0, 6.28318)
      == if v == Corrected then Some(Known(0.0, TableFormula(fmt, "sin(x)", 0.0, 6.28318))) else None
  {
    assert fmt(0.0) + "," + fmt(6.28318) == "0,6.28318" by {
      assert fmt(0.0) + "," + fmt(6.28318) == "0" + "," + "6.28318";
      assert "0" + "," + "6.28318" == "0,6.28318";
    }
    CleanKeeps("sin(x)");
    SineTwoPiNotSpecial(v, m);
    SineTwoPiEntry(v, m);
    TableEntryLookup(v, m, fmt, "sin(x)", 0.0, 6.28318, "0,6.28318");
  }

  /** As written, the entry 0 for `sin(x)` on `[0, 6.28318]` is never returned: the lookup gives `null`. */
  lemma {:induction false} ZeroEntryAsWritten(m: MathLib, fmt: real -> string)
    requires fmt(0.0) == "0" && fmt(6.28318) == "6.28318"
    ensures "sin(x)" in Table(AsWritten, m) && "0,6.28318" in Table(AsWritten, m)["sin(x)"]
    ensures GetValorAnaliticoAsWritten(m, fmt, "sin(x)", 0.0, 6.28318) == None
  {
    ZeroEntryLookup(AsWritten, m, fmt);
  }

  /** Corrected, the entry 0 is returned with the table's formula. */
  lemma {:induction false} ZeroEntryCorrected(m: MathLib, fmt: real -> string)
    requires fmt(0.0) == "0" && fmt(6.28318) == "6.28318"
    ensures GetValorAnalitico(m, fmt, "sin(x)", 0.0, 6.28318) == Some(Known(0.0, TableFormula(fmt, "sin(x)", 0.0, 6.28318)))
  {
    ZeroEntryLookup(Corrected, m, fmt);
  }
}
