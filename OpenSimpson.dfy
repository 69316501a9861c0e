/** `metodoSimpsonAbierto` (src/components/models/openSimpsonMethod.tsx): an
    open Simpson-type rule. The segment count is first made even and at least
    4, giving `N` and `h = (b - a) / N`; the rule then weights `f(a + h)` by 1,
    `f(a + i·h)` for `i = 2, …, N - 1` by 4 (even `i`) or 2 (odd `i`), and
    `f(b - h)` once more by 1, and multiplies the sum by `h/3`. Over the reals
    `a + (N - 1)·h = b - h`, so that point is sampled twice. */
module OpenSimpson {
  import opened Iterations
  import opened JsRuntime

  /** The segment count after both adjustments: an odd count is raised by
      one (JavaScript's `n % 2 !== 0` holds exactly for the odd integers, of
      either sign, as Dafny's `n % 2 != 0` does), then anything below 4 becomes 4. */
  function Adjust(n: int): (m: int)
    ensures m % 2 == 0 && m >= 4
  {
    var even := if n % 2 != 0 then n + 1 else n;
    if even < 4 then 4 else even
  }

  /** The parity note, naming the count before and after. */
  function ParityNote(n: int, adjusted: int): string {
    "Nota: Se ajustó n de " + IntToString(n) + " a " + IntToString(adjusted)
      + " para mantener la paridad requerida por el método.\n"
  }

  /** The note for raising the count to the minimum. */
  const MinimumNote: string := "Nota: Se ajustó n a 4 (mínimo requerido) para tener suficientes puntos.\n"

  /** The notes `getDetails` accumulates while adjusting `n`. */
  function Notes(n: int): string {
    var even := if n % 2 != 0 then n + 1 else n;
    (if n % 2 != 0 then ParityNote(n, even) else "") + (if even < 4 then MinimumNote else "")
  }

  /** The fixed part of the report; the formatting of reals is the parameter `fmt`. */
  function Summary(fmt: real -> string, a: real, b: real, adjusted: int): string
    requires adjusted != 0
  {
    var h := (b - a) / (adjusted as real);
    "Método de Simpson Abierto con " + IntToString(adjusted) + " puntos\n"
      + "Fórmula: (h/3)[f(x₁) + 4f(x₂) + 2f(x₃) + 4f(x₄) + 2f(x₅) + ... + f(xₙ)]\n"
      + "donde n debe ser par para mantener el patrón de coeficientes 1, 4, 2, 4, 2, ..., 1\n"
      + "h = (b - a) / n = (" + fmt(b) + " - " + fmt(a) + ") / " + IntToString(adjusted) + " = " + fmt(h) + "\n"
      + "x₁ = a + h = " + fmt(a) + " + " + fmt(h) + " = " + fmt(a + h) + "\n"
      + "xₙ = b - h = " + fmt(b) + " - " + fmt(h) + " = " + fmt(b - h)
  }

  /** The segment width for an adjusted count. */
  function Step(a: real, b: real, adjusted: int): real
    requires adjusted != 0
  {
    (b - a) / (adjusted as real)
  }

  /** Inner points alternate between 4 (even index) and 2 (odd index). */
  const InnerWeight := Alternating(4.0, 2.0)

  /** The rows for an adjusted count `N ≥ 4`: `a + h` with weight 1, the inner
      points `i = 2, …, N - 1`, and `b - h` with weight 1 under the index `N`. */
  function Table(f: real -> real, a: real, b: real, adjusted: int): (t: seq<CoefficientIteration>)
    requires adjusted >= 4
    ensures |t| == adjusted
  {
    PointsAt(f, a, Step(a, b, adjusted), 2, adjusted - 2, InnerWeight);
    var h := Step(a, b, adjusted);
    [Row(f, 1, a + h, 1.0)] + Points(f, a, h, 2, adjusted - 2, InnerWeight) + [Row(f, adjusted, b - h, 1.0)]
  }

  /** The value the rule gives for an adjusted count: `h/3` times the sum of the table's terms. */
  function Value(f: real -> real, a: real, b: real, adjusted: int): real
    requires adjusted >= 4
  {
    Scaled(Step(a, b, adjusted) / 3.0, TermSum(Table(f, a, b, adjusted)))
  }

  /** The table's sums split into the two outer rows and the inner points. */
  lemma {:induction false} TableSum(f: real -> real, a: real, b: real, adjusted: int)
    requires adjusted >= 4
    ensures TermSum(Table(f, a, b, adjusted)) == f(a + Step(a, b, adjusted))
      + TermSum(Points(f, a, Step(a, b, adjusted), 2, adjusted - 2, InnerWeight)) + f(b - Step(a, b, adjusted))
    ensures CoefSum(Table(f, a, b, adjusted))
      == 2.0 + CoefSum(Points(f, a, Step(a, b, adjusted), 2, adjusted - 2, InnerWeight))
  {
    var h := Step(a, b, adjusted);
    var first := [Row(f, 1, a + h, 1.0)];
    var inner := Points(f, a, h, 2, adjusted - 2, InnerWeight);
    SumsConcat(first, inner);
    SumsAppend(first + inner, Row(f, adjusted, b - h, 1.0));
    SumsAppend([], Row(f, 1, a + h, 1.0));
    assert [] + first == first;
  }

  /** The rows before turn `i` of the inner loop. */
  function Prefix(f: real -> real, a: real, h: real, i: int): seq<CoefficientIteration>
    requires i >= 2
  {
    [Row(f, 1, a + h, 1.0)] + Points(f, a, h, 2, i - 2, InnerWeight)
  }

  /** Turn `i` of `calculate`'s loop adds `coef·f(a + i·h)`. */
  lemma {:induction false} AddInner(f: real -> real, a: real, h: real, i: int, suma: real, x: real, coef: real)
    requires i >= 2 && suma == f(a + h) + TermSum(Points(f, a, h, 2, i - 2, InnerWeight))
    requires x == Abscissa(a, h, i) && coef == (if i % 2 == 0 then 4.0 else 2.0)
    ensures suma + coef * f(x) == f(a + h) + TermSum(Points(f, a, h, 2, i - 1, InnerWeight))
  {
    assert Weight(InnerWeight, i) == coef;
    assert Points(f, a, h, 2, i - 1, InnerWeight) == Points(f, a, h, 2, i - 2, InnerWeight) + [Row(f, i, x, coef)];
    SumsAppend(Points(f, a, h, 2, i - 2, InnerWeight), Row(f, i, x, coef));
    assert Row(f, i, x, coef).term == coef * f(x);
  }

  /** Turn `i` of `getDetails`'s loop pushes the row of `a + i·h` and adds its term. */
  lemma {:induction false} PushInner(f: real -> real, a: real, h: real, i: int, rows: seq<CoefficientIteration>, suma: real,
                  x: real, coef: real, fx: real, term: real)
    requires i >= 2 && rows == Prefix(f, a, h, i) && suma == TermSum(rows)
    requires x == Abscissa(a, h, i) && coef == (if i % 2 == 0 then 4.0 else 2.0) && fx == f(x) && term == coef * fx
    ensures rows + [CoefficientIteration(i, x, fx, coef, term)] == Prefix(f, a, h, i + 1)
    ensures suma + term == TermSum(rows + [CoefficientIteration(i, x, fx, coef, term)])
  {
    assert CoefficientIteration(i, x, fx, coef, term) == Row(f, i, x, Weight(InnerWeight, i));
    SumsAppend(rows, Row(f, i, x, coef));
  }

  /** After the loop, pushing the row of `b - h` completes the table. */
  lemma {:induction false} PushLast(f: real -> real, a: real, b: real, adjusted: int, rows: seq<CoefficientIteration>, suma: real,
                 xn: real, fxn: real)
    requires adjusted >= 4 && rows == Prefix(f, a, Step(a, b, adjusted), adjusted) && suma == TermSum(rows)
    requires xn == b - Step(a, b, adjusted) && fxn == f(xn)
    ensures rows + [CoefficientIteration(adjusted, xn, fxn, 1.0, fxn)] == Table(f, a, b, adjusted)
    ensures suma + fxn == TermSum(Table(f, a, b, adjusted))
  {
    SumsAppend(rows, Row(f, adjusted, xn, 1.0));
  }

  /** After `calculate`'s loop, adding `f(b - h)` completes the table's sum. */
  lemma {:induction false} AddLast(f: real -> real, a: real, b: real, m: int, suma: real)
    requires m >= 4 && suma == f(a + Step(a, b, m)) + TermSum(Points(f, a, Step(a, b, m), 2, m - 2, InnerWeight))
    ensures suma + f(b - Step(a, b, m)) == TermSum(Table(f, a, b, m))
  {
    TableSum(f, a, b, m);
  }

  /** Lines 17-24 of `calculate`: `f(a + h)` plus the inner points
      `a + i·h`, `i = 2, …, m - 1`, with weight 4 at even `i` and 2 at odd `i`. */
  method SumInner(f: real -> real, a: real, h: real, m: int) returns (suma: real)
    requires m >= 4
    ensures suma == f(a + h) + TermSum(Points(f, a, h, 2, m - 2, InnerWeight))
  {
    suma := f(a + h);
    var i := 2;
    while i < m
      invariant 2 <= i <= m
      invariant suma == f(a + h) + TermSum(Points(f, a, h, 2, i - 2, InnerWeight))
    {
      var x := a + (i as real) * h;
      var coef := if i % 2 == 0 then 4.0 else 2.0;
      AddInner(f, a, h, i, suma, x, coef);
      suma := suma + coef * f(x);
      i := i + 1;
    }
  }

  /** Lines 16-28 of `calculate` for an adjusted count `m ≥ 4`: the inner sum,
      then `f(b - h)`, times `h/3`. */
  method Sum(f: real -> real, a: real, b: real, m: int) returns (value: real)
    requires m >= 4
    ensures value == Value(f, a, b, m)
  {
    var h := (b - a) / (m as real);
    var suma := SumInner(f, a, h, m);
    AddLast(f, a, b, m, suma);
    suma := suma + f(b - h);
    value := (h / 3.0) * suma;
  }

  /** `calculate`: makes `n` even and at least 4, then sums. */
  method Calculate(f: real -> real, a: real, b: real, n: int) returns (value: real)
    ensures value == Value(f, a, b, Adjust(n))
  {
    var m := n;
    if m % 2 != 0 {
      m := m + 1;
    }
    if m < 4 {
      m := 4;
    }
    value := Sum(f, a, b, m);
  }

  /** Lines 48-76 of `getDetails`: pushes the row of `a + h` with weight 1,
      then the inner rows `i = 2, …, N - 1` with weights 4 and 2, summing
      their terms. */
  method TabulateInner(f: real -> real, a: real, h: real, adjustedN: int) returns (iterations: seq<CoefficientIteration>, suma: real)
    requires adjustedN >= 4
    ensures iterations == Prefix(f, a, h, adjustedN)
    ensures suma == TermSum(iterations)
  {
    iterations := [];
    suma := 0.0;
    var x1 := a + h;
    var fx1 := f(x1);
    iterations := iterations + [CoefficientIteration(1, x1, fx1, 1.0, fx1)];
    suma := suma + fx1;
    assert suma == TermSum(iterations) by {
      SumsAppend([], iterations[0]);
    }
    var i := 2;
    while i < adjustedN
      invariant 2 <= i <= adjustedN
      invariant iterations == Prefix(f, a, h, i) && suma == TermSum(iterations)
    {
      var x := a + (i as real) * h;
      var coef := if i % 2 == 0 then 4.0 else 2.0;
      var fx := f(x);
      var term := coef * fx;
      PushInner(f, a, h, i, iterations, suma, x, coef, fx, term);
      iterations := iterations + [CoefficientIteration(i, x, fx, coef, term)];
      suma := suma + term;
      i := i + 1;
    }
  }

  /** Lines 47-90 of `getDetails` for an adjusted count `N ≥ 4`: the rows and
      their sum, then the row of `b - h` with weight 1, and the sum scaled by `h/3`. */
  method Tabulate(f: real -> real, a: real, b: real, adjustedN: int) returns (report: Report)
    requires adjustedN >= 4
    ensures report.iterations == Table(f, a, b, adjustedN)
    ensures report.result == Value(f, a, b, adjustedN)
  {
    var h := (b - a) / (adjustedN as real);
    var iterations, suma := TabulateInner(f, a, h, adjustedN);
    var xn := b - h;
    var fxn := f(xn);
    PushLast(f, a, b, adjustedN, iterations, suma, xn, fxn);
    iterations := iterations + [CoefficientIteration(adjustedN, xn, fxn, 1.0, fxn)];
    suma := suma + fxn;
    var result := (h / 3.0) * suma;
    report := Report(result, iterations);
  }

  /** Lines 32-45 of `getDetails`: the two `if` statements that reassign
      `adjustedN` and append to `adjustmentMessage`. */
  method AdjustWithNotes(n: int) returns (adjustedN: int, adjustmentMessage: string)
    ensures adjustedN == Adjust(n) && adjustmentMessage == Notes(n)
  {
    adjustedN := n;
    adjustmentMessage := "";
    if n % 2 != 0 {
      adjustedN := n + 1;
      adjustmentMessage := ParityNote(n, adjustedN);
    }
    if adjustedN < 4 {
      adjustmentMessage := adjustmentMessage + MinimumNote;
      adjustedN := 4;
    }
  }

  /** `getDetails`: adjusts `n` while collecting the notes, tabulates, and
      puts the notes ahead of the report text. */
  method GetDetails(f: real -> real, fmt: real -> string, a: real, b: real, n: int)
    returns (report: Report, details: string)
    ensures report.iterations == Table(f, a, b, Adjust(n))
    ensures report.result == Value(f, a, b, Adjust(n))
    ensures details == Notes(n) + Summary(fmt, a, b, Adjust(n))
  {
    var adjustedN, adjustmentMessage := AdjustWithNotes(n);
    report := Tabulate(f, a, b, adjustedN);
    details := adjustmentMessage + Summary(fmt, a, b, adjustedN);
  }

  /** `Adjust(n)` is the least count that is even, at least 4 and at least `n`:
      it never lowers `n`, and any other such count `m` is at least as large. */
  lemma {:induction false} AdjustIsLeast(n: int, m: int)
    requires m % 2 == 0 && m >= 4 && m >= n
    ensures n <= Adjust(n) <= m
  {
  }

  /** A count that is already even and at least 4 is kept, and only such a
      count is; adjusting twice is adjusting once. */
  lemma {:induction false} AdjustKeeps(n: int)
    ensures Adjust(n) == n <==> n % 2 == 0 && n >= 4
    ensures Adjust(Adjust(n)) == Adjust(n)
  {
  }

  /** No note is written exactly when the count is kept. */
  lemma {:induction false} NotesIffAdjusted(n: int)
    ensures Notes(n) == "" <==> Adjust(n) == n
  {
    var even := if n % 2 != 0 then n + 1 else n;
    if n % 2 != 0 {
      assert ParityNote(n, even)[0] == 'N';
    } else if even < 4 {
      assert |MinimumNote| > 0;
    }
  }

  /** An odd count below 3 gets both notes, the parity note (to `n + 1`)
      first; an odd count from 3 on gets only the parity note; an even count
      below 4 only the minimum note. */
  lemma {:induction false} NotesOrder(n: int)
    ensures n % 2 != 0 && n < 3 ==> Notes(n) == ParityNote(n, n + 1) + MinimumNote && Adjust(n) == 4
    ensures n % 2 != 0 && n >= 3 ==> Notes(n) == ParityNote(n, n + 1) && Adjust(n) == n + 1
    ensures n % 2 == 0 && n < 4 ==> Notes(n) == MinimumNote && Adjust(n) == 4
  {
    if n % 2 != 0 && n >= 3 {
      assert ParityNote(n, n + 1) + "" == ParityNote(n, n + 1);
    }
    if n % 2 == 0 && n < 4 {
      assert "" + MinimumNote == MinimumNote;
    }
  }

  /** For an adjusted count `N`: `N` rows; row 0 samples `a + h` and row
      `N - 1` samples `b - h`, both with weight 1 and indices 1 and `N`; row
      `k` in between samples `a + (k + 1)·h` with weight 4 when `k + 1` is
      even and 2 when it is odd. The open rule samples neither `a` nor `b`. */
  lemma {:induction false} TableAt(f: real -> real, a: real, b: real, adjusted: int, k: int)
    requires adjusted >= 4 && 0 <= k < adjusted
    ensures |Table(f, a, b, adjusted)| == adjusted
    ensures Table(f, a, b, adjusted)[k] ==
      if k == 0 then Row(f, 1, a + Step(a, b, adjusted), 1.0)
      else if k == adjusted - 1 then Row(f, adjusted, b - Step(a, b, adjusted), 1.0)
      else Row(f, k + 1, Abscissa(a, Step(a, b, adjusted), k + 1), if (k + 1) % 2 == 0 then 4.0 else 2.0)
  {
    var h := Step(a, b, adjusted);
    var inner := Points(f, a, h, 2, adjusted - 2, InnerWeight);
    PointsAt(f, a, h, 2, adjusted - 2, InnerWeight);
    var t := Table(f, a, b, adjusted);
    assert t == [Row(f, 1, a + h, 1.0)] + inner + [Row(f, adjusted, b - h, 1.0)];
    if 0 < k < adjusted - 1 {
      assert t[k] == inner[k - 1];
      assert 2 + (k - 1) == k + 1;
      assert inner[k - 1] == Row(f, k + 1, Abscissa(a, h, k + 1), Weight(InnerWeight, k + 1));
    }
  }

  /** The inner point `N - 1` lies at `a + (N - 1)·h = b - h`: the last two
      rows sample the same abscissa. */
  lemma {:induction false} LastPointTwice(f: real -> real, a: real, b: real, adjusted: int)
    requires adjusted >= 4
    ensures Table(f, a, b, adjusted)[adjusted - 2].xi == Table(f, a, b, adjusted)[adjusted - 1].xi
    ensures Table(f, a, b, adjusted)[adjusted - 1].xi == b - Step(a, b, adjusted)
  {
    var h := Step(a, b, adjusted);
    TableAt(f, a, b, adjusted, adjusted - 2);
    TableAt(f, a, b, adjusted, adjusted - 1);
    assert (adjusted as real) * h == b - a;
    assert ((adjusted - 1) as real) * h == (adjusted as real) * h - h;
  }

  /** Every row holds `f` at its abscissa and its weighted value. */
  lemma {:induction false} TableSampled(f: real -> real, a: real, b: real, adjusted: int)
    requires adjusted >= 4
    ensures Sampled(f, Table(f, a, b, adjusted))
  {
    var h := Step(a, b, adjusted);
    var inner := Points(f, a, h, 2, adjusted - 2, InnerWeight);
    PointsSampled(f, a, h, 2, adjusted - 2, InnerWeight);
    SampledConcat(f, [Row(f, 1, a + h, 1.0)], inner);
    SampledConcat(f, [Row(f, 1, a + h, 1.0)] + inner, [Row(f, adjusted, b - h, 1.0)]);
  }

  /** `2k` inner points starting at index 2 come in pairs weighted 4 and 2. */
  lemma {:induction false} InnerCoefSum(f: real -> real, a: real, h: real, k: nat)
    ensures CoefSum(Points(f, a, h, 2, 2 * k, InnerWeight)) == 6.0 * (k as real)
    decreases k
  {
    if k > 0 {
      InnerCoefSum(f, a, h, k - 1);
      var even := Points(f, a, h, 2, 2 * k - 2, InnerWeight);
      var odd := Points(f, a, h, 2, 2 * k - 1, InnerWeight);
      assert Weight(InnerWeight, 2 * k) == 4.0;
      assert Weight(InnerWeight, 2 * k + 1) == 2.0;
      SumsAppend(even, Row(f, 2 * k, Abscissa(a, h, 2 * k), 4.0));
      SumsAppend(odd, Row(f, 2 * k + 1, Abscissa(a, h, 2 * k + 1), 2.0));
    }
  }

  /** For an adjusted count `N` the weights add up to `3N - 4`. */
  lemma {:induction false} CoefficientsSum(f: real -> real, a: real, b: real, adjusted: int)
    requires adjusted >= 4 && adjusted % 2 == 0
    ensures CoefSum(Table(f, a, b, adjusted)) == 3.0 * (adjusted as real) - 4.0
  {
    TableSum(f, a, b, adjusted);
    var k := (adjusted - 2) / 2;
    assert 2 * k == adjusted - 2;
    InnerCoefSum(f, a, Step(a, b, adjusted), k);
  }

  /** The weights fall 4 short of the `3N` that would make `h/3` times their
      sum equal to `b - a`: a constant `c` comes out as `c·(b - a)` less
      `4c·(b - a)/(3N)`. */
  lemma {:induction false} ConstantFallsShort(f: real -> real, c: real, a: real, b: real, adjusted: int)
    requires adjusted >= 4 && adjusted % 2 == 0
    requires forall x :: f(x) == c
    ensures Value(f, a, b, adjusted) == c * (b - a) - 4.0 * c * (b - a) / (3.0 * (adjusted as real))
  {
    var t := Table(f, a, b, adjusted);
    var h := Step(a, b, adjusted);
    var nr := adjusted as real;
    TableSampled(f, a, b, adjusted);
    ConstantTermSum(f, c, t);
    CoefficientsSum(f, a, b, adjusted);
    assert h * nr == b - a;
    calc {
      h / 3.0 * TermSum(t);
      h / 3.0 * (c * (3.0 * nr - 4.0));
      c * (h * nr) - 4.0 * c * h / 3.0;
      { assert h == (b - a) / nr; }
      c * (b - a) - 4.0 * c * (b - a) / (3.0 * nr);
    }
  }
}
