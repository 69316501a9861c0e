/** `metodoTrapezoidal` (src/components/models/trapezoidalMethod.tsx): the
    composite trapezoid rule over `n` segments of width `h = (b - a) / n`,
    `(h/2)·[f(a) + 2·f(a + h) + … + 2·f(a + (n-1)·h) + f(b)]`. */
module Trapezoidal {
  import opened Iterations

  /** The segment width. */
  function Step(a: real, b: real, n: int): real
    requires n != 0
  {
    (b - a) / (n as real)
  }

  /** Interior points carry weight 2. */
  const InteriorWeight := Uniform(2.0)

  /** How often the loop `for (let i = 1; i < n; i++)` runs. */
  function InteriorCount(n: int): nat {
    if n > 1 then n - 1 else 0
  }

  /** The rows `getDetails` reports: `a` with weight 1, the interior points,
      and `b` with weight 1 under the index `n`. */
  function Table(f: real -> real, a: real, b: real, n: int): seq<CoefficientIteration>
    requires n != 0
  {
    [Row(f, 0, a, 1.0)] + Points(f, a, Step(a, b, n), 1, InteriorCount(n), InteriorWeight) + [Row(f, n, b, 1.0)]
  }

  /** The table's sum splits into the two ends and the interior points. */
  lemma {:induction false} TableSum(f: real -> real, a: real, b: real, n: int)
    requires n != 0
    ensures TermSum(Table(f, a, b, n))
      == f(a) + TermSum(Points(f, a, Step(a, b, n), 1, InteriorCount(n), InteriorWeight)) + f(b)
    ensures CoefSum(Table(f, a, b, n))
      == 2.0 + CoefSum(Points(f, a, Step(a, b, n), 1, InteriorCount(n), InteriorWeight))
  {
    var inner := Points(f, a, Step(a, b, n), 1, InteriorCount(n), InteriorWeight);
    var first := [Row(f, 0, a, 1.0)];
    SumsConcat(first, inner);
    SumsAppend(first + inner, Row(f, n, b, 1.0));
    SumsAppend([], Row(f, 0, a, 1.0));
    assert [] + [Row(f, 0, a, 1.0)] == first;
  }

  /** One more turn of the interior loop adds `2·f(a + i·h)`. */
  lemma {:induction false} InteriorStep(f: real -> real, a: real, h: real, i: int)
    requires i >= 1
    ensures Points(f, a, h, 1, i, InteriorWeight)
      == Points(f, a, h, 1, i - 1, InteriorWeight) + [Row(f, i, Abscissa(a, h, i), 2.0)]
    ensures TermSum(Points(f, a, h, 1, i, InteriorWeight))
      == TermSum(Points(f, a, h, 1, i - 1, InteriorWeight)) + 2.0 * f(Abscissa(a, h, i))
  {
    SumsAppend(Points(f, a, h, 1, i - 1, InteriorWeight), Row(f, i, Abscissa(a, h, i), 2.0));
  }

  /** `calculate`: the same sum as `getDetails.result`, accumulated as
      `f(a) + f(b)` first and the interior points after. */
  method Calculate(f: real -> real, a: real, b: real, n: int) returns (value: real)
    requires n != 0
    ensures value == Scaled(Step(a, b, n) / 2.0, TermSum(Table(f, a, b, n)))
  {
    var h := Step(a, b, n);
    var suma := f(a) + f(b);
    var i := 1;
    while i < n
      invariant 1 <= i && i - 1 <= InteriorCount(n)
      invariant suma == f(a) + f(b) + TermSum(Points(f, a, h, 1, i - 1, InteriorWeight))
    {
      var x := Abscissa(a, h, i);
      ghost var before := suma;
      suma := suma + 2.0 * f(x);
      assert suma == f(a) + f(b) + TermSum(Points(f, a, h, 1, i, InteriorWeight)) by {
        InteriorStep(f, a, h, i);
      }
      i := i + 1;
    }
    assert suma == TermSum(Table(f, a, b, n)) by {
      assert i - 1 == InteriorCount(n);
      TableSum(f, a, b, n);
    }
    value := Scaled(h / 2.0, suma);
  }

  /** The rows `getDetails` has pushed before its turn `i` of the interior loop. */
  function Prefix(f: real -> real, a: real, h: real, i: int): seq<CoefficientIteration>
    requires i >= 1
  {
    [Row(f, 0, a, 1.0)] + Points(f, a, h, 1, i - 1, InteriorWeight)
  }

  /** Turn `i` of the interior loop pushes the row of `x = a + i·h` with
      weight 2 and adds its term to the running sum. */
  lemma {:induction false} PushInterior(f: real -> real, a: real, h: real, i: int, rows: seq<CoefficientIteration>, suma: real,
                     x: real, fx: real, term: real)
    requires i >= 1 && rows == Prefix(f, a, h, i) && suma == TermSum(rows)
    requires x == Abscissa(a, h, i) && fx == f(x) && term == 2.0 * fx
    ensures rows + [CoefficientIteration(i, x, fx, 2.0, term)] == Prefix(f, a, h, i + 1)
    ensures suma + term == TermSum(rows + [CoefficientIteration(i, x, fx, 2.0, term)])
  {
    InteriorStep(f, a, h, i);
    SumsAppend(rows, Row(f, i, x, 2.0));
  }

  /** After the interior loop, pushing the row of `b` with weight 1 completes the table. */
  lemma {:induction false} PushLast(f: real -> real, a: real, b: real, n: int, rows: seq<CoefficientIteration>, suma: real, fb: real)
    requires n != 0 && rows == Prefix(f, a, Step(a, b, n), InteriorCount(n) + 1) && suma == TermSum(rows)
    requires fb == f(b)
    ensures rows + [CoefficientIteration(n, b, fb, 1.0, fb)] == Table(f, a, b, n)
    ensures suma + fb == TermSum(Table(f, a, b, n))
  {
    SumsAppend(rows, Row(f, n, b, 1.0));
  }

  /** `getDetails`: pushes the rows in order while summing their terms. */
  method GetDetails(f: real -> real, a: real, b: real, n: int) returns (report: Report)
    requires n != 0
    ensures report.iterations == Table(f, a, b, n)
    ensures report.result == Scaled(Step(a, b, n) / 2.0, TermSum(report.iterations))
  {
    var h := Step(a, b, n);
    var fa := f(a);
    var iterations := [CoefficientIteration(0, a, fa, 1.0, fa)];
    var suma := fa;
    assert suma == TermSum(iterations) by {
      SumsAppend([], iterations[0]);
    }
    var i := 1;
    while i < n
      invariant 1 <= i && i - 1 <= InteriorCount(n)
      invariant iterations == Prefix(f, a, h, i) && suma == TermSum(iterations)
    {
      var x := Abscissa(a, h, i);
      var fx := f(x);
      var term := 2.0 * fx;
      PushInterior(f, a, h, i, iterations, suma, x, fx, term);
      iterations := iterations + [CoefficientIteration(i, x, fx, 2.0, term)];
      suma := suma + term;
      i := i + 1;
    }
    assert i == InteriorCount(n) + 1;
    var fb := f(b);
    PushLast(f, a, b, n, iterations, suma, fb);
    iterations := iterations + [CoefficientIteration(n, b, fb, 1.0, fb)];
    suma := suma + fb;
    report := Report(Scaled(h / 2.0, suma), iterations);
  }

  /** For `n ≥ 1`: `n + 1` rows, row `k` has index `k`; the ends sample `a`
      and `b` with weight 1, the interior rows sample `a + k·h` with weight 2. */
  lemma {:induction false} TableAt(f: real -> real, a: real, b: real, n: int, k: int)
    requires n >= 1 && 0 <= k <= n
    ensures |Table(f, a, b, n)| == n + 1
    ensures Table(f, a, b, n)[k] ==
      if k == 0 then Row(f, 0, a, 1.0)
      else if k == n then Row(f, n, b, 1.0)
      else Row(f, k, Abscissa(a, Step(a, b, n), k), 2.0)
  {
    var h := Step(a, b, n);
    var inner := Points(f, a, h, 1, n - 1, InteriorWeight);
    PointsAt(f, a, h, 1, n - 1, InteriorWeight);
    var t := Table(f, a, b, n);
    assert t == [Row(f, 0, a, 1.0)] + inner + [Row(f, n, b, 1.0)];
    if 0 < k < n {
      assert t[k] == inner[k - 1];
      assert 1 + (k - 1) == k;
      assert inner[k - 1] == Row(f, k, Abscissa(a, h, k), 2.0);
    }
  }

  /** Every row holds `f` at its abscissa and its weighted value. */
  lemma {:induction false} TableSampled(f: real -> real, a: real, b: real, n: int)
    requires n != 0
    ensures Sampled(f, Table(f, a, b, n))
  {
    var inner := Points(f, a, Step(a, b, n), 1, InteriorCount(n), InteriorWeight);
    PointsSampled(f, a, Step(a, b, n), 1, InteriorCount(n), InteriorWeight);
    SampledConcat(f, [Row(f, 0, a, 1.0)], inner);
    SampledConcat(f, [Row(f, 0, a, 1.0)] + inner, [Row(f, n, b, 1.0)]);
  }

  /** For `n ≥ 1` the weights add up to `2n`. */
  lemma {:induction false} CoefficientsSum(f: real -> real, a: real, b: real, n: int)
    requires n >= 1
    ensures CoefSum(Table(f, a, b, n)) == 2.0 * (n as real)
  {
    TableSum(f, a, b, n);
    UniformCoefSum(f, a, Step(a, b, n), 1, n - 1, 2.0);
  }

  /** `n` segments of width `h` span the interval. */
  lemma {:induction false} StepsSpan(a: real, b: real, n: int)
    requires n != 0
    ensures Step(a, b, n) * (n as real) == b - a
  {
  }

  /** The rule integrates a constant `c` exactly: the result is `c·(b - a)`. */
  lemma {:induction false} ConstantIsExact(f: real -> real, c: real, a: real, b: real, n: int)
    requires n >= 1
    requires forall x :: f(x) == c
    ensures Scaled(Step(a, b, n) / 2.0, TermSum(Table(f, a, b, n))) == c * (b - a)
  {
    var t := Table(f, a, b, n);
    var h := Step(a, b, n);
    TableSampled(f, a, b, n);
    ConstantTermSum(f, c, t);
    CoefficientsSum(f, a, b, n);
    StepsSpan(a, b, n);
    calc {
      h / 2.0 * TermSum(t);
      h / 2.0 * (c * (2.0 * (n as real)));
      c * (h * (n as real));
    }
  }

  /** With a negative `n` the loop does not run: only the ends are sampled. */
  lemma {:induction false} NegativeSegments(f: real -> real, a: real, b: real, n: int)
    requires n < 0
    ensures Table(f, a, b, n) == [Row(f, 0, a, 1.0), Row(f, n, b, 1.0)]
  {
  }
}
