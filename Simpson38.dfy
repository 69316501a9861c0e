/** `metodoSimpson38` (src/components/models/methodSimpson3-8.tsx): Simpson's
    3/8 rule on the four points `a`, `a + h`, `a + 2h`, `a + 3h` with
    `h = (b - a) / 3` and weights 1, 3, 3, 1. The segment count the interface
    passes in is ignored, so the model does not take it. */
module Simpson38 {
  import opened Iterations

  /** A third of the interval. */
  function Step(a: real, b: real): real {
    (b - a) / 3.0
  }

  /** The four rows `getDetails` reports, numbered from 1. */
  function Table(f: real -> real, a: real, b: real): seq<CoefficientIteration> {
    var h := Step(a, b);
    [Row(f, 1, a, 1.0), Row(f, 2, a + h, 3.0), Row(f, 3, a + 2.0 * h, 3.0), Row(f, 4, a + 3.0 * h, 1.0)]
  }

  /** The sums of a four-row table, first row first. */
  lemma {:induction false} FourRowSum(r1: CoefficientIteration, r2: CoefficientIteration, r3: CoefficientIteration, r4: CoefficientIteration)
    ensures TermSum([r1, r2, r3, r4]) == r1.term + r2.term + r3.term + r4.term
    ensures CoefSum([r1, r2, r3, r4]) == r1.coef + r2.coef + r3.coef + r4.coef
  {
    SumsAppend([], r1);
    assert [] + [r1] == [r1];
    SumsAppend([r1], r2);
    assert [r1] + [r2] == [r1, r2];
    SumsAppend([r1, r2], r3);
    assert [r1, r2] + [r3] == [r1, r2, r3];
    SumsAppend([r1, r2, r3], r4);
    assert [r1, r2, r3] + [r4] == [r1, r2, r3, r4];
  }

  /** `calculate`: `(3h/8)·(f(a) + 3·f(a + h) + 3·f(a + 2h) + f(a + 3h))`, which
      is `3h/8` times the sum of the terms `getDetails` lists. */
  function Calculate(f: real -> real, a: real, b: real): (r: real)
    ensures r == Scaled(3.0 * Step(a, b) / 8.0, TermSum(Table(f, a, b)))
  {
    var h := (b - a) / 3.0;
    var x1 := a;
    var x2 := a + h;
    var x3 := a + 2.0 * h;
    var x4 := a + 3.0 * h;
    var suma := f(x1) + 3.0 * f(x2) + 3.0 * f(x3) + f(x4);
    FourRowSum(Row(f, 1, x1, 1.0), Row(f, 2, x2, 3.0), Row(f, 3, x3, 3.0), Row(f, 4, x4, 1.0));
    Scaled(3.0 * h / 8.0, suma)
  }

  /** `getDetails`: pushes the four rows and reports the value `calculate` gives. */
  method GetDetails(f: real -> real, a: real, b: real) returns (report: Report)
    ensures report.iterations == Table(f, a, b)
    ensures report.result == Calculate(f, a, b)
  {
    var h := (b - a) / 3.0;
    var iterations: seq<CoefficientIteration> := [];
    var x1 := a;
    var x2 := a + h;
    var x3 := a + 2.0 * h;
    var x4 := a + 3.0 * h;
    var fx1 := f(x1);
    var fx2 := f(x2);
    var fx3 := f(x3);
    var fx4 := f(x4);
    iterations := iterations + [
      CoefficientIteration(1, x1, fx1, 1.0, fx1),
      CoefficientIteration(2, x2, fx2, 3.0, 3.0 * fx2),
      CoefficientIteration(3, x3, fx3, 3.0, 3.0 * fx3),
      CoefficientIteration(4, x4, fx4, 1.0, fx4)];
    var suma := fx1 + 3.0 * fx2 + 3.0 * fx3 + fx4;
    var result := Scaled(3.0 * h / 8.0, suma);
    report := Report(result, iterations);
  }

  /** The rows sample `a`, the two inner thirds and `b` itself, with weights adding up to 8. */
  lemma {:induction false} TableShape(f: real -> real, a: real, b: real)
    ensures |Table(f, a, b)| == 4
    ensures forall k :: 0 <= k < 4 ==> Table(f, a, b)[k].i == k + 1
    ensures Table(f, a, b)[0].xi == a && Table(f, a, b)[3].xi == b
    ensures Table(f, a, b)[1].xi == a + (b - a) / 3.0 && Table(f, a, b)[2].xi == b - (b - a) / 3.0
    ensures Sampled(f, Table(f, a, b))
    ensures CoefSum(Table(f, a, b)) == 8.0
  {
    var h := Step(a, b);
    FourRowSum(Row(f, 1, a, 1.0), Row(f, 2, a + h, 3.0), Row(f, 3, a + 2.0 * h, 3.0), Row(f, 4, a + 3.0 * h, 1.0));
  }

  /** A constant `c` is integrated exactly: the value is `c·(b - a)`. */
  lemma {:induction false} ConstantIsExact(f: real -> real, c: real, a: real, b: real)
    requires forall x :: f(x) == c
    ensures Calculate(f, a, b) == c * (b - a)
  {
  }

  /** `x³` on `[0, 1]` gives 1/4, the reference value for that integral. */
  lemma {:induction false} CubeOnUnit(f: real -> real)
    requires forall x :: f(x) == x * x * x
    ensures Calculate(f, 0.0, 1.0) == 1.0 / 4.0
  {
    assert f(1.0 / 3.0) == 1.0 / 27.0;
    assert f(2.0 / 3.0) == 8.0 / 27.0;
  }

  /** `x` integrates exactly on any interval: the result is `(b² - a²)/2`. */
  lemma {:induction false} LinearIsExact(f: real -> real, a: real, b: real)
    requires forall x :: f(x) == x
    ensures Calculate(f, a, b) == (b * b - a * a) / 2.0
  {
  }

  /** `x²` integrates exactly on any interval: the result is `(b³ - a³)/3`. */
  lemma {:induction false} SquareIsExact(f: real -> real, a: real, b: real)
    requires forall x :: f(x) == x * x
    ensures Calculate(f, a, b) == (b * b * b - a * a * a) / 3.0
  {
  }

  /** `x³` integrates exactly on any interval: the result is `(b⁴ - a⁴)/4`. */
  lemma {:induction false} CubeIsExact(f: real -> real, a: real, b: real)
    requires forall x :: f(x) == x * x * x
    ensures Calculate(f, a, b) == (b * b * b * b - a * a * a * a) / 4.0
  {
  }

  /** The rule is linear in the integrand, so with the lemmas above every
      polynomial of degree at most three integrates exactly. */
  lemma {:induction false} Linearity(f: real -> real, g: real -> real, k: real -> real, p: real, q: real, a: real, b: real)
    requires forall x :: f(x) == p * g(x) + q * k(x)
    ensures Calculate(f, a, b) == p * Calculate(g, a, b) + q * Calculate(k, a, b)
  {
  }
}
