/** `metodoSimpson13` (src/components/models/simpsonMethod1-3.tsx): Simpson's
    1/3 rule on the three points `a`, `a + h`, `a + 2h` with `h = (b - a) / 2`
    and weights 1, 4, 1. The segment count the interface passes in is ignored,
    so the model does not take it. */
module Simpson13 {
  import opened Iterations

  /** Half the interval. */
  function Step(a: real, b: real): real {
    (b - a) / 2.0
  }

  /** The three rows `getDetails` reports, numbered from 1. */
  function Table(f: real -> real, a: real, b: real): seq<CoefficientIteration> {
    var h := Step(a, b);
    [Row(f, 1, a, 1.0), Row(f, 2, a + h, 4.0), Row(f, 3, a + 2.0 * h, 1.0)]
  }

  /** The sum of a three-row table, first row first. */
  lemma {:induction false} ThreeRowSum(r1: CoefficientIteration, r2: CoefficientIteration, r3: CoefficientIteration)
    ensures TermSum([r1, r2, r3]) == r1.term + r2.term + r3.term
    ensures CoefSum([r1, r2, r3]) == r1.coef + r2.coef + r3.coef
  {
    SumsAppend([], r1);
    assert [] + [r1] == [r1];
    SumsAppend([r1], r2);
    assert [r1] + [r2] == [r1, r2];
    SumsAppend([r1, r2], r3);
    assert [r1, r2] + [r3] == [r1, r2, r3];
  }

  /** `calculate`: `(h/3)·(f(a) + 4·f(a + h) + f(a + 2h))`, which is `h/3`
      times the sum of the terms `getDetails` lists. */
  function Calculate(f: real -> real, a: real, b: real): (r: real)
    ensures r == Scaled(Step(a, b) / 3.0, TermSum(Table(f, a, b)))
  {
    var h := (b - a) / 2.0;
    var x1 := a;
    var x2 := a + h;
    var x3 := a + 2.0 * h;
    var suma := f(x1) + 4.0 * f(x2) + f(x3);
    ThreeRowSum(Row(f, 1, x1, 1.0), Row(f, 2, x2, 4.0), Row(f, 3, x3, 1.0));
    Scaled(h / 3.0, suma)
  }

  /** `getDetails`: pushes the three rows and reports the value `calculate` gives. */
  method GetDetails(f: real -> real, a: real, b: real) returns (report: Report)
    ensures report.iterations == Table(f, a, b)
    ensures report.result == Calculate(f, a, b)
  {
    var h := (b - a) / 2.0;
    var iterations: seq<CoefficientIteration> := [];
    var x1 := a;
    var x2 := a + h;
    var x3 := a + 2.0 * h;
    var fx1 := f(x1);
    var fx2 := f(x2);
    var fx3 := f(x3);
    iterations := iterations + [
      CoefficientIteration(1, x1, fx1, 1.0, fx1),
      CoefficientIteration(2, x2, fx2, 4.0, 4.0 * fx2),
      CoefficientIteration(3, x3, fx3, 1.0, fx3)];
    var suma := fx1 + 4.0 * fx2 + fx3;
    var result := Scaled(h / 3.0, suma);
    report := Report(result, iterations);
  }

  /** The rows sample `a`, the midpoint and `b` itself, with weights adding up to 6. */
  lemma {:induction false} TableShape(f: real -> real, a: real, b: real)
    ensures |Table(f, a, b)| == 3
    ensures Table(f, a, b)[0].i == 1 && Table(f, a, b)[1].i == 2 && Table(f, a, b)[2].i == 3
    ensures Table(f, a, b)[0].xi == a && Table(f, a, b)[1].xi == (a + b) / 2.0 && Table(f, a, b)[2].xi == b
    ensures Sampled(f, Table(f, a, b))
    ensures CoefSum(Table(f, a, b)) == 6.0
  {
    var h := Step(a, b);
    ThreeRowSum(Row(f, 1, a, 1.0), Row(f, 2, a + h, 4.0), Row(f, 3, a + 2.0 * h, 1.0));
  }

  /** A constant `c` is integrated exactly: the value is `c·(b - a)`. */
  lemma {:induction false} ConstantIsExact(f: real -> real, c: real, a: real, b: real)
    requires forall x :: f(x) == c
    ensures Calculate(f, a, b) == c * (b - a)
  {
  }

  /** `x²` on `[0, 1]` gives 1/3, the reference value for that integral. */
  lemma {:induction false} SquareOnUnit(f: real -> real)
    requires forall x :: f(x) == x * x
    ensures Calculate(f, 0.0, 1.0) == 1.0 / 3.0
  {
    assert f(0.5) == 0.25;
  }

  /** `x³` on `[0, 1]` gives 1/4, the reference value for that integral. */
  lemma {:induction false} CubeOnUnit(f: real -> real)
    requires forall x :: f(x) == x * x * x
    ensures Calculate(f, 0.0, 1.0) == 1.0 / 4.0
  {
    assert f(0.5) == 0.125;
  }

  /** `x` integrates exactly on any interval: the result is `(b² - a²)/2`. */
  lemma {:induction false} LinearIsExact(f: real -> real, a: real, b: real)
    requires forall x :: f(x) == x
    ensures Calculate(f, a, b) == (b * b - a * a) / 2.0
  {
  }

  /** `x²` integrates exactly on any interval: the result is `(b³ - a³)/3`. */
  lemma {:induction false} SquareIsExact(f: real -> real, a: real, b: real)
    requires forall x :: f(x) == x * x
    ensures Calculate(f, a, b) == (b * b * b - a * a * a) / 3.0
  {
  }

  /** `x³` integrates exactly on any interval: the result is `(b⁴ - a⁴)/4`. */
  lemma {:induction false} CubeIsExact(f: real -> real, a: real, b: real)
    requires forall x :: f(x) == x * x * x
    ensures Calculate(f, a, b) == (b * b * b * b - a * a * a * a) / 4.0
  {
  }

  /** The rule is linear in the integrand, so with the lemmas above every
      polynomial of degree at most three integrates exactly. */
  lemma {:induction false} Linearity(f: real -> real, g: real -> real, k: real -> real, p: real, q: real, a: real, b: real)
    requires forall x :: f(x) == p * g(x) + q * k(x)
    ensures Calculate(f, a, b) == p * Calculate(g, a, b) + q * Calculate(k, a, b)
  {
  }
}
