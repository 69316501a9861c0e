/** `metodoBoole` (src/components/models/booleMethod.tsx): Boole's rule on five
    points with `h = (b - a) / 4` and weights 7, 32, 12, 32, 7. The last point
    is `b` itself. The rule never reads a segment count. */
module Boole {
  import opened Iterations

  /** A quarter of the interval. */
  function Step(a: real, b: real): real {
    (b - a) / 4.0
  }

  /** An entry of the `puntos` list: an abscissa and its weight. */
  datatype Point = Point(x: real, coef: real)

  /** The five points `getDetails` walks through. */
  function Puntos(a: real, b: real): seq<Point> {
    var h := Step(a, b);
    [Point(a, 7.0), Point(a + h, 32.0), Point(a + 2.0 * h, 12.0), Point(a + 3.0 * h, 32.0), Point(b, 7.0)]
  }

  /** The rows `forEach` pushes for a list of points: one per point, numbered
      by its zero-based position. */
  function Rows(f: real -> real, puntos: seq<Point>): (rows: seq<CoefficientIteration>)
    ensures |rows| == |puntos|
    decreases |puntos|
  {
    if puntos == [] then []
    else
      var last := puntos[|puntos| - 1];
      Rows(f, puntos[..|puntos| - 1]) + [Row(f, |puntos| - 1, last.x, last.coef)]
  }

  /** The rows `getDetails` reports. */
  function Table(f: real -> real, a: real, b: real): seq<CoefficientIteration> {
    Rows(f, Puntos(a, b))
  }

  /** Row `k` comes from point `k` and carries the index `k`. */
  lemma {:induction false} RowsAt(f: real -> real, puntos: seq<Point>, k: int)
    requires 0 <= k < |puntos|
    ensures Rows(f, puntos)[k] == Row(f, k, puntos[k].x, puntos[k].coef)
    decreases |puntos|
  {
    if k < |puntos| - 1 {
      var init := puntos[..|puntos| - 1];
      RowsAt(f, init, k);
      assert Rows(f, puntos)[k] == Rows(f, init)[k];
    }
  }

  /** The turn of `forEach` at position `i` pushes the row of point `i`. */
  lemma {:induction false} RowsPush(f: real -> real, puntos: seq<Point>, i: int)
    requires 0 <= i < |puntos|
    ensures Rows(f, puntos[..i + 1]) == Rows(f, puntos[..i]) + [Row(f, i, puntos[i].x, puntos[i].coef)]
  {
    assert puntos[..i + 1][..i] == puntos[..i];
  }

  /** The turn of `forEach` at position `i` pushes the row of point `i` and
      adds its term to the running sum. */
  lemma {:induction false} PushPoint(f: real -> real, puntos: seq<Point>, i: int, rows: seq<CoefficientIteration>, suma: real,
                  punto: Point, fx: real, term: real)
    requires 0 <= i < |puntos| && rows == Rows(f, puntos[..i]) && suma == TermSum(rows)
    requires punto == puntos[i] && fx == f(punto.x) && term == punto.coef * fx
    ensures rows + [CoefficientIteration(i, punto.x, fx, punto.coef, term)] == Rows(f, puntos[..i + 1])
    ensures suma + term == TermSum(rows + [CoefficientIteration(i, punto.x, fx, punto.coef, term)])
  {
    RowsPush(f, puntos, i);
    assert CoefficientIteration(i, punto.x, fx, punto.coef, term) == Row(f, i, punto.x, punto.coef);
    SumsAppend(rows, Row(f, i, punto.x, punto.coef));
  }

  /** The sums of a five-row table, first row first. */
  lemma {:induction false} FiveRowSum(rows: seq<CoefficientIteration>)
    requires |rows| == 5
    ensures TermSum(rows) == rows[0].term + rows[1].term + rows[2].term + rows[3].term + rows[4].term
    ensures CoefSum(rows) == rows[0].coef + rows[1].coef + rows[2].coef + rows[3].coef + rows[4].coef
  {
    SumsPrefix(rows, 5);
    SumsPrefix(rows, 4);
    SumsPrefix(rows, 3);
    SumsPrefix(rows, 2);
    SumsPrefix(rows, 1);
    assert rows[..5] == rows;
  }

  /** The table lists `f` at `a`, `a + h`, `a + 2h`, `a + 3h` and `b` with the weights 7, 32, 12, 32, 7. */
  lemma {:induction false} TableRows(f: real -> real, a: real, b: real)
    ensures Table(f, a, b) == [Row(f, 0, a, 7.0), Row(f, 1, a + Step(a, b), 32.0), Row(f, 2, a + 2.0 * Step(a, b), 12.0),
                               Row(f, 3, a + 3.0 * Step(a, b), 32.0), Row(f, 4, b, 7.0)]
  {
    var p := Puntos(a, b);
    forall k | 0 <= k < 5
      ensures Table(f, a, b)[k] == Row(f, k, p[k].x, p[k].coef)
    {
      RowsAt(f, p, k);
    }
  }

  /** `calculate`: `(2h/45)·(7·f(a) + 32·f(a + h) + 12·f(a + 2h) + 32·f(a + 3h) + 7·f(b))`,
      which is `2h/45` times the sum of the terms `getDetails` lists. */
  function Calculate(f: real -> real, a: real, b: real): (r: real)
    ensures r == Scaled(2.0 * Step(a, b) / 45.0, TermSum(Table(f, a, b)))
  {
    var h := Step(a, b);
    var x1 := a;
    var x2 := a + h;
    var x3 := a + 2.0 * h;
    var x4 := a + 3.0 * h;
    var x5 := b;
    var suma := 7.0 * f(x1) + 32.0 * f(x2) + 12.0 * f(x3) + 32.0 * f(x4) + 7.0 * f(x5);
    TableRows(f, a, b);
    FiveRowSum(Table(f, a, b));
    Scaled(2.0 * h / 45.0, suma)
  }

  /** `getDetails`: walks the points with `forEach`, pushing each row and
      adding its term, and reports the value `calculate` gives. */
  method GetDetails(f: real -> real, a: real, b: real) returns (report: Report)
    ensures report.iterations == Table(f, a, b)
    ensures report.result == Calculate(f, a, b)
  {
    var h := (b - a) / 4.0;
    var iterations: seq<CoefficientIteration> := [];
    var puntos := [Point(a, 7.0), Point(a + h, 32.0), Point(a + 2.0 * h, 12.0), Point(a + 3.0 * h, 32.0), Point(b, 7.0)];
    var suma := 0.0;
    for i := 0 to |puntos|
      invariant iterations == Rows(f, puntos[..i])
      invariant suma == TermSum(iterations)
    {
      var punto := puntos[i];
      var fx := f(punto.x);
      var term := punto.coef * fx;
      PushPoint(f, puntos, i, iterations, suma, punto, fx, term);
      iterations := iterations + [CoefficientIteration(i, punto.x, fx, punto.coef, term)];
      suma := suma + term;
    }
    assert puntos[..|puntos|] == Puntos(a, b);
    var result := Scaled(2.0 * h / 45.0, suma);
    report := Report(result, iterations);
  }

  /** Every row samples `f`, and the weights add up to 90. */
  lemma {:induction false} TableWeights(f: real -> real, a: real, b: real)
    ensures |Table(f, a, b)| == 5
    ensures Sampled(f, Table(f, a, b))
    ensures CoefSum(Table(f, a, b)) == 90.0
  {
    TableRows(f, a, b);
    FiveRowSum(Table(f, a, b));
  }

  /** A constant `c` is integrated exactly: the value is `c·(b - a)`. */
  lemma {:induction false} ConstantIsExact(f: real -> real, c: real, a: real, b: real)
    requires forall x :: f(x) == c
    ensures Calculate(f, a, b) == c * (b - a)
  {
    TableRows(f, a, b);
  }

  /** `x` integrates exactly on any interval: the result is `(b² - a²)/2`. */
  lemma {:induction false} LinearIsExact(f: real -> real, a: real, b: real)
    requires forall x :: f(x) == x
    ensures Calculate(f, a, b) == (b * b - a * a) / 2.0
  {
  }

  /** `x²` integrates exactly on any interval: the result is `(b³ - a³)/3`. */
  lemma {:induction false} SquareIsExact(f: real -> real, a: real, b: real)
    requires forall x :: f(x) == x * x
    ensures Calculate(f, a, b) == (b * b * b - a * a * a) / 3.0
  {
  }

  /** `x³` integrates exactly on any interval: the result is `(b⁴ - a⁴)/4`. */
  lemma {:induction false} CubeIsExact(f: real -> real, a: real, b: real)
    requires forall x :: f(x) == x * x * x
    ensures Calculate(f, a, b) == (b * b * b * b - a * a * a * a) / 4.0
  {
  }

  /** `calculate` is Boole's weighted sum of the values at `a`, `a + h`,
      `a + 2h`, `a + 3h` and `b`. */
  lemma {:induction false} WeightedSum(f: real -> real, a: real, b: real, s: real)
    requires var h := Step(a, b);
      s == 2.0 * h / 45.0 * (7.0 * f(a) + 32.0 * f(a + h) + 12.0 * f(a + 2.0 * h) + 32.0 * f(a + 3.0 * h) + 7.0 * f(b))
    ensures Calculate(f, a, b) == s
  {
  }

  /** Boole's weights applied to fourth powers at five equally spaced points
      give the integral of `x⁴` over `[a, a + 4h]`. */
  lemma {:induction false} FourthPowerSum(a: real, h: real, p0: real, p1: real, p2: real, p3: real, p4: real)
    requires p0 == a * a * a * a && p1 == (a + h) * (a + h) * (a + h) * (a + h)
    requires p2 == (a + 2.0 * h) * (a + 2.0 * h) * (a + 2.0 * h) * (a + 2.0 * h)
    requires p3 == (a + 3.0 * h) * (a + 3.0 * h) * (a + 3.0 * h) * (a + 3.0 * h)
    requires p4 == (a + 4.0 * h) * (a + 4.0 * h) * (a + 4.0 * h) * (a + 4.0 * h)
    ensures var b := a + 4.0 * h;
      2.0 * h / 45.0 * (7.0 * p0 + 32.0 * p1 + 12.0 * p2 + 32.0 * p3 + 7.0 * p4) == (b * b * b * b * b - a * a * a * a * a) / 5.0
  {
  }

  /** Equal reals have equal powers; stated apart so that the solver does not
      have to substitute inside products. */
  lemma SamePowers(b: real, c: real)
    requires b == c
    ensures b * b * b * b == c * c * c * c && b * b * b * b * b == c * c * c * c * c
  {
  }

  /** `x⁴` integrates exactly on any interval: the result is `(b⁵ - a⁵)/5`. */
  lemma {:induction false} FourthPowerIsExact(f: real -> real, a: real, b: real)
    requires forall x :: f(x) == x * x * x * x
    ensures Calculate(f, a, b) == (b * b * b * b * b - a * a * a * a * a) / 5.0
  {
    var h := Step(a, b);
    assert a + 4.0 * h == b;
    SamePowers(b, a + 4.0 * h);
    FourthPowerSum(a, h, f(a), f(a + h), f(a + 2.0 * h), f(a + 3.0 * h), f(b));
    WeightedSum(f, a, b, (b * b * b * b * b - a * a * a * a * a) / 5.0);
  }

  /** `x⁵` integrates exactly on any interval: the result is `(b⁶ - a⁶)/6`. */
  lemma {:induction false} FifthPowerIsExact(f: real -> real, a: real, b: real)
    requires forall x :: f(x) == x * x * x * x * x
    ensures Calculate(f, a, b) == (b * b * b * b * b * b - a * a * a * a * a * a) / 6.0
  {
  }

  /** The rule is linear in the integrand, so with the lemmas above every
      polynomial of degree at most five integrates exactly. */
  lemma {:induction false} Linearity(f: real -> real, g: real -> real, k: real -> real, p: real, q: real, a: real, b: real)
    requires forall x :: f(x) == p * g(x) + q * k(x)
    ensures Calculate(f, a, b) == p * Calculate(g, a, b) + q * Calculate(k, a, b)
  {
  }
}
