/** The table every quadrature rule reports (`CoefficientIteration` in
    src/lib/types.ts): one row per sample point, with its index, abscissa,
    function value, weight and weighted term, and the sums over such a table. */
module Iterations {

  datatype CoefficientIteration = CoefficientIteration(i: int, xi: real, fxi: real, coef: real, term: real)

  /** What `getDetails` returns, less its explanation text: the value and the table. */
  datatype Report = Report(result: real, iterations: seq<CoefficientIteration>)

  /** The row that samples `f` at `xi` with weight `coef`. */
  function Row(f: real -> real, i: int, xi: real, coef: real): CoefficientIteration {
    var fx := f(xi);
    CoefficientIteration(i, xi, fx, coef, coef * fx)
  }

  /** `result = factor · Σ term`: how every rule turns its weighted sum into a value. */
  function Scaled(factor: real, sum: real): real {
    factor * sum
  }

  /** Every row holds `f` at its abscissa and its weight times that value. */
  predicate Sampled(f: real -> real, rows: seq<CoefficientIteration>) {
    forall k :: 0 <= k < |rows| ==> rows[k].fxi == f(rows[k].xi) && rows[k].term == rows[k].coef * rows[k].fxi
  }

  /** The sum of the terms, accumulated in table order. */
  function TermSum(rows: seq<CoefficientIteration>): real
    decreases |rows|
  {
    if rows == [] then 0.0 else TermSum(rows[..|rows| - 1]) + rows[|rows| - 1].term
  }

  /** The sum of the weights. */
  function CoefSum(rows: seq<CoefficientIteration>): real
    decreases |rows|
  {
    if rows == [] then 0.0 else CoefSum(rows[..|rows| - 1]) + rows[|rows| - 1].coef
  }

  /** Pushing a row adds its term and its weight. */
  lemma {:induction false} SumsAppend(rows: seq<CoefficientIteration>, row: CoefficientIteration)
    ensures TermSum(rows + [row]) == TermSum(rows) + row.term
    ensures CoefSum(rows + [row]) == CoefSum(rows) + row.coef
  {
    assert (rows + [row])[..|rows|] == rows;
  }

  /** The sums of the first `k` rows: those of the first `k - 1` rows and row `k - 1`. */
  lemma {:induction false} SumsPrefix(rows: seq<CoefficientIteration>, k: int)
    requires 0 < k <= |rows|
    ensures TermSum(rows[..k]) == TermSum(rows[..k - 1]) + rows[k - 1].term
    ensures CoefSum(rows[..k]) == CoefSum(rows[..k - 1]) + rows[k - 1].coef
    ensures k == 1 ==> rows[..k - 1] == []
  {
    assert rows[..k][..k - 1] == rows[..k - 1];
  }

  /** The sums of a table made of two parts are the sums of the parts. */
  lemma {:induction false} SumsConcat(left: seq<CoefficientIteration>, right: seq<CoefficientIteration>)
    ensures TermSum(left + right) == TermSum(left) + TermSum(right)
    ensures CoefSum(left + right) == CoefSum(left) + CoefSum(right)
    decreases |right|
  {
    if right != [] {
      var init := right[..|right| - 1];
      var last := right[|right| - 1];
      assert right == init + [last];
      assert left + right == (left + init) + [last];
      SumsAppend(left + init, last);
      SumsAppend(init, last);
      SumsConcat(left, init);
    } else {
      assert left + right == left;
    }
  }

  /** Sampling a constant function: the sum of the terms is the constant
      times the sum of the weights. */
  lemma {:induction false} ConstantTermSum(f: real -> real, c: real, rows: seq<CoefficientIteration>)
    requires Sampled(f, rows)
    requires forall k :: 0 <= k < |rows| ==> f(rows[k].xi) == c
    ensures TermSum(rows) == c * CoefSum(rows)
    decreases |rows|
  {
    if rows != [] {
      var init := rows[..|rows| - 1];
      var last := rows[|rows| - 1];
      assert Sampled(f, init) by {
        forall k | 0 <= k < |init|
          ensures init[k] == rows[k]
        {
        }
      }
      ConstantTermSum(f, c, init);
      assert last.term == last.coef * c;
      calc {
        TermSum(rows);
        TermSum(init) + last.term;
        c * CoefSum(init) + c * last.coef;
        c * (CoefSum(init) + last.coef);
      }
    }
  }

  /** How a composite rule weights its inner points: one weight for all, or
      one for even indices and another for odd ones. */
  datatype Pattern = Uniform(w: real) | Alternating(even: real, odd: real)

  function Weight(p: Pattern, i: int): real {
    match p
    case Uniform(w) => w
    case Alternating(even, odd) => if i % 2 == 0 then even else odd
  }

  /** The `i`-th point `a + i·h` of a grid of width `h` starting at `a`. */
  function Abscissa(a: real, h: real, i: int): real {
    a + (i as real) * h
  }

  /** The rows `i = from, …, from + count - 1` at the abscissae `a + i·h`,
      weighted by the pattern: the body of a composite rule's loop. */
  function Points(f: real -> real, a: real, h: real, from: int, count: nat, weight: Pattern): seq<CoefficientIteration>
    decreases count
  {
    if count == 0 then []
    else
      var i := from + count - 1;
      Points(f, a, h, from, count - 1, weight) + [Row(f, i, Abscissa(a, h, i), Weight(weight, i))]
  }

  /** The `k`-th point is row `from + k`, at `a + (from + k)·h`. */
  lemma {:induction false} PointsAt(f: real -> real, a: real, h: real, from: int, count: nat, weight: Pattern)
    ensures |Points(f, a, h, from, count, weight)| == count
    ensures forall k :: 0 <= k < count ==>
      Points(f, a, h, from, count, weight)[k] == Row(f, from + k, Abscissa(a, h, from + k), Weight(weight, from + k))
    decreases count
  {
    if count > 0 {
      PointsAt(f, a, h, from, count - 1, weight);
    }
  }

  /** Every point samples `f`. */
  lemma {:induction false} PointsSampled(f: real -> real, a: real, h: real, from: int, count: nat, weight: Pattern)
    ensures Sampled(f, Points(f, a, h, from, count, weight))
  {
    PointsAt(f, a, h, from, count, weight);
  }

  /** Rows built by `Row` sample `f`, and so does a table made of sampled parts. */
  lemma {:induction false} SampledConcat(f: real -> real, left: seq<CoefficientIteration>, right: seq<CoefficientIteration>)
    requires Sampled(f, left) && Sampled(f, right)
    ensures Sampled(f, left + right)
  {
    forall k | 0 <= k < |left + right|
      ensures (left + right)[k].fxi == f((left + right)[k].xi)
      ensures (left + right)[k].term == (left + right)[k].coef * (left + right)[k].fxi
    {
      if k >= |left| {
        assert (left + right)[k] == right[k - |left|];
      }
    }
  }

  /** With one weight `w` for all, the weights of `count` points add up to `count · w`. */
  lemma {:induction false} UniformCoefSum(f: real -> real, a: real, h: real, from: int, count: nat, w: real)
    ensures CoefSum(Points(f, a, h, from, count, Uniform(w))) == (count as real) * w
    decreases count
  {
    if count > 0 {
      var i := from + count - 1;
      var init := Points(f, a, h, from, count - 1, Uniform(w));
      calc {
        CoefSum(Points(f, a, h, from, count, Uniform(w)));
        { SumsAppend(init, Row(f, i, Abscissa(a, h, i), w)); }
        CoefSum(init) + w;
        { UniformCoefSum(f, a, h, from, count - 1, w); }
        ((count - 1) as real) * w + w;
        (count as real) * w;
      }
    }
  }
}
