/** The two grid recurrences of src/utils.py: `integrate`, a cumulative
    right-endpoint Riemann sum, and `finiteDiff`, a difference quotient that
    is shifted by one grid point and wraps around at element 1 through
    Python's negative indexing. Floats are modelled as reals. */
module Calculus {

  /** Python's reading of an index that may be negative: `s[-1]` is the last
      element. */
  function PyIndex(i: int, len: nat): (r: int)
    requires -(len as int) <= i < len
    ensures 0 <= r < len
    ensures i >= 0 ==> r == i
    ensures i < 0 ==> r == len + i
  {
    if i < 0 then len + i else i
  }

  /** `integrate` reads `y[i + 1]` for every grid step, so `y` must cover
      the grid unless there is no step at all. */
  predicate Integrable(x: seq<real>, y: seq<real>)
  {
    |x| <= 1 || |x| <= |y|
  }

  /** The right-endpoint Riemann sum of `y` over the first `i` intervals of
      the grid `x`. */
  function RiemannSum(x: seq<real>, y: seq<real>, i: nat): real
    requires Integrable(x, y) && i < |x|
  {
    if i == 0 then 0.0 else RiemannSum(x, y, i - 1) + (x[i] - x[i - 1]) * y[i]
  }

  /** What `integrate(x, y)` returns: entry `i` is the Riemann sum up to
      grid point `i`. */
  function Integral(x: seq<real>, y: seq<real>): (r: seq<real>)
    requires Integrable(x, y)
    ensures |r| == |x|
    ensures |x| > 0 ==> r[0] == 0.0
  {
    seq(|x|, i requires 0 <= i < |x| => RiemannSum(x, y, i))
  }

  /** `integrate`: fills a zero array in place, one step per grid interval. */
  method Integrate(x: array<real>, y: array<real>) returns (integral: array<real>)
    requires Integrable(x[..], y[..])
    ensures fresh(integral)
    ensures integral.Length == x.Length
    ensures integral[..] == Integral(x[..], y[..])
  {
    ghost var xs, ys := x[..], y[..];
    var n := x.Length;
    integral := new real[n](_ => 0.0);
    var i := 0;
    while i < n - 1
      invariant 0 <= i <= if n == 0 then 0 else n - 1
      invariant forall k :: 0 <= k <= i && k < n ==> integral[k] == Integral(xs, ys)[k]
    {
      assert Integral(xs, ys)[i] == RiemannSum(xs, ys, i);
      assert Integral(xs, ys)[i + 1] == RiemannSum(xs, ys, i + 1);
      assert RiemannSum(xs, ys, i + 1) == RiemannSum(xs, ys, i) + (xs[i + 1] - xs[i]) * ys[i + 1];
      integral[i + 1] := integral[i] + (x[i + 1] - x[i]) * y[i + 1];
      i := i + 1;
    }
  }

  /** With a constant integrand the cumulative sum is the constant times the
      distance covered from the first grid point. */
  lemma {:induction false} IntegralOfConstant(x: seq<real>, y: seq<real>, c: real, i: nat)
    requires Integrable(x, y) && i < |x|
    requires forall j :: 0 < j < |x| ==> y[j] == c
    ensures Integral(x, y)[i] == c * (x[i] - x[0])
  {
    if i > 0 {
      IntegralOfConstant(x, y, c, i - 1);
    }
  }

  /** On a non-decreasing grid a non-negative integrand gives a
      non-decreasing cumulative sum. */
  lemma {:induction false} IntegralMonotone(x: seq<real>, y: seq<real>, i: nat, j: nat)
    requires Integrable(x, y) && i <= j < |x|
    requires forall k :: 0 < k < |x| ==> x[k - 1] <= x[k]
    requires forall k :: 0 < k < |x| ==> y[k] >= 0.0
    ensures Integral(x, y)[i] <= Integral(x, y)[j]
  {
    if i < j {
      IntegralMonotone(x, y, i, j - 1);
      assert (x[j] - x[j - 1]) * y[j] >= 0.0;
    }
  }

  /** The denominators `finiteDiff` divides by: `x[1] - x[0]` and
      `x[i] - x[i - 1]` for `i` in `0 .. n - 2`, where `x[-1]` is the last
      grid point. */
  predicate FiniteDiffDefined(x: seq<real>, y: seq<real>)
  {
    && |x| >= 2 && |y| >= 2 && |y| >= |x| - 1
    && x[1] != x[0]
    && x[0] != x[|x| - 1]
    && forall i :: 1 <= i <= |x| - 2 ==> x[i] != x[i - 1]
  }

  /** What `finiteDiff(x, y)` returns, as written: entry 0 is the forward
      quotient at the first interval; entry `k >= 1` is the quotient of the
      interval ending at grid point `k - 1`, so entry 1 reaches back to the
      last element of `x` and of `y`. */
  function FiniteDiffSpec(x: seq<real>, y: seq<real>): (r: seq<real>)
    requires FiniteDiffDefined(x, y)
    ensures |r| == |x|
    ensures r[0] == (y[1] - y[0]) / (x[1] - x[0])
    ensures r[1] == (y[0] - y[|y| - 1]) / (x[0] - x[|x| - 1])
    ensures forall k :: 2 <= k < |x| ==> r[k] == (y[k - 1] - y[k - 2]) / (x[k - 1] - x[k - 2])
  {
    seq(|x|, k requires 0 <= k < |x| =>
      if k == 0 then (y[1] - y[0]) / (x[1] - x[0])
      else (y[k - 1] - y[PyIndex(k - 2, |y|)]) / (x[k - 1] - x[PyIndex(k - 2, |x|)]))
  }

  /** `finiteDiff`: sets entry 0, then fills entries `1 .. n - 1` in a loop. */
  method FiniteDiff(x: array<real>, y: array<real>) returns (grad: array<real>)
    requires FiniteDiffDefined(x[..], y[..])
    ensures fresh(grad)
    ensures grad.Length == x.Length
    ensures grad[..] == FiniteDiffSpec(x[..], y[..])
  {
    var n := x.Length;
    grad := new real[n](_ => 0.0);
    grad[0] := (y[1] - y[0]) / (x[1] - x[0]);
    var i := 0;
    while i < n - 1
      invariant 0 <= i <= n - 1
      invariant grad[0] == FiniteDiffSpec(x[..], y[..])[0]
      invariant forall k :: 1 <= k <= i ==> grad[k] == FiniteDiffSpec(x[..], y[..])[k]
    {
      var im1 := PyIndex(i - 1, n);
      var jm1 := PyIndex(i - 1, y.Length);
      grad[i + 1] := (y[i] - y[jm1]) / (x[i] - x[im1]);
      i := i + 1;
    }
  }

  /** A difference quotient over an interval where `y` rises by the
      interval's width times `v` is `v`. */
  lemma QuotientOfRise(a: real, b: real, d: real, v: real)
    requires d != 0.0 && a - b == d * v
    ensures (a - b) / d == v
  {
  }

  /** As written, `finiteDiff` of a cumulative sum hands back the integrand
      one grid point late: from entry 2 on, entry `k` is `y[k - 1]`. */
  lemma FiniteDiffOfIntegralLags(x: seq<real>, y: seq<real>, k: nat)
    requires Integrable(x, y)
    requires FiniteDiffDefined(x, Integral(x, y))
    requires 2 <= k < |x|
    ensures FiniteDiffSpec(x, Integral(x, y))[k] == y[k - 1]
  {
    var I := Integral(x, y);
    assert I[k - 1] == RiemannSum(x, y, k - 1);
    QuotientOfRise(I[k - 1], I[k - 2], x[k - 1] - x[k - 2], y[k - 1]);
  }

  /** A concrete grid on which the as-written quotient at the last point
      differs from the integrand it should recover. */
  lemma FiniteDiffMissesIntegrand()
    ensures var x, y := [0.0, 1.0, 2.0], [5.0, 1.0, 4.0];
            Integrable(x, y) && FiniteDiffDefined(x, Integral(x, y))
            && FiniteDiffSpec(x, Integral(x, y))[2] == 1.0 != y[2]
  {
    var x, y := [0.0, 1.0, 2.0], [5.0, 1.0, 4.0];
    var I := Integral(x, y);
    assert I[1] == 1.0;
    assert I[2] == 5.0;
    FiniteDiffOfIntegralLags(x, y, 2);
  }

  /** The denominators of the backward difference quotient. */
  predicate BackwardDiffDefined(x: seq<real>, y: seq<real>)
  {
    |x| >= 2 && |y| >= |x| && forall i :: 1 <= i < |x| ==> x[i] != x[i - 1]
  }

  /** The difference quotient `finiteDiff` evidently means: the forward
      quotient at point 0 and the backward quotient `(y[k] - y[k - 1]) /
      (x[k] - x[k - 1])` at every later point. */
  function BackwardDiff(x: seq<real>, y: seq<real>): (r: seq<real>)
    requires BackwardDiffDefined(x, y)
    ensures |r| == |x|
    ensures r[0] == r[1]
  {
    seq(|x|, k requires 0 <= k < |x| =>
      if k == 0 then (y[1] - y[0]) / (x[1] - x[0])
      else (y[k] - y[k - 1]) / (x[k] - x[k - 1]))
  }

  /** The backward difference undoes the cumulative sum: at every point
      after the first it recovers the integrand exactly. */
  lemma BackwardDiffInvertsIntegral(x: seq<real>, y: seq<real>, k: nat)
    requires Integrable(x, y)
    requires BackwardDiffDefined(x, Integral(x, y))
    requires 1 <= k < |x|
    ensures BackwardDiff(x, Integral(x, y))[k] == y[k]
  {
    var I := Integral(x, y);
    assert I[k] == RiemannSum(x, y, k);
    QuotientOfRise(I[k], I[k - 1], x[k] - x[k - 1], y[k]);
  }
}
