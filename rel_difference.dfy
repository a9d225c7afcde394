/** The relative error measures of experimental/errorAnalysis.py:
    `relDifferenceScalar`, an elementwise relative difference, and
    `relDifference`, the L1 distance of matching rows relative to a norm of
    the operands. */
module RelativeError {
  import opened RealSums
  import opened Wrappers

  /** The floor `1e-3` under the denominator of the max mode. */
  const Floor: real := 0.001

  /** The max-mode relative difference of two numbers: their distance over
      the larger magnitude, but never over less than the floor. */
  function RelMax(a: real, b: real): real
  {
    Abs(a - b) / Max(Max(Abs(a), Abs(b)), Floor)
  }

  /** The relative difference with respect to `a`, defined for `a != 0`. */
  function RelRef(a: real, b: real): real
    requires a != 0.0
  {
    Abs(a - b) / Abs(a)
  }

  /** No entry of `x1` is zero: what the mode relative to `x1` divides
      by. */
  predicate RefNonZero(x1: seq<real>)
  {
    forall i :: 0 <= i < |x1| ==> x1[i] != 0.0
  }

  /** `relDifferenceScalar(x1, x2, maxMode)`. */
  function RelDifferenceScalar(x1: seq<real>, x2: seq<real>, maxMode: bool): (r: seq<real>)
    requires |x1| == |x2|
    requires !maxMode ==> RefNonZero(x1)
    ensures |r| == |x1|
    ensures forall i :: 0 <= i < |r| ==> r[i] == if maxMode then RelMax(x1[i], x2[i]) else RelRef(x1[i], x2[i])
  {
    seq(|x1|, i requires 0 <= i < |x1| => if maxMode then RelMax(x1[i], x2[i]) else RelRef(x1[i], x2[i]))
  }

  lemma QuotientAtMost(n: real, d: real, c: real)
    requires d > 0.0 && n <= c * d
    ensures n / d <= c
  {
  }

  lemma QuotientNonNegative(n: real, d: real)
    requires n >= 0.0 && d > 0.0
    ensures n / d >= 0.0
  {
  }

  lemma QuotientOfLargerDivisor(n: real, d1: real, d2: real)
    requires n >= 0.0 && 0.0 < d1 <= d2
    ensures n / d2 <= n / d1
  {
    assert n / d2 * d2 == n;
    assert n / d1 * d1 == n;
  }

  /** In the max mode the denominator is never below the floor, so the
      measure is always defined; it lies between 0 and 2, is 0 exactly
      when the entries agree, and does not depend on argument order. */
  lemma RelMaxProperties(a: real, b: real)
    ensures Max(Max(Abs(a), Abs(b)), Floor) >= Floor
    ensures 0.0 <= RelMax(a, b) <= 2.0
    ensures RelMax(a, b) == 0.0 <==> a == b
    ensures RelMax(a, b) == RelMax(b, a)
  {
    var d := Max(Max(Abs(a), Abs(b)), Floor);
    assert Abs(a - b) <= Abs(a) + Abs(b) <= 2.0 * d;
    QuotientAtMost(Abs(a - b), d, 2.0);
    QuotientNonNegative(Abs(a - b), d);
    assert Abs(a - b) == Abs(b - a);
    assert Max(Abs(a), Abs(b)) == Max(Abs(b), Abs(a));
  }

  /** Near zero the floor takes over: with both magnitudes below `1e-3`
      the measure is the plain distance scaled by 1000. */
  lemma RelMaxBelowFloor(a: real, b: real)
    requires Abs(a) < Floor && Abs(b) < Floor
    ensures RelMax(a, b) == Abs(a - b) * 1000.0
  {
  }

  /** The max mode never reports more than the mode relative to `a`. */
  lemma RelMaxAtMostRelRef(a: real, b: real)
    requires a != 0.0
    ensures RelMax(a, b) <= RelRef(a, b)
  {
    QuotientOfLargerDivisor(Abs(a - b), Abs(a), Max(Max(Abs(a), Abs(b)), Floor));
  }

  /** The max-mode vector is symmetric, between 0 and 2, and 0 exactly where
      the inputs agree. */
  lemma RelDifferenceScalarMaxMode(x1: seq<real>, x2: seq<real>, i: nat)
    requires |x1| == |x2| && i < |x1|
    ensures RelDifferenceScalar(x1, x2, true)[i] == RelDifferenceScalar(x2, x1, true)[i]
    ensures 0.0 <= RelDifferenceScalar(x1, x2, true)[i] <= 2.0
    ensures RelDifferenceScalar(x1, x2, true)[i] == 0.0 <==> x1[i] == x2[i]
  {
    RelMaxProperties(x1[i], x2[i]);
  }

  /** A matrix of `ns` rows of width `n`. */
  predicate IsMatrix(x: seq<seq<real>>, n: nat)
  {
    forall s :: 0 <= s < |x| ==> |x[s]| == n
  }

  /** `np.linalg.norm(x1 - x2, axis=1, ord=1)`: the L1 distance of each pair
      of rows. */
  function RowDistances(x1: seq<seq<real>>, x2: seq<seq<real>>, n: nat): (r: seq<real>)
    requires |x1| == |x2| && IsMatrix(x1, n) && IsMatrix(x2, n)
    ensures |r| == |x1|
    ensures forall s :: 0 <= s < |r| ==> r[s] >= 0.0
  {
    seq(|x1|, s requires 0 <= s < |x1| => L1(Sub(x1[s], x2[s])))
  }

  /** The max-mode normalisation of row `s`: the larger L1 norm of the two
      rows. */
  function RowNormMax(x1: seq<seq<real>>, x2: seq<seq<real>>, s: nat): (r: real)
    requires |x1| == |x2| && s < |x1|
    ensures r >= L1(x1[s]) && r >= L1(x2[s])
    ensures r == 0.0 <==> AllZero(x1[s]) && AllZero(x2[s])
  {
    L1ZeroIff(x1[s]);
    L1ZeroIff(x2[s]);
    Max(L1(x1[s]), L1(x2[s]))
  }

  /** `np.linalg.norm(x1, axis=0, ord=1)`: the L1 norm of each column. */
  function ColumnNorms(x1: seq<seq<real>>, n: nat): (r: seq<real>)
    requires IsMatrix(x1, n)
    ensures |r| == n
    ensures forall t :: 0 <= t < n ==> r[t] >= 0.0
  {
    seq(n, t requires 0 <= t < n => L1(seq(|x1|, s requires 0 <= s < |x1| => x1[s][t])))
  }

  /** numpy's elementwise division of two vectors under broadcasting:
      equal lengths divide entry by entry, a length-1 operand is repeated,
      and any other pair of lengths is an error. */
  function BroadcastDivide(a: seq<real>, b: seq<real>): (r: Result<seq<real>>)
    requires forall t :: 0 <= t < |b| ==> b[t] != 0.0
    ensures r.Success? <==> |a| == |b| || |b| == 1 || |a| == 1
    ensures r.Success? && |a| == |b| ==> |r.value| == |a| && forall i :: 0 <= i < |a| ==> r.value[i] == a[i] / b[i]
    ensures r.Success? && |b| == 1 ==> |r.value| == |a| && forall i :: 0 <= i < |a| ==> r.value[i] == a[i] / b[0]
    ensures r.Success? && |a| == 1 ==> |r.value| == |b| && forall i :: 0 <= i < |b| ==> r.value[i] == a[0] / b[i]
  {
    if |a| == |b| then Success(seq(|a|, i requires 0 <= i < |a| => a[i] / b[i]))
    else if |b| == 1 then Success(seq(|a|, i requires 0 <= i < |a| => a[i] / b[0]))
    else if |a| == 1 then Success(seq(|b|, i requires 0 <= i < |b| => a[0] / b[i]))
    else Failure("operands could not be broadcast together")
  }

  /** What `relDifference` divides by: in the max mode a non-zero row
      norm, otherwise non-zero column norms of `x1`. */
  predicate Normalisable(x1: seq<seq<real>>, x2: seq<seq<real>>, n: nat, maxMode: bool)
    requires |x1| == |x2| && IsMatrix(x1, n) && IsMatrix(x2, n)
  {
    if maxMode then forall s :: 0 <= s < |x1| ==> RowNormMax(x1, x2, s) != 0.0
    else forall t :: 0 <= t < n ==> ColumnNorms(x1, n)[t] != 0.0
  }

  /** `relDifference(x1, x2, maxMode)` on two `ns x n` matrices. The max
      mode relates each row distance to its own rows; the other mode
      divides the `ns` row distances by the `n` column norms of `x1`, which
      numpy accepts only when the lengths broadcast. */
  function RelDifference(x1: seq<seq<real>>, x2: seq<seq<real>>, n: nat, maxMode: bool): (r: Result<seq<real>>)
    requires |x1| == |x2| && IsMatrix(x1, n) && IsMatrix(x2, n)
    requires Normalisable(x1, x2, n, maxMode)
    ensures maxMode ==> r.Success? && |r.value| == |x1|
    ensures !maxMode ==> (r.Success? <==> |x1| == n || n == 1 || |x1| == 1)
  {
    var absDiff := RowDistances(x1, x2, n);
    if maxMode then
      Success(seq(|x1|, s requires 0 <= s < |x1| => absDiff[s] / RowNormMax(x1, x2, s)))
    else
      BroadcastDivide(absDiff, ColumnNorms(x1, n))
  }

  /** In the max mode each entry lies between 0 and 2, is 0 exactly when
      the two rows are equal, and swapping the operands changes nothing. */
  lemma RelDifferenceMaxMode(x1: seq<seq<real>>, x2: seq<seq<real>>, n: nat, s: nat)
    requires |x1| == |x2| && IsMatrix(x1, n) && IsMatrix(x2, n)
    requires Normalisable(x1, x2, n, true)
    requires s < |x1|
    ensures Normalisable(x2, x1, n, true)
    ensures var r := RelDifference(x1, x2, n, true).value;
            && 0.0 <= r[s] <= 2.0
            && (r[s] == 0.0 <==> x1[s] == x2[s])
            && r[s] == RelDifference(x2, x1, n, true).value[s]
  {
    assert forall j :: 0 <= j < |x1| ==> RowNormMax(x2, x1, j) == RowNormMax(x1, x2, j);
    var d := RowNormMax(x1, x2, s);
    var a := L1(Sub(x1[s], x2[s]));
    L1SubTriangle(x1[s], x2[s]);
    L1SubSymmetric(x1[s], x2[s]);
    L1SubZeroIff(x1[s], x2[s]);
    QuotientAtMost(a, d, 2.0);
    QuotientNonNegative(a, d);
  }

  /** The L1 norm of a one-entry row is the entry's magnitude. */
  lemma L1OfSingleton(a: seq<real>)
    requires |a| == 1
    ensures L1(a) == Abs(a[0])
  {
    assert a[1..] == [];
  }

  /** On one-column data, as the moment error analysis uses it, the other
      mode divides every row distance by the same total
      `sum_s |x1[s][0]|`. */
  lemma RelDifferenceOneColumn(x1: seq<seq<real>>, x2: seq<seq<real>>, s: nat)
    requires |x1| == |x2| && IsMatrix(x1, 1) && IsMatrix(x2, 1)
    requires Normalisable(x1, x2, 1, false)
    requires s < |x1|
    ensures var r := RelDifference(x1, x2, 1, false);
            && r.Success? && |r.value| == |x1|
            && r.value[s] == Abs(x1[s][0] - x2[s][0]) / L1(seq(|x1|, j requires 0 <= j < |x1| => x1[j][0]))
  {
    L1OfSingleton(Sub(x1[s], x2[s]));
  }

  /** On one-column data with a magnitude above the floor the max mode of
      `relDifference` is the max mode of `relDifferenceScalar` on the
      column. */
  lemma RelDifferenceAgreesWithScalar(x1: seq<seq<real>>, x2: seq<seq<real>>, s: nat)
    requires |x1| == |x2| && IsMatrix(x1, 1) && IsMatrix(x2, 1)
    requires Normalisable(x1, x2, 1, true)
    requires s < |x1|
    requires Max(Abs(x1[s][0]), Abs(x2[s][0])) >= Floor
    ensures RelDifference(x1, x2, 1, true).value[s] == RelMax(x1[s][0], x2[s][0])
  {
    L1OfSingleton(Sub(x1[s], x2[s]));
    L1OfSingleton(x1[s]);
    L1OfSingleton(x2[s]);
  }
}
