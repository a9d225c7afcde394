/** The perturbation batch of `errorAnalysisf` and `errorAnalysisU` in
    experimental/errorAnalysis.py: the multipliers of sample 25000 repeated
    in 50 rows, and a copy in which entry 1 of row `i` is scaled by
    `1 + 2^(i - 20)`, the step doubling from row to row. */
module Perturbation {
  import opened RealSums

  /** The sample the analysis perturbs and the number of perturbed rows. */
  const Sample: nat := 25000
  const Rows: nat := 50
  /** The exponent of the first step `0.5 ** 20`. */
  const FirstStepExponent: nat := 20

  /** `b ** e` for a natural exponent. */
  function Power(b: real, e: nat): real
  {
    if e == 0 then 1.0 else b * Power(b, e - 1)
  }

  /** `2 ** e` for any integer exponent. */
  function Pow2(e: int): (r: real)
    ensures r > 0.0
    decreases if e < 0 then -e else e
  {
    if e == 0 then 1.0 else if e > 0 then 2.0 * Pow2(e - 1) else Pow2(e + 1) / 2.0
  }

  /** Doubling a power of two raises its exponent by one. */
  lemma {:induction false} Pow2Step(e: int)
    ensures Pow2(e + 1) == 2.0 * Pow2(e)
    decreases if e < 0 then -e else e
  {
    if e < -1 {
      Pow2Step(e + 1);
    }
  }

  /** Halving `k` times is `2 ** -k`. */
  lemma {:induction false} PowerOfHalf(k: nat)
    ensures Power(0.5, k) == Pow2(-(k as int))
  {
    if k > 0 {
      PowerOfHalf(k - 1);
      Pow2Step(-(k as int));
    }
  }

  /** Entry `j` of perturbed row `i`: entry 1 grows by the factor
      `1 + 2^(i - 20)`, every other entry is the base value. */
  function PerturbedRow(base: seq<real>, i: int): (r: seq<real>)
    requires |base| >= 2
    ensures |r| == |base|
    ensures r[1] > base[1] <==> base[1] > 0.0
  {
    seq(|base|, j requires 0 <= j < |base| => if j == 1 then base[1] * (1.0 + Pow2(i - FirstStepExponent)) else base[j])
  }

  /** The rows and their perturbed copy: `alphas` repeats sample 25000 in
      50 rows; `alphasDist` starts as a copy and the loop scales entry 1 of
      row `i` by `1 + delta`, doubling `delta` from `0.5 ** 20` on. */
  method PerturbedBatch(alpha: seq<seq<real>>) returns (alphas: array2<real>, alphasDist: array2<real>)
    requires |alpha| > Sample && |alpha[Sample]| >= 2
    ensures fresh(alphas) && fresh(alphasDist) && alphas != alphasDist
    ensures alphas.Length0 == Rows && alphas.Length1 == |alpha[Sample]|
    ensures alphasDist.Length0 == Rows && alphasDist.Length1 == |alpha[Sample]|
    ensures forall i, j :: 0 <= i < Rows && 0 <= j < alphas.Length1 ==> alphas[i, j] == alpha[Sample][j]
    ensures forall i, j :: 0 <= i < Rows && 0 <= j < alphasDist.Length1 ==>
              alphasDist[i, j] == PerturbedRow(alpha[Sample], i)[j]
  {
    var alphaSpec := alpha[Sample];
    var n := |alphaSpec|;
    alphas := new real[Rows, n]((i, j) requires 0 <= j < n => alphaSpec[j]);
    alphasDist := new real[Rows, n]((i, j) reads alphas requires 0 <= i < Rows && 0 <= j < n => alphas[i, j]);
    var delta := Power(0.5, FirstStepExponent);
    PowerOfHalf(FirstStepExponent);
    var i := 0;
    while i < Rows
      invariant 0 <= i <= Rows
      invariant delta == Pow2(i - FirstStepExponent)
      invariant forall r, j :: 0 <= r < Rows && 0 <= j < n ==> alphas[r, j] == alphaSpec[j]
      invariant forall r, j :: 0 <= r < Rows && 0 <= j < n ==>
                  alphasDist[r, j] == if r < i then PerturbedRow(alphaSpec, r)[j] else alphaSpec[j]
    {
      alphasDist[i, 1] := alphasDist[i, 1] * (1.0 + delta);
      Pow2Step(i - FirstStepExponent);
      delta := delta * 2.0;
      i := i + 1;
    }
  }

  /** Perturbed row `i` lies at L1 distance `|alpha_1| * 2^(i - 20)` from
      the base row. */
  lemma PerturbationDistance(base: seq<real>, i: int)
    requires |base| >= 2
    ensures L1(Sub(PerturbedRow(base, i), base)) == Abs(base[1]) * Pow2(i - FirstStepExponent)
  {
    var d := Sub(PerturbedRow(base, i), base);
    assert d[1] == base[1] * Pow2(i - FirstStepExponent);
    L1SingleEntry(d, 1);
  }

  /** A product with a positive factor vanishes exactly when the other
      factor does. */
  lemma ZeroProduct(a: real, p: real)
    requires p > 0.0
    ensures a * p == 0.0 <==> a == 0.0
  {
    if a != 0.0 {
      assert a * p / p == a;
    }
  }

  /** The perturbation of entry 1 doubles from each row to the next. */
  lemma PerturbationDoubles(base: seq<real>, i: int)
    requires |base| >= 2
    ensures PerturbedRow(base, i + 1)[1] - base[1] == 2.0 * (PerturbedRow(base, i)[1] - base[1])
  {
    Pow2Step(i - FirstStepExponent);
    var p := Pow2(i - FirstStepExponent);
    assert PerturbedRow(base, i)[1] - base[1] == base[1] * p;
    assert PerturbedRow(base, i + 1)[1] - base[1] == base[1] * (2.0 * p);
  }

  /** A row is perturbed at all exactly when entry 1 of the base is
      non-zero. */
  lemma PerturbedIffNonZero(base: seq<real>, i: int)
    requires |base| >= 2
    ensures PerturbedRow(base, i) == base <==> base[1] == 0.0
  {
    PerturbationDistance(base, i);
    L1SubZeroIff(PerturbedRow(base, i), base);
    ZeroProduct(Abs(base[1]), Pow2(i - FirstStepExponent));
  }
}
