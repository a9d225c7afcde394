/** The structural part of `kl_divergence_loss` in src/utils.py: the
    completion of a multiplier vector by its zeroth entry
    (`reconstruct_alpha`) and the per-sample Kullback-Leibler divergence of
    the Maxwell-Boltzmann densities of two multiplier vectors
    (`kl_divergence`). Tensor contractions are written as sums; `exp` and
    `log` are parameters, so every property here holds for any choice of
    them. The quadrature weights `q_w`, a tensor of shape `1 x nq`, are
    modelled as their single row `w`. */
module KlLoss {
  import opened RealSums

  const ClipMin: real := -50.0
  const ClipMax: real := 50.0

  /** `tf.clip_by_value(x, -50, 50)`. */
  function Clip(x: real): (r: real)
    ensures ClipMin <= r <= ClipMax
    ensures ClipMin <= x <= ClipMax ==> r == x
    ensures x > ClipMax ==> r == ClipMax
    ensures x < ClipMin ==> r == ClipMin
  {
    if x < ClipMin then ClipMin else if x > ClipMax then ClipMax else x
  }

  function ClipRow(a: seq<real>): (r: seq<real>)
    ensures |r| == |a|
    ensures forall i :: 0 <= i < |a| ==> r[i] == Clip(a[i])
  {
    seq(|a|, i requires 0 <= i < |a| => Clip(a[i]))
  }

  /** A moment basis evaluated at the quadrature points: `n >= 1` rows of
      `nq` values each, one row per basis function. */
  predicate IsBasis(m: seq<seq<real>>, nq: nat)
  {
    |m| >= 1 && forall i :: 0 <= i < |m| ==> |m[i]| == nq
  }

  /** Column `k` of the basis: every basis function at quadrature point
      `k`. */
  function Column(m: seq<seq<real>>, k: nat): (c: seq<real>)
    requires forall i :: 0 <= i < |m| ==> k < |m[i]|
    ensures |c| == |m|
  {
    seq(|m|, i requires 0 <= i < |m| => m[i][k])
  }

  /** `alpha_0 = -log(<exp(clip(alpha) . m[1:])>)`: the quadrature of the
      exponential of the clipped multipliers against basis rows `1 ..`. */
  function Alpha0(exp: real -> real, log: real -> real, m: seq<seq<real>>, w: seq<real>, a: seq<real>): real
    requires IsBasis(m, |w|) && |a| == |m| - 1
  {
    var c := ClipRow(a);
    var tmp := seq(|w|, k requires 0 <= k < |w| => exp(Dot(c, Column(m[1..], k))));
    -log(Dot(tmp, w))
  }

  /** `reconstruct_alpha`: each sample's multipliers with `alpha_0` put in
      front; the multipliers themselves enter unclipped. */
  function ReconstructAlpha(exp: real -> real, log: real -> real, m: seq<seq<real>>, w: seq<real>,
                            alpha: seq<seq<real>>): (r: seq<seq<real>>)
    requires IsBasis(m, |w|)
    requires forall s :: 0 <= s < |alpha| ==> |alpha[s]| == |m| - 1
    ensures |r| == |alpha|
    ensures forall s :: 0 <= s < |r| ==> |r[s]| == |m|
    ensures forall s :: 0 <= s < |r| ==> r[s][0] == Alpha0(exp, log, m, w, alpha[s]) && r[s][1..] == alpha[s]
  {
    seq(|alpha|, s requires 0 <= s < |alpha| => [Alpha0(exp, log, m, w, alpha[s])] + alpha[s])
  }

  /** The divergence for one sample with completed multipliers `t` (true)
      and `p` (predicted): the quadrature of
      `exp(t . m) * ((t - p) . m)`. */
  function KlSample(exp: real -> real, m: seq<seq<real>>, w: seq<real>, t: seq<real>, p: seq<real>): real
    requires IsBasis(m, |w|) && |t| == |p| == |m|
  {
    var integrand := seq(|w|, k requires 0 <= k < |w| =>
      exp(Dot(t, Column(m, k))) * Dot(Sub(t, p), Column(m, k)));
    Dot(integrand, w)
  }

  /** `kl_divergence(y_true, y_pred)`: one value per sample, with no
      reduction over the batch. */
  function KlDivergence(exp: real -> real, log: real -> real, m: seq<seq<real>>, w: seq<real>,
                        yTrue: seq<seq<real>>, yPred: seq<seq<real>>): (r: seq<real>)
    requires IsBasis(m, |w|)
    requires |yTrue| == |yPred|
    requires forall s :: 0 <= s < |yTrue| ==> |yTrue[s]| == |m| - 1 && |yPred[s]| == |m| - 1
    ensures |r| == |yTrue|
  {
    var tRecon := ReconstructAlpha(exp, log, m, w, yTrue);
    var pRecon := ReconstructAlpha(exp, log, m, w, yPred);
    seq(|yTrue|, s requires 0 <= s < |yTrue| => KlSample(exp, m, w, tRecon[s], pRecon[s]))
  }

  /** Clipping twice clips no further. */
  lemma ClipRowIdempotent(a: seq<real>)
    ensures ClipRow(ClipRow(a)) == ClipRow(a)
  {
    assert forall i :: 0 <= i < |a| ==> ClipRow(ClipRow(a))[i] == ClipRow(a)[i];
  }

  /** `alpha_0` sees the multipliers only through their clipped values:
      clipping the input first changes nothing, and any two inputs that
      clip alike give the same `alpha_0`. */
  lemma Alpha0OnlySeesClipped(exp: real -> real, log: real -> real, m: seq<seq<real>>, w: seq<real>,
                              a: seq<real>, b: seq<real>)
    requires IsBasis(m, |w|) && |a| == |b| == |m| - 1
    requires ClipRow(a) == ClipRow(b)
    ensures Alpha0(exp, log, m, w, a) == Alpha0(exp, log, m, w, b)
    ensures Alpha0(exp, log, m, w, ClipRow(a)) == Alpha0(exp, log, m, w, a)
  {
    ClipRowIdempotent(a);
  }

  /** Basis row 0 plays no part in `alpha_0`. */
  lemma Alpha0IgnoresBasisRowZero(exp: real -> real, log: real -> real, m: seq<seq<real>>, m': seq<seq<real>>,
                                  w: seq<real>, a: seq<real>)
    requires IsBasis(m, |w|) && IsBasis(m', |w|) && |a| == |m| - 1
    requires |m| == |m'| && m[1..] == m'[1..]
    ensures Alpha0(exp, log, m, w, a) == Alpha0(exp, log, m', w, a)
  {
  }

  /** A sample whose true and predicted multipliers complete to the same
      vector contributes zero divergence, whatever `exp` is. */
  lemma KlSampleOfEqual(exp: real -> real, m: seq<seq<real>>, w: seq<real>, t: seq<real>)
    requires IsBasis(m, |w|) && |t| == |m|
    ensures KlSample(exp, m, w, t, t) == 0.0
  {
    var integrand := seq(|w|, k requires 0 <= k < |w| =>
      exp(Dot(t, Column(m, k))) * Dot(Sub(t, t), Column(m, k)));
    forall k | 0 <= k < |w|
      ensures integrand[k] == 0.0
    {
      DotZeroLeft(Sub(t, t), Column(m, k));
    }
    DotZeroLeft(integrand, w);
  }

  /** The loss is zero for every sample whose prediction equals its true
      multipliers, whatever the other samples hold; so the loss of a batch
      against itself is zero throughout. */
  lemma KlDivergenceZeroWhereEqual(exp: real -> real, log: real -> real, m: seq<seq<real>>, w: seq<real>,
                                   yTrue: seq<seq<real>>, yPred: seq<seq<real>>)
    requires IsBasis(m, |w|)
    requires |yTrue| == |yPred|
    requires forall s :: 0 <= s < |yTrue| ==> |yTrue[s]| == |m| - 1 && |yPred[s]| == |m| - 1
    ensures forall s :: 0 <= s < |yTrue| && yTrue[s] == yPred[s] ==>
              KlDivergence(exp, log, m, w, yTrue, yPred)[s] == 0.0
  {
    var tRecon := ReconstructAlpha(exp, log, m, w, yTrue);
    var pRecon := ReconstructAlpha(exp, log, m, w, yPred);
    forall s | 0 <= s < |yTrue| && yTrue[s] == yPred[s]
      ensures KlDivergence(exp, log, m, w, yTrue, yPred)[s] == 0.0
    {
      assert tRecon[s] == [tRecon[s][0]] + tRecon[s][1..];
      assert pRecon[s] == [pRecon[s][0]] + pRecon[s][1..];
      KlSampleOfEqual(exp, m, w, tRecon[s]);
    }
  }

  /** Predictions that differ only in entries beyond the clipping bound
      still get different completions: the clipped copy is used for
      `alpha_0` alone. */
  lemma ReconstructKeepsUnclipped(exp: real -> real, log: real -> real, m: seq<seq<real>>, w: seq<real>,
                                  alpha: seq<seq<real>>, s: nat, i: nat)
    requires IsBasis(m, |w|)
    requires forall s :: 0 <= s < |alpha| ==> |alpha[s]| == |m| - 1
    requires s < |alpha| && i < |m| - 1
    ensures ReconstructAlpha(exp, log, m, w, alpha)[s][i + 1] == alpha[s][i]
    ensures alpha[s][i] > ClipMax ==> ReconstructAlpha(exp, log, m, w, alpha)[s][i + 1] != Clip(alpha[s][i])
  {
    var r := ReconstructAlpha(exp, log, m, w, alpha);
    assert r[s][1..][i] == alpha[s][i];
  }
}
