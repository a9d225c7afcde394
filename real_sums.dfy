/** Real-valued vector helpers shared by the loss and the error metrics:
    absolute value, maximum, dot products, elementwise difference and the
    L1 norm (numpy's `np.linalg.norm(v, ord=1)` on a vector). */
module RealSums {

  function Abs(x: real): (r: real)
    ensures r >= 0.0
    ensures r == x || r == -x
  {
    if x < 0.0 then -x else x
  }

  function Max(a: real, b: real): (r: real)
    ensures r >= a && r >= b
    ensures r == a || r == b
  {
    if a < b then b else a
  }

  /** Sum of elementwise products; `np.tensordot` over one shared axis. */
  function Dot(a: seq<real>, b: seq<real>): real
    requires |a| == |b|
  {
    if |a| == 0 then 0.0 else a[0] * b[0] + Dot(a[1..], b[1..])
  }

  /** Elementwise difference of two equally long vectors. */
  function Sub(a: seq<real>, b: seq<real>): (r: seq<real>)
    requires |a| == |b|
    ensures |r| == |a|
    ensures forall i :: 0 <= i < |a| ==> r[i] == a[i] - b[i]
  {
    seq(|a|, i requires 0 <= i < |a| => a[i] - b[i])
  }

  predicate AllZero(a: seq<real>)
  {
    forall i :: 0 <= i < |a| ==> a[i] == 0.0
  }

  /** The L1 norm: the sum of the absolute values of the entries. */
  function L1(a: seq<real>): (r: real)
    ensures r >= 0.0
  {
    if |a| == 0 then 0.0 else Abs(a[0]) + L1(a[1..])
  }

  /** A vector of zeros has a zero dot product with any vector. */
  lemma {:induction false} DotZeroLeft(a: seq<real>, b: seq<real>)
    requires |a| == |b|
    requires AllZero(a)
    ensures Dot(a, b) == 0.0
  {
    if |a| > 0 {
      DotZeroLeft(a[1..], b[1..]);
    }
  }

  /** The L1 norm vanishes exactly on the zero vector. */
  lemma {:induction false} L1ZeroIff(a: seq<real>)
    ensures L1(a) == 0.0 <==> AllZero(a)
  {
    if |a| > 0 {
      L1ZeroIff(a[1..]);
      if AllZero(a) {
        assert AllZero(a[1..]);
      }
      if AllZero(a[1..]) && a[0] == 0.0 {
        forall i | 0 <= i < |a| ensures a[i] == 0.0 {
          if i > 0 { assert a[i] == a[1..][i - 1]; }
        }
      }
    }
  }

  /** Triangle inequality for the L1 distance. */
  lemma {:induction false} L1SubTriangle(a: seq<real>, b: seq<real>)
    requires |a| == |b|
    ensures L1(Sub(a, b)) <= L1(a) + L1(b)
  {
    if |a| > 0 {
      L1SubTriangle(a[1..], b[1..]);
      assert Sub(a, b)[1..] == Sub(a[1..], b[1..]);
    }
  }

  /** The L1 distance does not depend on the order of its arguments. */
  lemma {:induction false} L1SubSymmetric(a: seq<real>, b: seq<real>)
    requires |a| == |b|
    ensures L1(Sub(a, b)) == L1(Sub(b, a))
  {
    if |a| > 0 {
      L1SubSymmetric(a[1..], b[1..]);
      assert Sub(a, b)[1..] == Sub(a[1..], b[1..]);
      assert Sub(b, a)[1..] == Sub(b[1..], a[1..]);
    }
  }

  /** The L1 distance of two vectors is zero exactly when they are equal. */
  lemma L1SubZeroIff(a: seq<real>, b: seq<real>)
    requires |a| == |b|
    ensures L1(Sub(a, b)) == 0.0 <==> a == b
  {
    L1ZeroIff(Sub(a, b));
    if AllZero(Sub(a, b)) {
      assert forall i :: 0 <= i < |a| ==> a[i] == b[i] by {
        forall i | 0 <= i < |a| ensures a[i] == b[i] {
          assert Sub(a, b)[i] == 0.0;
        }
      }
    }
  }

  /** A vector that is zero except at one index has that entry's absolute
      value as its L1 norm. */
  lemma {:induction false} L1SingleEntry(a: seq<real>, k: nat)
    requires k < |a|
    requires forall i :: 0 <= i < |a| && i != k ==> a[i] == 0.0
    ensures L1(a) == Abs(a[k])
  {
    if k == 0 {
      L1ZeroIff(a[1..]);
    } else {
      L1SingleEntry(a[1..], k - 1);
    }
  }
}
