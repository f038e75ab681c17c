/** Reductions of vectors to one scalar: the dot product, the Manhattan
    norm and the sum of squares under the Euclidean norm.

    Each is defined over a prefix that grows by one component at a
    time, the same order in which the accumulator loops add them up. */
module Reductions {
  import opened Elementwise

  /** Sum of u[i] * v[i] over all i, for operands of one length. */
  function InnerProduct(u: seq<real>, v: seq<real>): real
    requires |u| == |v|
    decreases |u|
  {
    if |u| == 0 then 0.0
    else InnerProduct(u[..|u| - 1], v[..|v| - 1]) + u[|u| - 1] * v[|v| - 1]
  }

  /** What `Vector::dot` returns: zero when the lengths differ, the inner
      product otherwise. */
  function DotProduct(u: seq<real>, v: seq<real>): real {
    if |u| != |v| then 0.0 else InnerProduct(u, v)
  }

  function Abs(x: real): (r: real)
    ensures r >= 0.0
    ensures r == x || r == -x
  {
    if x < 0.0 then -x else x
  }

  /** Sum of |s[i]| over all i. */
  function SumAbs(s: seq<real>): real
    decreases |s|
  {
    if |s| == 0 then 0.0 else SumAbs(s[..|s| - 1]) + Abs(s[|s| - 1])
  }

  /** Sum of s[i]^2 over all i. */
  function SumSquares(s: seq<real>): real
    decreases |s|
  {
    if |s| == 0 then 0.0 else SumSquares(s[..|s| - 1]) + s[|s| - 1] * s[|s| - 1]
  }

  /** The inner product of two 2-component vectors, written out. */
  lemma InnerProductOfTwo(u: seq<real>, v: seq<real>)
    requires |u| == 2 && |v| == 2
    ensures InnerProduct(u, v) == u[0] * v[0] + u[1] * v[1]
  {
    var u1, v1 := u[..1], v[..1];
    assert InnerProduct(u, v) == InnerProduct(u1, v1) + u[1] * v[1];
    assert InnerProduct(u1, v1) == InnerProduct(u1[..0], v1[..0]) + u[0] * v[0];
  }

  /** The inner product of two 3-component vectors, written out. */
  lemma InnerProductOfThree(u: seq<real>, v: seq<real>)
    requires |u| == 3 && |v| == 3
    ensures InnerProduct(u, v) == u[0] * v[0] + u[1] * v[1] + u[2] * v[2]
  {
    var u2, v2 := u[..2], v[..2];
    assert InnerProduct(u, v) == InnerProduct(u2, v2) + u[2] * v[2];
    InnerProductOfTwo(u2, v2);
  }

  lemma {:induction false} InnerProductCommutes(u: seq<real>, v: seq<real>)
    requires |u| == |v|
    ensures InnerProduct(u, v) == InnerProduct(v, u)
  {
    if |u| > 0 {
      InnerProductCommutes(u[..|u| - 1], v[..|v| - 1]);
    }
  }

  /** The dot product is symmetric for every pair of vectors, matched or not. */
  lemma DotProductCommutes(u: seq<real>, v: seq<real>)
    ensures DotProduct(u, v) == DotProduct(v, u)
  {
    if |u| == |v| {
      InnerProductCommutes(u, v);
    }
  }

  /** The inner product distributes over componentwise addition. */
  lemma {:induction false} InnerProductAddsRight(u: seq<real>, v: seq<real>, w: seq<real>)
    requires |u| == |v| == |w|
    ensures InnerProduct(u, Plus(v, w)) == InnerProduct(u, v) + InnerProduct(u, w)
  {
    if |u| > 0 {
      var n := |u| - 1;
      assert Plus(v, w)[..n] == Plus(v[..n], w[..n]);
      InnerProductAddsRight(u[..n], v[..n], w[..n]);
    }
  }

  /** The inner product pulls a scalar factor out of its right operand. */
  lemma {:induction false} InnerProductScalesRight(u: seq<real>, v: seq<real>, k: real)
    requires |u| == |v|
    ensures InnerProduct(u, Scaled(v, k)) == InnerProduct(u, v) * k
  {
    if |u| > 0 {
      var n := |u| - 1;
      assert Scaled(v, k)[..n] == Scaled(v[..n], k) by {
        assert forall i :: 0 <= i < n ==> Scaled(v, k)[i] == Scaled(v[..n], k)[i];
      }
      InnerProductScalesRight(u[..n], v[..n], k);
    }
  }

  /** Against a zero vector the inner product vanishes. */
  lemma {:induction false} InnerProductWithZeros(u: seq<real>)
    ensures InnerProduct(u, Zeros(|u|)) == 0.0
  {
    if |u| > 0 {
      assert Zeros(|u|)[..|u| - 1] == Zeros(|u| - 1);
      InnerProductWithZeros(u[..|u| - 1]);
    }
  }

  lemma {:induction false} SumAbsNonNegative(s: seq<real>)
    ensures SumAbs(s) >= 0.0
  {
    if |s| > 0 {
      SumAbsNonNegative(s[..|s| - 1]);
    }
  }

  /** The Manhattan norm is zero exactly for the all-zero vector
      (the empty vector included). */
  lemma {:induction false} SumAbsZeroIff(s: seq<real>)
    ensures SumAbs(s) == 0.0 <==> AllZero(s)
  {
    if |s| > 0 {
      var p := s[..|s| - 1];
      SumAbsZeroIff(p);
      SumAbsNonNegative(p);
      assert AllZero(s) <==> AllZero(p) && s[|s| - 1] == 0.0 by {
        assert forall i :: 0 <= i < |p| ==> p[i] == s[i];
      }
    }
  }

  lemma {:induction false} SumSquaresNonNegative(s: seq<real>)
    ensures SumSquares(s) >= 0.0
  {
    if |s| > 0 {
      SumSquaresNonNegative(s[..|s| - 1]);
    }
  }

  /** The sum of squares of an all-zero vector (the empty one included) is zero. */
  lemma {:induction false} SumSquaresOfZeroVector(s: seq<real>)
    requires AllZero(s)
    ensures SumSquares(s) == 0.0
  {
    if |s| > 0 {
      var p := s[..|s| - 1];
      assert AllZero(p) by {
        assert forall i :: 0 <= i < |p| ==> p[i] == s[i];
      }
      SumSquaresOfZeroVector(p);
    }
  }

  /** A vector's dot product with itself is its sum of squares, so the
      square of the Euclidean norm is dot(v, v). */
  lemma {:induction false} SelfDotIsSumSquares(s: seq<real>)
    ensures DotProduct(s, s) == SumSquares(s)
  {
    if |s| > 0 {
      SelfDotIsSumSquares(s[..|s| - 1]);
    }
  }
}
