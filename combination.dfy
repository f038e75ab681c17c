/** `linear_combination`: the sum of `coefs[k]` times vector k, computed
    in one accumulator that each vector in turn is fused into with a
    multiply-add. */
module Combination {
  import opened Elementwise
  import opened Reductions
  import opened Layout
  import opened Vectors

  /** Every one of the first `n` vectors has a component at index `i`. */
  predicate CoversIndex(vs: seq<seq<real>>, n: nat, i: nat)
    requires n <= |vs|
  {
    forall k :: 0 <= k < n ==> i < |vs[k]|
  }

  /** Component `i` of the accumulator once the first `n` vectors have been
      fused in: each round adds `vs[k][i] * coefs[k]` to what was there. */
  function PartialSum(vs: seq<seq<real>>, coefs: seq<real>, n: nat, i: nat): real
    requires n <= |vs| && n <= |coefs| && CoversIndex(vs, n, i)
    decreases n
  {
    if n == 0 then 0.0
    else vs[n - 1][i] * coefs[n - 1] + PartialSum(vs, coefs, n - 1, i)
  }

  /** The accumulator after the first `n` rounds, over indices `0 .. size`. */
  function Partial(vs: seq<seq<real>>, coefs: seq<real>, n: nat, size: nat): (w: seq<real>)
    requires n <= |vs| && n <= |coefs|
    requires forall i :: 0 <= i < size ==> CoversIndex(vs, n, i)
    ensures |w| == size
  {
    seq(size, i requires 0 <= i < size => PartialSum(vs, coefs, n, i))
  }

  /** The whole linear combination over the first `size` components. */
  function Combine(vs: seq<seq<real>>, coefs: seq<real>, size: nat): (w: seq<real>)
    requires |vs| == |coefs|
    requires forall i :: 0 <= i < size ==> CoversIndex(vs, |vs|, i)
    ensures |w| == size
  {
    Partial(vs, coefs, |vs|, size)
  }

  /** The components of each vector of `us`, in order. */
  function Contents(us: seq<Vector>): (vs: seq<seq<real>>)
    reads us
    ensures |vs| == |us|
  {
    seq(|us|, k requires 0 <= k < |us| reads us => us[k].data)
  }

  /** The coefficients of a single vector scale it. */
  lemma CombineOne(v: seq<real>, a: real)
    ensures Combine([v], [a], |v|) == Scaled(v, a)
  {
    var w := Combine([v], [a], |v|);
    forall i | 0 <= i < |v| ensures w[i] == Scaled(v, a)[i] {
      assert PartialSum([v], [a], 0, i) == 0.0;
      assert w[i] == v[i] * a + PartialSum([v], [a], 0, i);
    }
  }

  /** Two vectors: the sum of the two scaled vectors. */
  lemma CombineTwo(u: seq<real>, v: seq<real>, a: real, b: real)
    requires |u| == |v|
    ensures Combine([u, v], [a, b], |u|) == Plus(Scaled(u, a), Scaled(v, b))
  {
    var w := Combine([u, v], [a, b], |u|);
    forall i | 0 <= i < |u| ensures w[i] == Plus(Scaled(u, a), Scaled(v, b))[i] {
      assert PartialSum([u, v], [a, b], 1, i) == u[i] * a + 0.0;
      assert w[i] == v[i] * b + PartialSum([u, v], [a, b], 1, i);
    }
  }

  /** Zero coefficients give the zero vector. */
  lemma {:induction false} PartialSumOfZeroCoefs(vs: seq<seq<real>>, coefs: seq<real>, n: nat, i: nat)
    requires n <= |vs| && n <= |coefs| && CoversIndex(vs, n, i) && AllZero(coefs)
    ensures PartialSum(vs, coefs, n, i) == 0.0
  {
    if n > 0 {
      PartialSumOfZeroCoefs(vs, coefs, n - 1, i);
      assert coefs[n - 1] == 0.0;
    }
  }

  lemma CombineOfZeroCoefs(vs: seq<seq<real>>, coefs: seq<real>, size: nat)
    requires |vs| == |coefs| && AllZero(coefs)
    requires forall i :: 0 <= i < size ==> CoversIndex(vs, |vs|, i)
    ensures Combine(vs, coefs, size) == Zeros(size)
  {
    forall i | 0 <= i < size ensures Combine(vs, coefs, size)[i] == Zeros(size)[i] {
      PartialSumOfZeroCoefs(vs, coefs, |vs|, i);
    }
  }

  /** Component i of the combination is the inner product of the
      coefficients with the i-th components of the vectors. */
  lemma {:induction false} PartialSumIsInnerProduct(vs: seq<seq<real>>, coefs: seq<real>, n: nat, i: nat, u: seq<real>)
    requires n <= |vs| && n <= |coefs| && CoversIndex(vs, n, i)
    requires |u| == n && forall k :: 0 <= k < n ==> u[k] == vs[k][i]
    ensures InnerProduct(u, coefs[..n]) == PartialSum(vs, coefs, n, i)
  {
    if n > 0 {
      assert coefs[..n][..n - 1] == coefs[..n - 1];
      PartialSumIsInnerProduct(vs, coefs, n - 1, i, u[..n - 1]);
    }
  }

  /** A matrix whose columns are the vectors maps the coefficients, by
      `mul_vec`, to their linear combination. */
  lemma CombineIsMatVec(vs: seq<seq<real>>, coefs: seq<real>, size: nat, data: seq<real>)
    requires |vs| == |coefs| && |data| == size * |vs|
    requires forall k :: 0 <= k < |vs| ==> ColOf(data, size, |vs|, k) == vs[k]
    ensures forall i :: 0 <= i < size ==> CoversIndex(vs, |vs|, i)
    ensures MatVec(data, size, |vs|, coefs) == Combine(vs, coefs, size)
  {
    var n := |vs|;
    assert forall i :: 0 <= i < size ==> CoversIndex(vs, n, i) by {
      forall k | 0 <= k < n ensures |vs[k]| == size {
        assert |ColOf(data, size, n, k)| == size;
      }
    }
    forall i | 0 <= i < size
      ensures MatVec(data, size, n, coefs)[i] == Combine(vs, coefs, size)[i]
    {
      var row := RowOf(data, size, n, i);
      forall k | 0 <= k < n ensures row[k] == vs[k][i] {
        assert ColOf(data, size, n, k)[i] == At(data, size, n, i, k);
      }
      assert coefs[..n] == coefs;
      PartialSumIsInnerProduct(vs, coefs, n, i, row);
    }
  }

  /** The basis combination of the example: combining the unit vectors
      with `coefs` gives back `coefs`. */
  lemma CombineOfBasis(coefs: seq<real>)
    ensures forall i :: 0 <= i < |coefs| ==> CoversIndex(IdentityRows(|coefs|), |coefs|, i)
    ensures Combine(IdentityRows(|coefs|), coefs, |coefs|) == coefs
  {
    var n := |coefs|;
    var e := IdentityRows(n);
    ColumnMajorAt(e, n);
    var id := ColumnMajor(e, n);
    forall k | 0 <= k < n ensures ColOf(id, n, n, k) == e[k] {
      assert forall r :: 0 <= r < n ==> ColOf(id, n, n, k)[r] == e[k][r];
    }
    CombineIsMatVec(e, coefs, n, id);
    IdentityMatVec(n, coefs);
  }

  /** `linear_combination`: the lengths of `us` and `coefs` must agree
      (the `assert!`), and every vector must reach the length of the first
      one (the loop indexes them up to it). An empty list gives the empty
      vector `Vector::zero(0)`. */
  method LinearCombination(us: seq<Vector>, coefs: seq<real>) returns (result: Vector)
    requires |us| == |coefs|
    requires forall k :: 0 <= k < |us| ==> |us[k].data| >= |us[0].data|
    ensures fresh(result)
    ensures |us| == 0 ==> result.data == []
    ensures |us| > 0 ==>
      (forall i :: 0 <= i < |us[0].data| ==> CoversIndex(Contents(us), |us|, i)) &&
      result.data == Combine(Contents(us), coefs, |us[0].data|)
  {
    if |us| == 0 {
      result := new Vector.Zero(0);
      return;
    }
    ghost var vs := Contents(us);
    var size := us[0].Size();
    assert forall i :: 0 <= i < size ==> CoversIndex(vs, |us|, i);
    result := new Vector.Zero(size);
    assert result.data == Partial(vs, coefs, 0, size);
    var k := 0;
    while k < |us|
      invariant 0 <= k <= |us|
      invariant fresh(result) && |result.data| == size
      invariant result.data == Partial(vs, coefs, k, size)
    {
      var vec := us[k];
      var coef := coefs[k];
      var i := 0;
      while i < size
        invariant 0 <= i <= size && |result.data| == size
        invariant forall j :: 0 <= j < i ==> result.data[j] == PartialSum(vs, coefs, k + 1, j)
        invariant forall j :: i <= j < size ==> result.data[j] == PartialSum(vs, coefs, k, j)
        modifies result
      {
        result.data := result.data[i := vec.data[i] * coef + result.data[i]];
        i := i + 1;
      }
      k := k + 1;
    }
  }
}
