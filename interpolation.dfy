/** Linear interpolation `u + (v - u) * t` for scalars, vectors and
    matrices. The vector and matrix versions clone `v` and then apply
    `sub(u)`, `scl(t)` and `add(u)` to the clone in place. `t` is not
    restricted to [0, 1]. */
module Interpolation {
  import opened Elementwise
  import opened Vectors
  import opened Matrices

  /** Scalar lerp: `u` at t = 0 and `v` at t = 1. */
  function Lerp(u: real, v: real, t: real): (r: real)
    ensures t == 0.0 ==> r == u
    ensures t == 1.0 ==> r == v
  {
    u + (v - u) * t
  }

  lemma MulNonNegative(a: real, b: real)
    requires a >= 0.0 && b >= 0.0
    ensures a * b >= 0.0
  {
  }

  /** For t in [0, 1] the scalar lerp stays between its endpoints, in
      whichever order they come. */
  lemma LerpBetween(u: real, v: real, t: real)
    requires 0.0 <= t <= 1.0
    ensures u <= v ==> u <= Lerp(u, v, t) <= v
    ensures v <= u ==> v <= Lerp(u, v, t) <= u
  {
    if u <= v {
      MulNonNegative(v - u, t);
      MulNonNegative(v - u, 1.0 - t);
      assert (v - u) * (1.0 - t) == (v - u) - (v - u) * t;
    } else {
      MulNonNegative(u - v, t);
      MulNonNegative(u - v, 1.0 - t);
      assert (u - v) * (1.0 - t) == (u - v) - (u - v) * t;
    }
  }

  /** Componentwise lerp over the indices of `v`. */
  function LerpEach(u: seq<real>, v: seq<real>, t: real): (r: seq<real>)
    requires |u| >= |v|
    ensures |r| == |v|
  {
    seq(|v|, i requires 0 <= i < |v| => Lerp(u[i], v[i], t))
  }

  /** At t = 0 the result is (the matching prefix of) `u`; at t = 1 it is `v`. */
  lemma LerpEachEndpoints(u: seq<real>, v: seq<real>)
    requires |u| >= |v|
    ensures LerpEach(u, v, 0.0) == u[..|v|]
    ensures LerpEach(u, v, 1.0) == v
  {
    assert forall i :: 0 <= i < |v| ==> LerpEach(u, v, 0.0)[i] == u[..|v|][i];
    assert forall i :: 0 <= i < |v| ==> LerpEach(u, v, 1.0)[i] == v[i];
  }

  /** The clone / sub / scl / add sequence computes the componentwise lerp. */
  lemma LerpByInPlaceOps(u: seq<real>, v: seq<real>, t: real)
    requires |u| >= |v|
    ensures Plus(Scaled(Minus(v, u), t), u) == LerpEach(u, v, t)
  {
    var ops := Plus(Scaled(Minus(v, u), t), u);
    forall i | 0 <= i < |v| ensures ops[i] == LerpEach(u, v, t)[i] {
      assert ops[i] == (v[i] - u[i]) * t + u[i];
    }
  }

  /** `Lerp for Vector`: a fresh vector with `v`'s length whose component i
      is `Lerp(u[i], v[i], t)`; `u` must cover every index of `v`. */
  method VectorLerp(u: Vector, v: Vector, t: real) returns (res: Vector)
    requires |u.data| >= |v.data|
    ensures fresh(res)
    ensures res.data == LerpEach(u.data, v.data, t)
  {
    res := v.Clone();
    res.Sub(u);
    res.Scl(t);
    res.Add(u);
    LerpByInPlaceOps(u.data, v.data, t);
  }

  /** `Lerp for Matrix`: the same over the flat data; the result has `v`'s
      shape. */
  method MatrixLerp(u: Matrix, v: Matrix, t: real) returns (res: Matrix)
    requires |u.data| >= |v.data|
    ensures fresh(res)
    ensures res.rows == v.rows && res.cols == v.cols
    ensures res.data == LerpEach(u.data, v.data, t)
  {
    res := v.Clone();
    res.Sub(u);
    res.Scl(t);
    res.Add(u);
    LerpByInPlaceOps(u.data, v.data, t);
  }
}
