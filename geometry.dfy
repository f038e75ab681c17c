/** The 3-D cross product. Operands that are not both 3-dimensional give
    the zero vector of length 3 rather than an error. */
module Geometry {
  import opened Elementwise
  import opened Reductions
  import opened Vectors

  /** True when both operands are 3-dimensional. */
  predicate BothThreeD(u: seq<real>, v: seq<real>) {
    |u| == 3 && |v| == 3
  }

  /** The 2-by-2 minor `a * d - b * c` that each component is made of. */
  function Minor(a: real, b: real, c: real, d: real): real {
    a * d - b * c
  }

  /** The right-hand-rule cross product, or three zeros outside 3-D. */
  function Cross(u: seq<real>, v: seq<real>): (w: seq<real>)
    ensures |w| == 3
  {
    if !BothThreeD(u, v) then [0.0, 0.0, 0.0]
    else [Minor(u[1], u[2], v[1], v[2]),
          Minor(u[2], u[0], v[2], v[0]),
          Minor(u[0], u[1], v[0], v[1])]
  }

  /** Swapping the operands negates the result. */
  lemma CrossAntiCommutes(u: seq<real>, v: seq<real>)
    ensures Cross(u, v) == Scaled(Cross(v, u), -1.0)
  {
    var w := Cross(u, v);
    var m := Scaled(Cross(v, u), -1.0);
    if BothThreeD(u, v) {
      assert w[0] == m[0] && w[1] == m[1] && w[2] == m[2];
    } else {
      assert w[0] == m[0] && w[1] == m[1] && w[2] == m[2];
    }
  }

  /** A vector crossed with itself gives the zero vector. */
  lemma CrossSelfIsZero(u: seq<real>)
    ensures Cross(u, u) == Zeros(3)
  {
    var w := Cross(u, u);
    assert w[0] == 0.0 && w[1] == 0.0 && w[2] == 0.0;
    AllZeroIsZeros(w);
  }

  /** The cross product of 3-D vectors is orthogonal to its first operand. */
  lemma CrossOrthogonalToLeft(u: seq<real>, v: seq<real>)
    requires BothThreeD(u, v)
    ensures DotProduct(u, Cross(u, v)) == 0.0
  {
    var w := Cross(u, v);
    InnerProductOfThree(u, w);
  }

  /** `cross_product`: a fresh vector of length 3. Outside 3-D it holds
      three zeros; otherwise it starts at zero and each component is
      overwritten through `IndexMut` with the formula. */
  method CrossProduct(u: Vector, v: Vector) returns (result: Vector)
    ensures fresh(result)
    ensures result.data == Cross(u.data, v.data)
    ensures !BothThreeD(u.data, v.data) ==> result.data == Zeros(3)
  {
    var uSize := u.Size();
    var vSize := v.Size();
    if uSize != 3 || vSize != 3 {
      result := new Vector.From([0.0, 0.0, 0.0]);
      assert AllZero(result.data);
      AllZeroIsZeros(result.data);
      return;
    }
    result := new Vector.From([0.0, 0.0, 0.0]);
    // `u[i]` goes through `Index`, which reads `data[i]`.
    result.Set(0, Minor(u.data[1], u.data[2], v.data[1], v.data[2]));
    result.Set(1, Minor(u.data[2], u.data[0], v.data[2], v.data[0]));
    result.Set(2, Minor(u.data[0], u.data[1], v.data[0], v.data[1]));
    assert result.data == Cross(u.data, v.data);
  }
}
