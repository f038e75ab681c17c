/** The computations each snapshot's `main` performs, with the values it
    prints (or, for `mul_mat`, the values its commented-out calls expect). */
module Examples {
  import opened Elementwise
  import opened Reductions
  import opened Layout
  import opened Vectors
  import opened Matrices
  import opened Combination
  import opened Interpolation
  import opened Geometry

  /** ex01: combining the unit vectors, then two general vectors. */
  method LinearCombinationExamples() returns (sum: seq<real>, sum2: seq<real>)
    ensures sum == [10.0, -2.0, 0.5]
    ensures sum2 == [10.0, 0.0, 230.0]
  {
    var e1 := new Vector.From([1.0, 0.0, 0.0]);
    var e2 := new Vector.From([0.0, 1.0, 0.0]);
    var e3 := new Vector.From([0.0, 0.0, 1.0]);
    var r := LinearCombination([e1, e2, e3], [10.0, -2.0, 0.5]);
    var id := IdentityRows(3);
    assert id == [[1.0, 0.0, 0.0], [0.0, 1.0, 0.0], [0.0, 0.0, 1.0]] by {
      assert id[0] == [1.0, 0.0, 0.0] by { assert id[0][0] == 1.0 && id[0][1] == 0.0 && id[0][2] == 0.0; }
      assert id[1] == [0.0, 1.0, 0.0] by { assert id[1][0] == 0.0 && id[1][1] == 1.0 && id[1][2] == 0.0; }
      assert id[2] == [0.0, 0.0, 1.0] by { assert id[2][0] == 0.0 && id[2][1] == 0.0 && id[2][2] == 1.0; }
    }
    assert Contents([e1, e2, e3]) == id;
    CombineOfBasis([10.0, -2.0, 0.5]);
    sum := r.data;
    var v1 := new Vector.From([1.0, 2.0, 3.0]);
    var v2 := new Vector.From([0.0, 10.0, -100.0]);
    var r2 := LinearCombination([v1, v2], [10.0, -2.0]);
    assert Contents([v1, v2]) == [[1.0, 2.0, 3.0], [0.0, 10.0, -100.0]];
    CombineTwo([1.0, 2.0, 3.0], [0.0, 10.0, -100.0], 10.0, -2.0);
    sum2 := r2.data;
  }

  /** ex02, scalars. */
  method ScalarLerpExamples() returns (a: real, b: real, c: real, d: real)
    ensures a == 0.0 && b == 1.0 && c == 0.5 && d == 27.3
  {
    a := Lerp(0.0, 1.0, 0.0);
    b := Lerp(0.0, 1.0, 1.0);
    c := Lerp(0.0, 1.0, 0.5);
    d := Lerp(21.0, 42.0, 0.3);
  }

  /** ex02, vectors. */
  method VectorLerpExample() returns (w: seq<real>)
    ensures w == [2.6, 1.3]
  {
    var u := new Vector.From([2.0, 1.0]);
    var v := new Vector.From([4.0, 2.0]);
    var r := VectorLerp(u, v, 0.3);
    w := r.data;
    assert w[0] == Lerp(2.0, 4.0, 0.3) && w[1] == Lerp(1.0, 2.0, 0.3);
  }

  /** ex02, matrices: the flat column-major data of [[11, 5.5], [16.5, 22]]. */
  method MatrixLerpExample() returns (w: seq<real>)
    ensures w == [11.0, 16.5, 5.5, 22.0]
  {
    var u := new Matrix.From([[2.0, 1.0], [3.0, 4.0]], 2);
    var v := new Matrix.From([[20.0, 10.0], [30.0, 40.0]], 2);
    assert u.data == [2.0, 3.0, 1.0, 4.0] by {
      assert At(u.data, 2, 2, 0, 0) == 2.0 && At(u.data, 2, 2, 1, 0) == 3.0;
      assert At(u.data, 2, 2, 0, 1) == 1.0 && At(u.data, 2, 2, 1, 1) == 4.0;
    }
    assert v.data == [20.0, 30.0, 10.0, 40.0] by {
      assert At(v.data, 2, 2, 0, 0) == 20.0 && At(v.data, 2, 2, 1, 0) == 30.0;
      assert At(v.data, 2, 2, 0, 1) == 10.0 && At(v.data, 2, 2, 1, 1) == 40.0;
    }
    var r := MatrixLerp(u, v, 0.5);
    w := r.data;
    assert w[0] == Lerp(2.0, 20.0, 0.5) && w[1] == Lerp(3.0, 30.0, 0.5);
    assert w[2] == Lerp(1.0, 10.0, 0.5) && w[3] == Lerp(4.0, 40.0, 0.5);
  }

  /** ex03: mismatched lengths give zero. */
  method DotExamples() returns (a: real, b: real, c: real)
    ensures a == 0.0 && b == 2.0 && c == 9.0
  {
    var u := new Vector.From([0.0, 0.0, 100.0]);
    var v := new Vector.From([1.0, 1.0]);
    a := u.Dot(v);
    u := new Vector.From([1.0, 1.0]);
    v := new Vector.From([1.0, 1.0]);
    b := u.Dot(v);
    InnerProductOfTwo([1.0, 1.0], [1.0, 1.0]);
    u := new Vector.From([-1.0, 6.0]);
    v := new Vector.From([3.0, 2.0]);
    c := u.Dot(v);
    InnerProductOfTwo([-1.0, 6.0], [3.0, 2.0]);
  }

  /** ex04: the taxicab norms. */
  method Norm1Examples() returns (a: real, b: real, c: real)
    ensures a == 0.0 && b == 6.0 && c == 3.0
  {
    var u := new Vector.From([0.0, 0.0, 0.0]);
    a := u.Norm1();
    assert [0.0, 0.0, 0.0][..2] == [0.0, 0.0] && [0.0, 0.0][..1] == [0.0];
    u := new Vector.From([1.0, 2.0, 3.0]);
    b := u.Norm1();
    assert [1.0, 2.0, 3.0][..2] == [1.0, 2.0] && [1.0, 2.0][..1] == [1.0];
    u := new Vector.From([-1.0, -2.0]);
    c := u.Norm1();
    assert [-1.0, -2.0][..1] == [-1.0];
  }

  /** The accumulator of `norm` (ex05/main.rs:63-67) for [1, 2, 3]: 14, the
      square of the 3.74165738 expected at ex04/main.rs:56. */
  method NormSquaredExample() returns (a: real)
    ensures a == 14.0
  {
    var u := new Vector.From([1.0, 2.0, 3.0]);
    a := u.NormSquared();
    assert [1.0, 2.0, 3.0][..2] == [1.0, 2.0] && [1.0, 2.0][..1] == [1.0];
  }

  /** ex06: three cross products. */
  method CrossExamples() returns (a: seq<real>, b: seq<real>, c: seq<real>)
    ensures a == [0.0, 1.0, 0.0]
    ensures b == [-3.0, 6.0, -3.0]
    ensures c == [17.0, -58.0, -16.0]
  {
    var u := new Vector.From([0.0, 0.0, 1.0]);
    var v := new Vector.From([1.0, 0.0, 0.0]);
    var r := CrossProduct(u, v);
    a := r.data;
    u := new Vector.From([1.0, 2.0, 3.0]);
    v := new Vector.From([4.0, 5.0, 6.0]);
    r := CrossProduct(u, v);
    b := r.data;
    u := new Vector.From([4.0, 2.0, -3.0]);
    v := new Vector.From([-2.0, -5.0, 16.0]);
    r := CrossProduct(u, v);
    c := r.data;
  }

  /** A 2-by-2 grid `[[a, b], [c, d]]` is stored as `[a, c, b, d]`. */
  lemma ColumnMajorTwoByTwo(a: real, b: real, c: real, d: real)
    ensures ColumnMajor([[a, b], [c, d]], 2) == [a, c, b, d]
  {
    var arr := [[a, b], [c, d]];
    ColumnMajorAt(arr, 2);
    var m := ColumnMajor(arr, 2);
    assert m[0] == At(m, 2, 2, 0, 0) && m[1] == At(m, 2, 2, 1, 0);
    assert m[2] == At(m, 2, 2, 0, 1) && m[3] == At(m, 2, 2, 1, 1);
  }

  /** `mul_vec` on a 2-by-2 matrix stored as `[a, c, b, d]`. */
  lemma MatVecTwoByTwo(a: real, b: real, c: real, d: real, x: real, y: real)
    ensures MatVec([a, c, b, d], 2, 2, [x, y]) == [a * x + b * y, c * x + d * y]
  {
    var m := [a, c, b, d];
    assert RowOf(m, 2, 2, 0) == [a, b];
    assert RowOf(m, 2, 2, 1) == [c, d];
    InnerProductOfTwo([a, b], [x, y]);
    InnerProductOfTwo([c, d], [x, y]);
    var w := MatVec(m, 2, 2, [x, y]);
    assert w[0] == InnerProduct([a, b], [x, y]);
    assert w[1] == InnerProduct([c, d], [x, y]);
    assert w[0] == a * x + b * y;
    assert w[1] == c * x + d * y;
    assert |w| == 2;
  }

  /** `mul_mat` of two 2-by-2 matrices, `[[a, b], [c, d]]` times
      `[[e, f], [g, h]]`, in column-major form. */
  lemma ProductTwoByTwo(a: real, b: real, c: real, d: real, e: real, f: real, g: real, h: real)
    ensures Product([a, c, b, d], 2, 2, [e, g, f, h], 2, 2)
      == [a * e + b * g, c * e + d * g, a * f + b * h, c * f + d * h]
  {
    var x := [a, c, b, d];
    var y := [e, g, f, h];
    ProductAt(x, 2, 2, y, 2, 2);
    var p := Product(x, 2, 2, y, 2, 2);
    assert RowOf(x, 2, 2, 0) == [a, b] && RowOf(x, 2, 2, 1) == [c, d];
    assert ColOf(y, 2, 2, 0) == [e, g] && ColOf(y, 2, 2, 1) == [f, h];
    InnerProductOfTwo([a, b], [e, g]);
    InnerProductOfTwo([c, d], [e, g]);
    InnerProductOfTwo([a, b], [f, h]);
    InnerProductOfTwo([c, d], [f, h]);
    assert p[0] == At(p, 2, 2, 0, 0) == InnerProduct([a, b], [e, g]);
    assert p[1] == At(p, 2, 2, 1, 0) == InnerProduct([c, d], [e, g]);
    assert p[2] == At(p, 2, 2, 0, 1) == InnerProduct([a, b], [f, h]);
    assert p[3] == At(p, 2, 2, 1, 1) == InnerProduct([c, d], [f, h]);
    assert p[0] == a * e + b * g && p[1] == c * e + d * g;
    assert p[2] == a * f + b * h && p[3] == c * f + d * h;
  }

  /** ex07, `mul_vec`: the identity, twice the identity and [[2, -2], [-2, 2]]
      applied to [4, 2]. */
  method MulVecExamples() returns (a: seq<real>, b: seq<real>, c: seq<real>)
    ensures a == [4.0, 2.0]
    ensures b == [8.0, 4.0]
    ensures c == [4.0, -4.0]
  {
    var v := new Vector.From([4.0, 2.0]);
    var u := new Matrix.From([[1.0, 0.0], [0.0, 1.0]], 2);
    ColumnMajorTwoByTwo(1.0, 0.0, 0.0, 1.0);
    MatVecTwoByTwo(1.0, 0.0, 0.0, 1.0, 4.0, 2.0);
    var r := u.MulVec(v);
    a := r.data;
    u := new Matrix.From([[2.0, 0.0], [0.0, 2.0]], 2);
    ColumnMajorTwoByTwo(2.0, 0.0, 0.0, 2.0);
    MatVecTwoByTwo(2.0, 0.0, 0.0, 2.0, 4.0, 2.0);
    r := u.MulVec(v);
    b := r.data;
    u := new Matrix.From([[2.0, -2.0], [-2.0, 2.0]], 2);
    ColumnMajorTwoByTwo(2.0, -2.0, -2.0, 2.0);
    MatVecTwoByTwo(2.0, -2.0, -2.0, 2.0, 4.0, 2.0);
    r := u.MulVec(v);
    c := r.data;
  }

  /** ex07, `mul_mat`: the products the commented-out calls expect, as flat
      column-major data: I * I = I, I * [[2, 1], [4, 2]] = [[2, 1], [4, 2]]
      and [[3, -5], [6, 8]] * [[2, 1], [4, 2]] = [[-14, -7], [44, 22]]. */
  method MulMatExamples() returns (a: seq<real>, b: seq<real>, c: seq<real>)
    ensures a == [1.0, 0.0, 0.0, 1.0]
    ensures b == [2.0, 4.0, 1.0, 2.0]
    ensures c == [-14.0, 44.0, -7.0, 22.0]
  {
    var id := new Matrix.From([[1.0, 0.0], [0.0, 1.0]], 2);
    var id2 := new Matrix.From([[1.0, 0.0], [0.0, 1.0]], 2);
    var m := new Matrix.From([[2.0, 1.0], [4.0, 2.0]], 2);
    var n := new Matrix.From([[3.0, -5.0], [6.0, 8.0]], 2);
    ColumnMajorTwoByTwo(1.0, 0.0, 0.0, 1.0);
    ColumnMajorTwoByTwo(2.0, 1.0, 4.0, 2.0);
    ColumnMajorTwoByTwo(3.0, -5.0, 6.0, 8.0);
    ProductTwoByTwo(1.0, 0.0, 0.0, 1.0, 1.0, 0.0, 0.0, 1.0);
    ProductTwoByTwo(1.0, 0.0, 0.0, 1.0, 2.0, 1.0, 4.0, 2.0);
    ProductTwoByTwo(3.0, -5.0, 6.0, 8.0, 2.0, 1.0, 4.0, 2.0);
    var r := id.MulMat(id2);
    a := r.data;
    r := id.MulMat(m);
    b := r.data;
    r := n.MulMat(m);
    c := r.data;
  }
}
