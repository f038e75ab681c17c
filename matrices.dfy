/** The `Matrix<K>` struct: a flat sequence of scalars in column-major
    order together with its number of rows and columns. Its arithmetic
    methods update the flat data in place and never change the shape. */
module Matrices {
  import opened Elementwise
  import opened Reductions
  import opened Layout
  import opened Vectors

  class Matrix {
    var data: seq<real>
    var rows: nat
    var cols: nat

    /** The flat data holds exactly one entry per (row, column). */
    ghost predicate Valid()
      reads this
    {
      |data| == rows * cols
    }

    /** `Matrix::from`: pushes the entries column by column, each column
        from the top row down, so (r, c) lands at `c * rows + r`. */
    constructor From(arr: seq<seq<real>>, width: nat)
      requires Rectangular(arr, width)
      ensures rows == |arr| && cols == width && Valid()
      ensures data == ColumnMajor(arr, width)
      ensures forall r, c :: 0 <= r < rows && 0 <= c < cols ==> At(data, rows, cols, r, c) == arr[r][c]
    {
      var flat: seq<real> := [];
      var c := 0;
      while c < width
        invariant 0 <= c <= width
        invariant flat == ColumnsUpTo(arr, width, c)
      {
        var r := 0;
        while r < |arr|
          invariant 0 <= r <= |arr|
          invariant flat == ColumnsUpTo(arr, width, c) + Column(arr, width, c)[..r]
        {
          assert Column(arr, width, c)[..r + 1] == Column(arr, width, c)[..r] + [arr[r][c]];
          flat := flat + [arr[r][c]];
          r := r + 1;
        }
        assert Column(arr, width, c)[..r] == Column(arr, width, c);
        c := c + 1;
      }
      ColumnMajorAt(arr, width);
      data, rows, cols := flat, |arr|, width;
    }

    /** The struct literal `Self { data, rows, cols }`. */
    constructor Of(flat: seq<real>, height: nat, width: nat)
      ensures data == flat && rows == height && cols == width
    {
      data, rows, cols := flat, height, width;
    }

    /** The entry at row `r`, column `c`, read at the flat index that the
        Display impl and `mul_vec` use. */
    method Get(r: nat, c: nat) returns (x: real)
      requires Valid() && r < rows && c < cols
      ensures c * rows + r < |data| && x == data[c * rows + r]
    {
      FlatIndexInRange(rows, cols, r, c);
      x := data[c * rows + r];
    }

    /** `clone()`: a fresh matrix with the same data and shape. */
    method Clone() returns (m: Matrix)
      ensures fresh(m) && m.data == data && m.rows == rows && m.cols == cols
    {
      m := new Matrix.Of(data, rows, cols);
    }

    /** `add`, in place over the flat data; the operand's shape is not
        checked, only that its data is long enough for the loop. */
    method Add(v: Matrix)
      requires v != this && |v.data| >= |data|
      modifies this`data
      ensures data == Plus(old(data), v.data)
      ensures unchanged(v)
      ensures rows == old(rows) && cols == old(cols)
    {
      var i := 0;
      while i < |data|
        invariant 0 <= i <= |data| == |old(data)|
        invariant forall k :: 0 <= k < i ==> data[k] == old(data)[k] + v.data[k]
        invariant forall k :: i <= k < |data| ==> data[k] == old(data)[k]
      {
        data := data[i := data[i] + v.data[i]];
        i := i + 1;
      }
    }

    /** `sub`, in place over the flat data. */
    method Sub(v: Matrix)
      requires v != this && |v.data| >= |data|
      modifies this`data
      ensures data == Minus(old(data), v.data)
      ensures unchanged(v)
      ensures rows == old(rows) && cols == old(cols)
    {
      var i := 0;
      while i < |data|
        invariant 0 <= i <= |data| == |old(data)|
        invariant forall k :: 0 <= k < i ==> data[k] == old(data)[k] - v.data[k]
        invariant forall k :: i <= k < |data| ==> data[k] == old(data)[k]
      {
        data := data[i := data[i] - v.data[i]];
        i := i + 1;
      }
    }

    /** `scl(a)`: every entry multiplied by `a`, in place. */
    method Scl(a: real)
      modifies this`data
      ensures data == Scaled(old(data), a)
      ensures rows == old(rows) && cols == old(cols)
    {
      var i := 0;
      while i < |data|
        invariant 0 <= i <= |data| == |old(data)|
        invariant forall k :: 0 <= k < i ==> data[k] == old(data)[k] * a
        invariant forall k :: i <= k < |data| ==> data[k] == old(data)[k]
      {
        data := data[i := data[i] * a];
        i := i + 1;
      }
      assert forall k :: 0 <= k < |data| ==> data[k] == Scaled(old(data), a)[k];
    }

    /** `mul_vec`: for each row, copies the row out of the flat data and
        stores its dot product with `vec`. A `vec` whose length is not
        `cols` makes every dot product zero. */
    method MulVec(vec: Vector) returns (result: Vector)
      requires Valid()
      ensures fresh(result)
      ensures result.data == MatVec(data, rows, cols, vec.data)
      ensures |vec.data| == cols ==> forall r :: 0 <= r < rows ==>
        result.data[r] == InnerProduct(RowOf(data, rows, cols, r), vec.data)
      ensures |vec.data| != cols ==> result.data == Zeros(rows)
    {
      result := new Vector.Zero(rows);
      var r := 0;
      while r < rows
        invariant 0 <= r <= rows
        invariant fresh(result) && |result.data| == rows
        invariant forall i :: 0 <= i < r ==>
          result.data[i] == DotProduct(RowOf(data, rows, cols, i), vec.data)
      {
        var rowVec := new Vector.From([]);
        var c := 0;
        while c < cols
          invariant 0 <= c <= cols && |rowVec.data| == c
          invariant forall k :: 0 <= k < c ==> rowVec.data[k] == At(data, rows, cols, r, k)
          modifies rowVec
        {
          FlatIndexInRange(rows, cols, r, c);
          rowVec.data := rowVec.data + [data[c * rows + r]];
          c := c + 1;
        }
        assert rowVec.data == RowOf(data, rows, cols, r);
        var d := rowVec.Dot(vec);
        result.data := result.data[r := d];
        r := r + 1;
      }
      if |vec.data| != cols {
        MatVecMismatch(data, rows, cols, vec.data);
      }
    }

    /** `mul_mat`, whose body the source leaves empty: the standard product
        in column-major layout, with `rows` rows and `mat.cols` columns;
        entry (r, c) is the dot product of row r with column c of `mat`. */
    method MulMat(mat: Matrix) returns (res: Matrix)
      requires Valid() && mat.Valid()
      ensures fresh(res) && res.rows == rows && res.cols == mat.cols && res.Valid()
      ensures res.data == Product(data, rows, cols, mat.data, mat.rows, mat.cols)
      ensures forall r, c :: 0 <= r < rows && 0 <= c < mat.cols ==>
        At(res.data, res.rows, res.cols, r, c)
          == DotProduct(RowOf(data, rows, cols, r), ColOf(mat.data, mat.rows, mat.cols, c))
    {
      ProductAt(data, rows, cols, mat.data, mat.rows, mat.cols);
      res := new Matrix.Of(Product(data, rows, cols, mat.data, mat.rows, mat.cols), rows, mat.cols);
    }
  }
}
