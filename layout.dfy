/** The flat column-major layout of `Matrix<K>` and the linear maps
    computed over it.

    A matrix with `rows` rows and `cols` columns keeps its entries in one
    flat sequence: the entry at row r, column c sits at index
    `c * rows + r`, so each column is a contiguous block of `rows`
    entries and the columns follow one another from left to right. */
module Layout {
  import opened Elementwise
  import opened Reductions

  /** Every row of `arr` has `cols` entries (the `[[K; C]; R]` argument of
      `Matrix::from` is rectangular by its type). */
  predicate Rectangular(arr: seq<seq<real>>, cols: nat) {
    forall r :: 0 <= r < |arr| ==> |arr[r]| == cols
  }

  /** The flat index of (r, c) lies inside a `rows * cols` buffer. */
  lemma FlatIndexInRange(rows: nat, cols: nat, r: nat, c: nat)
    requires r < rows && c < cols
    ensures c * rows + r < rows * cols
  {
    assert c * rows + r < c * rows + rows;
    assert c * rows + rows == (c + 1) * rows;
    assert (c + 1) * rows <= cols * rows;
  }

  /** The entry at row `r`, column `c`: the index that the matrix Display
      and `mul_vec` both read. */
  function At(data: seq<real>, rows: nat, cols: nat, r: nat, c: nat): real
    requires |data| == rows * cols && r < rows && c < cols
  {
    FlatIndexInRange(rows, cols, r, c);
    data[c * rows + r]
  }

  /** Row `r`, read across the columns. */
  function RowOf(data: seq<real>, rows: nat, cols: nat, r: nat): (row: seq<real>)
    requires |data| == rows * cols && r < rows
    ensures |row| == cols
  {
    seq(cols, c requires 0 <= c < cols => At(data, rows, cols, r, c))
  }

  /** Column `c`, read down the rows. */
  function ColOf(data: seq<real>, rows: nat, cols: nat, c: nat): (col: seq<real>)
    requires |data| == rows * cols && c < cols
    ensures |col| == rows
  {
    seq(rows, r requires 0 <= r < rows => At(data, rows, cols, r, c))
  }

  /** The matrix as the grid of rows that Display prints, one row per line. */
  function Grid(data: seq<real>, rows: nat, cols: nat): (g: seq<seq<real>>)
    requires |data| == rows * cols
    ensures |g| == rows && Rectangular(g, cols)
  {
    seq(rows, r requires 0 <= r < rows => RowOf(data, rows, cols, r))
  }

  /** Column `c` of a rectangular grid. */
  function Column(arr: seq<seq<real>>, cols: nat, c: nat): (col: seq<real>)
    requires Rectangular(arr, cols) && c < cols
    ensures |col| == |arr|
  {
    seq(|arr|, r requires 0 <= r < |arr| => arr[r][c])
  }

  /** The first `n` columns of `arr`, one after the other: what the outer
      loop of `Matrix::from` has pushed after `n` rounds. */
  function ColumnsUpTo(arr: seq<seq<real>>, cols: nat, n: nat): seq<real>
    requires Rectangular(arr, cols) && n <= cols
    decreases n
  {
    if n == 0 then [] else ColumnsUpTo(arr, cols, n - 1) + Column(arr, cols, n - 1)
  }

  /** The flat data `Matrix::from` builds from a rectangular grid. */
  function ColumnMajor(arr: seq<seq<real>>, cols: nat): seq<real>
    requires Rectangular(arr, cols)
  {
    ColumnsUpTo(arr, cols, cols)
  }

  /** The first `n` columns hold `n * |arr|` entries. */
  lemma {:induction false} ColumnsUpToLength(arr: seq<seq<real>>, cols: nat, n: nat)
    requires Rectangular(arr, cols) && n <= cols
    ensures |ColumnsUpTo(arr, cols, n)| == n * |arr|
  {
    if n > 0 {
      ColumnsUpToLength(arr, cols, n - 1);
      assert (n - 1) * |arr| + |arr| == n * |arr|;
    }
  }

  /** Entry (r, c) of the first `n` columns sits at `c * |arr| + r`. */
  lemma {:induction false} ColumnsUpToEntry(arr: seq<seq<real>>, cols: nat, n: nat, r: nat, c: nat)
    requires Rectangular(arr, cols) && n <= cols && r < |arr| && c < n
    ensures c * |arr| + r < |ColumnsUpTo(arr, cols, n)|
    ensures ColumnsUpTo(arr, cols, n)[c * |arr| + r] == arr[r][c]
  {
    var rows := |arr|;
    var prev := ColumnsUpTo(arr, cols, n - 1);
    var col := Column(arr, cols, n - 1);
    var idx := c * rows + r;
    ColumnsUpToLength(arr, cols, n - 1);
    if c < n - 1 {
      ColumnsUpToEntry(arr, cols, n - 1, r, c);
      assert (prev + col)[idx] == prev[idx];
    } else {
      assert idx == |prev| + r;
      assert (prev + col)[idx] == col[r];
    }
  }

  /** Construction and reading round-trip: the flat data built from `arr`
      has `|arr| * cols` entries and reading (r, c) at `c * rows + r`
      gives back `arr[r][c]`. */
  lemma ColumnMajorAt(arr: seq<seq<real>>, cols: nat)
    requires Rectangular(arr, cols)
    ensures |ColumnMajor(arr, cols)| == |arr| * cols
    ensures forall r, c :: 0 <= r < |arr| && 0 <= c < cols ==>
      At(ColumnMajor(arr, cols), |arr|, cols, r, c) == arr[r][c]
  {
    ColumnsUpToLength(arr, cols, cols);
    forall r, c | 0 <= r < |arr| && 0 <= c < cols
      ensures At(ColumnMajor(arr, cols), |arr|, cols, r, c) == arr[r][c]
    {
      ColumnsUpToEntry(arr, cols, cols, r, c);
    }
  }

  /** Displaying the matrix built from `arr` shows exactly `arr`. */
  lemma GridOfColumnMajor(arr: seq<seq<real>>, cols: nat)
    requires Rectangular(arr, cols)
    ensures |ColumnMajor(arr, cols)| == |arr| * cols
    ensures Grid(ColumnMajor(arr, cols), |arr|, cols) == arr
  {
    ColumnMajorAt(arr, cols);
    var g := Grid(ColumnMajor(arr, cols), |arr|, cols);
    forall r | 0 <= r < |arr| ensures g[r] == arr[r] {
      assert forall c :: 0 <= c < cols ==> g[r][c] == arr[r][c];
    }
  }

  /** Fewer columns of the same height occupy no more entries. */
  lemma MulLe(n: nat, cols: nat, rows: nat)
    requires n <= cols
    ensures n * rows <= cols * rows
  {
  }

  /** One more column of `rows` entries. */
  lemma MulStep(n: nat, rows: nat)
    requires n > 0
    ensures (n - 1) * rows + rows == n * rows
  {
  }

  lemma {:induction false} ColumnsUpToOfGrid(data: seq<real>, rows: nat, cols: nat, n: nat)
    requires |data| == rows * cols && n <= cols
    ensures n * rows <= |data|
    ensures ColumnsUpTo(Grid(data, rows, cols), cols, n) == data[..n * rows]
  {
    var g := Grid(data, rows, cols);
    MulLe(n, cols, rows);
    if n > 0 {
      ColumnsUpToOfGrid(data, rows, cols, n - 1);
      var lo := (n - 1) * rows;
      var hi := n * rows;
      MulStep(n, rows);
      var col := Column(g, cols, n - 1);
      forall r | 0 <= r < rows ensures col[r] == data[lo + r] {
        assert col[r] == At(data, rows, cols, r, n - 1);
      }
      assert col == data[lo..hi];
      assert data[..hi] == data[..lo] + data[lo..hi];
    }
  }

  /** The other direction of the round trip: rebuilding a matrix from the
      grid it displays gives back the same flat data. */
  lemma ColumnMajorOfGrid(data: seq<real>, rows: nat, cols: nat)
    requires |data| == rows * cols
    ensures ColumnMajor(Grid(data, rows, cols), cols) == data
  {
    ColumnsUpToOfGrid(data, rows, cols, cols);
    assert data[..cols * rows] == data;
  }

  /** Two flat buffers of one shape that agree at every (r, c) are equal. */
  lemma EqualByEntries(d1: seq<real>, d2: seq<real>, rows: nat, cols: nat)
    requires |d1| == rows * cols && |d2| == rows * cols
    requires forall r, c :: 0 <= r < rows && 0 <= c < cols ==>
      At(d1, rows, cols, r, c) == At(d2, rows, cols, r, c)
    ensures d1 == d2
  {
    assert Grid(d1, rows, cols) == Grid(d2, rows, cols) by {
      forall r | 0 <= r < rows
        ensures RowOf(d1, rows, cols, r) == RowOf(d2, rows, cols, r)
      {
        assert forall c :: 0 <= c < cols ==>
          RowOf(d1, rows, cols, r)[c] == RowOf(d2, rows, cols, r)[c];
      }
    }
    ColumnMajorOfGrid(d1, rows, cols);
    ColumnMajorOfGrid(d2, rows, cols);
  }

  /** `mul_vec`: entry r is the dot product of row r with `v`, so it is the
      inner product when `v` has `cols` components and zero otherwise. */
  function MatVec(data: seq<real>, rows: nat, cols: nat, v: seq<real>): (w: seq<real>)
    requires |data| == rows * cols
    ensures |w| == rows
  {
    seq(rows, r requires 0 <= r < rows => DotProduct(RowOf(data, rows, cols, r), v))
  }

  /** A vector of the wrong length is mapped to the all-zero vector, since
      every row's dot product takes its mismatch branch. */
  lemma MatVecMismatch(data: seq<real>, rows: nat, cols: nat, v: seq<real>)
    requires |data| == rows * cols && |v| != cols
    ensures MatVec(data, rows, cols, v) == Zeros(rows)
  {
    assert forall r :: 0 <= r < rows ==> MatVec(data, rows, cols, v)[r] == Zeros(rows)[r];
  }

  /** The matrix acts as a linear map: it preserves sums ... */
  lemma MatVecAdditive(data: seq<real>, rows: nat, cols: nat, u: seq<real>, w: seq<real>)
    requires |data| == rows * cols && |u| == cols && |w| == cols
    ensures MatVec(data, rows, cols, Plus(u, w))
      == Plus(MatVec(data, rows, cols, u), MatVec(data, rows, cols, w))
  {
    forall r | 0 <= r < rows
      ensures MatVec(data, rows, cols, Plus(u, w))[r]
        == MatVec(data, rows, cols, u)[r] + MatVec(data, rows, cols, w)[r]
    {
      InnerProductAddsRight(RowOf(data, rows, cols, r), u, w);
    }
  }

  /** ... and scalar multiples. */
  lemma MatVecHomogeneous(data: seq<real>, rows: nat, cols: nat, u: seq<real>, k: real)
    requires |data| == rows * cols && |u| == cols
    ensures MatVec(data, rows, cols, Scaled(u, k)) == Scaled(MatVec(data, rows, cols, u), k)
  {
    var lhs := MatVec(data, rows, cols, Scaled(u, k));
    var rhs := Scaled(MatVec(data, rows, cols, u), k);
    forall r | 0 <= r < rows ensures lhs[r] == rhs[r] {
      InnerProductScalesRight(RowOf(data, rows, cols, r), u, k);
    }
  }

  /** The n-by-n identity grid. */
  function IdentityRows(n: nat): (g: seq<seq<real>>)
    ensures |g| == n && Rectangular(g, n)
  {
    seq(n, r requires 0 <= r < n => seq(n, c requires 0 <= c < n => if r == c then 1.0 else 0.0))
  }

  /** The inner product with the unit vector along `k` picks out `v[k]`. */
  lemma {:induction false} InnerProductWithUnit(e: seq<real>, v: seq<real>, k: nat)
    requires |e| == |v| && k < |v|
    requires forall i :: 0 <= i < |e| ==> e[i] == if i == k then 1.0 else 0.0
    ensures InnerProduct(e, v) == v[k]
  {
    var n := |e| - 1;
    if k < n {
      InnerProductWithUnit(e[..n], v[..n], k);
    } else {
      var z := e[..n];
      assert z == Zeros(n) by {
        assert forall i :: 0 <= i < n ==> z[i] == Zeros(n)[i];
      }
      InnerProductWithZeros(v[..n]);
      InnerProductCommutes(z, v[..n]);
    }
  }

  /** Row r of the identity matrix in column-major form is the unit vector along r. */
  lemma IdentityRow(n: nat, r: nat)
    requires r < n
    ensures |ColumnMajor(IdentityRows(n), n)| == n * n
    ensures forall c :: 0 <= c < n ==>
      RowOf(ColumnMajor(IdentityRows(n), n), n, n, r)[c] == if r == c then 1.0 else 0.0
  {
    ColumnMajorAt(IdentityRows(n), n);
  }

  /** The identity matrix maps every vector of matching size to itself. */
  lemma IdentityMatVec(n: nat, v: seq<real>)
    requires |v| == n
    ensures |ColumnMajor(IdentityRows(n), n)| == n * n
    ensures MatVec(ColumnMajor(IdentityRows(n), n), n, n, v) == v
  {
    ColumnMajorAt(IdentityRows(n), n);
    var id := ColumnMajor(IdentityRows(n), n);
    forall r | 0 <= r < n ensures MatVec(id, n, n, v)[r] == v[r] {
      IdentityRow(n, r);
      InnerProductWithUnit(RowOf(id, n, n, r), v, r);
    }
  }

  /** The standard matrix product, in column-major layout: the entry at
      (r, c) is the dot product of row r of `a` with column c of `b`. */
  function Product(a: seq<real>, aRows: nat, aCols: nat, b: seq<real>, bRows: nat, bCols: nat): seq<real>
    requires |a| == aRows * aCols && |b| == bRows * bCols
  {
    ColumnMajor(
      seq(aRows, r requires 0 <= r < aRows =>
        seq(bCols, c requires 0 <= c < bCols =>
          DotProduct(RowOf(a, aRows, aCols, r), ColOf(b, bRows, bCols, c)))),
      bCols)
  }

  /** The product has `aRows * bCols` entries, and its (r, c) entry is the
      dot product of row r of `a` with column c of `b`. */
  lemma ProductAt(a: seq<real>, aRows: nat, aCols: nat, b: seq<real>, bRows: nat, bCols: nat)
    requires |a| == aRows * aCols && |b| == bRows * bCols
    ensures |Product(a, aRows, aCols, b, bRows, bCols)| == aRows * bCols
    ensures forall r, c :: 0 <= r < aRows && 0 <= c < bCols ==>
      At(Product(a, aRows, aCols, b, bRows, bCols), aRows, bCols, r, c)
        == DotProduct(RowOf(a, aRows, aCols, r), ColOf(b, bRows, bCols, c))
  {
    var g := seq(aRows, r requires 0 <= r < aRows =>
      seq(bCols, c requires 0 <= c < bCols =>
        DotProduct(RowOf(a, aRows, aCols, r), ColOf(b, bRows, bCols, c))));
    assert Rectangular(g, bCols);
    ColumnMajorAt(g, bCols);
  }

  /** Column c of the product is `a` applied (by `mul_vec`) to column c of `b`. */
  lemma ProductColumn(a: seq<real>, aRows: nat, aCols: nat, b: seq<real>, bRows: nat, bCols: nat, c: nat)
    requires |a| == aRows * aCols && |b| == bRows * bCols && c < bCols
    ensures |Product(a, aRows, aCols, b, bRows, bCols)| == aRows * bCols
    ensures ColOf(Product(a, aRows, aCols, b, bRows, bCols), aRows, bCols, c)
      == MatVec(a, aRows, aCols, ColOf(b, bRows, bCols, c))
  {
    ProductAt(a, aRows, aCols, b, bRows, bCols);
  }

  /** When the inner dimensions differ every entry is a mismatched dot
      product, so the product is all zeros. */
  lemma ProductMismatch(a: seq<real>, aRows: nat, aCols: nat, b: seq<real>, bRows: nat, bCols: nat)
    requires |a| == aRows * aCols && |b| == bRows * bCols && aCols != bRows
    ensures Product(a, aRows, aCols, b, bRows, bCols) == Zeros(aRows * bCols)
  {
    ProductAt(a, aRows, aCols, b, bRows, bCols);
    var p := Product(a, aRows, aCols, b, bRows, bCols);
    forall r, c | 0 <= r < aRows && 0 <= c < bCols
      ensures At(p, aRows, bCols, r, c) == At(Zeros(aRows * bCols), aRows, bCols, r, c)
    {
      FlatIndexInRange(aRows, bCols, r, c);
    }
    EqualByEntries(p, Zeros(aRows * bCols), aRows, bCols);
  }

  /** The identity matrix is a left unit of the product. */
  lemma IdentityLeftUnit(n: nat, b: seq<real>, bCols: nat)
    requires |b| == n * bCols
    ensures |ColumnMajor(IdentityRows(n), n)| == n * n
    ensures Product(ColumnMajor(IdentityRows(n), n), n, n, b, n, bCols) == b
  {
    ColumnMajorAt(IdentityRows(n), n);
    var id := ColumnMajor(IdentityRows(n), n);
    var p := Product(id, n, n, b, n, bCols);
    ProductAt(id, n, n, b, n, bCols);
    forall r, c | 0 <= r < n && 0 <= c < bCols
      ensures At(p, n, bCols, r, c) == At(b, n, bCols, r, c)
    {
      IdentityRow(n, r);
      InnerProductWithUnit(RowOf(id, n, n, r), ColOf(b, n, bCols, c), r);
    }
    EqualByEntries(p, b, n, bCols);
  }
}
