# Dense linear algebra kernel: a verified model

This project models, in Dafny, the core of a small dense linear-algebra
kernel that was written as a series of exercise snapshots (`ex01` to
`ex07`). They share one `Vector<K>` (a growable sequence of scalars) and
one `Matrix<K>` (a flat sequence of scalars with `rows` and `cols`), and
they define these operations over them:

- in-place `add`, `sub` and `scl` on vectors and matrices;
- linear interpolation `u + (v - u) * t` for scalars, vectors and matrices;
- the `dot` product;
- `linear_combination`;
- the taxicab norm `norm_1` and the sum of squares accumulated inside `norm`;
- the 3-D `cross_product`;
- the matrix–vector product `mul_vec` and the matrix product `mul_mat`.

The scalar type is modelled as Dafny `real`, so every contract is exact
algebra. `Vector` and `Matrix` are classes whose `data` field the methods
update in place, as the Rust methods taking `&mut self` do. Each method is
proved against a pure specification function:

| operation | specification function |
|---|---|
| `add` | `Plus` |
| `sub` | `Minus` |
| `scl` | `Scaled` |
| `dot` | `InnerProduct` / `DotProduct` |
| `norm_1` | `SumAbs` |
| the sum of squares in `norm` | `SumSquares` |
| `cross_product` | `Cross` |
| `linear_combination` | `Combine` |
| `mul_vec` | `MatVec` (defined through `DotProduct`) |
| `mul_mat` | `Product` |
| `Matrix::from` | `ColumnMajor` |

The helper functions `Plus`, `Minus`, `Scaled`, `Zeros` and `Column` are
definitions only. What they compute is stated in the contracts of the
methods that use them, listed below. Lemmas then state what the
specification functions promise: round trips, linearity,
identities, and the concrete results each snapshot's `main` prints.

Modules, one per file:

- `Elementwise`: the specification functions of the elementwise operations.
- `Reductions`: inner product, absolute sum and sum of squares.
- `Layout`: the column-major matrix layout, `mul_vec` and the product.
- `Vectors` and `Matrices`: the two classes.
- `Interpolation`: lerp.
- `Combination`: `linear_combination`.
- `Geometry`: the cross product.
- `Examples`: the computations of each `main`.

The model follows what the code does:

- **Matrix layout.** Entry (r, c) is stored at flat index `c * rows + r`
  (column-major), as the comment at ex07/main.rs:15 says and
  `Matrix::from`, `Display` and `mul_vec` all do.
- **Errors.** The code does not return error values:
  - `dot` returns zero when the lengths differ;
  - `mul_vec` therefore returns the all-zero vector when the vector's length is not `cols`;
  - `cross_product` returns three zeros when either operand is not 3-D;
  - a length mismatch in `linear_combination` fails an `assert!`;
  - a short operand of `add`/`sub` panics on an out-of-bounds index.

  The model returns the same zeros. The panics become preconditions.
- **`add` / `sub` lengths.** The loops run over `self`'s indices only, so
  the operand must be at least as long as `self`, not exactly as long. A
  longer operand is accepted, and its extra entries are ignored.
- **`mul_mat`.** The source body is empty. It is modelled as the standard
  product in column-major layout, fixed by the commented-out expectations
  in ex07. Mismatched inner dimensions give the all-zero matrix, by the
  same convention as `dot`.

## Model

| member | source | states |
|---|---|---|
| Elementwise.AddThenSubRestores | ex02/main.rs:41-46 | `add(v)` then `sub(v)` gives back the original components |
| Elementwise.SubThenAddRestores | ex02/main.rs:41-46 | `sub(v)` then `add(v)` gives back the original components |
| Elementwise.ScaleByOneAndZero | ex02/main.rs:47-49 | `scl(1)` is the identity; `scl(0)` gives the zero vector |
| Elementwise.AllZeroIsZeros | ex01/main.rs:17-19 | a sequence is all zeros exactly when it equals `zero(len)` |
| Reductions.InnerProduct | ex07/main.rs:67-69 | definition: the sum of `u[i] * v[i]` over matching indices, added front to back as the loop does; its properties are the `InnerProduct…` lemmas |
| Reductions.DotProduct | ex07/main.rs:61-71 | definition of what `dot` returns: 0 when the lengths differ, otherwise `InnerProduct` |
| Reductions.SumAbs | ex04/main.rs:28-37 | definition: the sum of the absolute values, added front to back; its properties are `SumAbsNonNegative` and `SumAbsZeroIff` |
| Reductions.SumSquares | ex05/main.rs:63-67 | definition: the sum of the squares, added front to back; its properties are `SumSquaresNonNegative`, `SumSquaresOfZeroVector` and `SelfDotIsSumSquares` |
| Reductions.Abs | ex04/main.rs:32-34 | the absolute value is non-negative and is the value or its negation |
| Reductions.InnerProductOfTwo | ex03/main.rs:35-37 | the two-component sum of products, written out |
| Reductions.InnerProductOfThree | ex03/main.rs:35-37 | the three-component sum of products, written out |
| Reductions.InnerProductCommutes | ex03/main.rs:35-37 | for equal lengths `u·v == v·u` |
| Reductions.DotProductCommutes | ex03/main.rs:33-38 | `dot` is symmetric, mismatch case included |
| Reductions.InnerProductAddsRight | ex07/main.rs:67-69 | the inner product distributes over a sum in its right operand |
| Reductions.InnerProductScalesRight | ex07/main.rs:67-69 | scaling the right operand scales the inner product |
| Reductions.InnerProductWithZeros | ex07/main.rs:67-69 | the inner product with the zero vector is 0 |
| Reductions.SumAbsNonNegative | ex04/main.rs:28-37 | `norm_1` is never negative |
| Reductions.SumAbsZeroIff | ex04/main.rs:28-37 | `norm_1` is 0 exactly when every component is 0 (the empty vector included) |
| Reductions.SumSquaresNonNegative | ex05/main.rs:63-67 | the accumulator of `norm` is never negative |
| Reductions.SumSquaresOfZeroVector | ex05/main.rs:63-67 | the accumulator of `norm` is 0 for an all-zero vector |
| Reductions.SelfDotIsSumSquares | ex05/main.rs:46-67 | `v.dot(v)` equals the sum of squares that `norm` accumulates |
| Vectors.Vector.From | ex07/main.rs:21-23 | the components are the given values in order (also `from` at ex04/main.rs:20-22) |
| Vectors.Vector.Zero | ex01/main.rs:17-19 | `zero(size)` has `size` components, all 0 |
| Vectors.Vector.Size | ex06/main.rs:27-29 | `size()` is the number of components |
| Vectors.Vector.Get | ex06/main.rs:35-37 | `Index` reads component `index`, which must exist |
| Vectors.Vector.Set | ex06/main.rs:40-43 | `IndexMut` writes component `index` and no other; the length is kept |
| Vectors.Vector.Clone | ex02/main.rs:12-13 | a fresh vector with the same components |
| Vectors.Vector.Add | ex02/main.rs:41-43 | afterwards component i is `old[i] + v[i]`; the length is kept; `v` is unchanged |
| Vectors.Vector.Sub | ex02/main.rs:44-46 | afterwards component i is `old[i] - v[i]`; the length is kept; `v` is unchanged |
| Vectors.Vector.Scl | ex02/main.rs:47-49 | afterwards component i is `old[i] * a` |
| Vectors.Vector.Dot | ex07/main.rs:61-71 | zero on a length mismatch, otherwise the sum of products; zero for two empty vectors; `self` is not modified (the same `dot` is at ex03/main.rs:31-39 and ex05/main.rs:46-56) |
| Vectors.Vector.Norm1 | ex04/main.rs:24-38 | the sum of absolute values, computed on a copy; `self` is not modified |
| Vectors.Vector.NormSquared | ex05/main.rs:58-67 | the accumulator before `powf(0.5)` is the sum of squares; `self` is not modified |
| Layout.At | ex07/main.rs:52 | definition: entry (r, c) is `data[c * rows + r]`, the index `Display` and `mul_vec` read |
| Layout.RowOf | ex07/main.rs:79-83 | the row `mul_vec` copies out has `cols` entries, entry c being `At(r, c)` |
| Layout.ColOf | ex07/main.rs:90-93 | column c, entry r being `At(r, c)`, has `rows` entries (the right operand of the product) |
| Layout.ColumnsUpTo | ex07/main.rs:29-33 | definition: the entries pushed after n rounds of the outer loop of `from`, column after column; its properties are `ColumnsUpToLength` and `ColumnsUpToEntry` |
| Layout.ColumnMajor | ex07/main.rs:27-35 | definition: the data `from` builds, all columns; its properties are `ColumnMajorAt`, `GridOfColumnMajor` and `ColumnMajorOfGrid` |
| Layout.FlatIndexInRange | ex07/main.rs:28-34 | index `c * rows + r` lies inside the `rows * cols` buffer |
| Layout.Grid | ex07/main.rs:47-57 | the grid `Display` prints has `rows` rows of `cols` entries |
| Layout.ColumnsUpToLength | ex07/main.rs:28-35 | after n outer rounds `from` has pushed `n * rows` entries |
| Layout.ColumnsUpToEntry | ex07/main.rs:29-33 | after n outer rounds, entry (r, c) with c < n sits at `c * rows + r` |
| Layout.ColumnMajorAt | ex07/main.rs:27-35 | the data built by `from(arr)` has R*C entries, and `data[c*R + r] == arr[r][c]` |
| Layout.GridOfColumnMajor | ex07/main.rs:47-57 | reading back through the `Display` index gives exactly `arr` |
| Layout.ColumnMajorOfGrid | ex07/main.rs:27-35 | rebuilding with `from` from the displayed grid gives back the same flat data |
| Layout.EqualByEntries | ex07/main.rs:52 | two buffers of one shape that agree at every (r, c) are equal |
| Layout.MatVec | ex07/main.rs:75-89 | `mul_vec` yields `rows` entries |
| Layout.MatVecMismatch | ex07/main.rs:61-89 | a vector whose length is not `cols` is mapped to zeros |
| Layout.MatVecAdditive | ex07/main.rs:75-89 | `mul_vec` maps a sum to the sum of the images |
| Layout.MatVecHomogeneous | ex07/main.rs:75-89 | `mul_vec` commutes with scaling |
| Layout.IdentityRows | ex07/main.rs:97-100 | the identity grid is n by n |
| Layout.InnerProductWithUnit | ex07/main.rs:61-71 | the dot product with a unit vector picks one component |
| Layout.IdentityRow | ex07/main.rs:97-104 | row r of the stored identity matrix is the unit vector along r |
| Layout.IdentityMatVec | ex07/main.rs:97-104 | the identity matrix maps every vector of matching size to itself |
| Layout.Product | ex07/main.rs:90-93 | definition of `mul_mat` (also fixed by the expectations at ex07/main.rs:121-153): the column-major grid of row-by-column dot products; its properties are the `Product…`, `IdentityLeftUnit` and `ProductTwoByTwo` lemmas |
| Layout.ProductAt | ex07/main.rs:90-93 | the product has `rows * mat.cols` entries; entry (r, c) is row r of `self` dotted with column c of `mat` |
| Layout.ProductColumn | ex07/main.rs:90-93 | column c of the product is `mul_vec` of `self` with column c of `mat` |
| Layout.ProductMismatch | ex07/main.rs:90-93 | mismatched inner dimensions give the all-zero matrix |
| Layout.IdentityLeftUnit | ex07/main.rs:121-141 | I * B == B |
| Matrices.Matrix.From | ex07/main.rs:27-35 | shape R by C, data of length R*C, entry (r, c) at `c*R + r` (the same construction is at ex02/main.rs:29-37) |
| Matrices.Matrix.Of | ex07/main.rs:34 | the struct literal keeps its three fields |
| Matrices.Matrix.Get | ex07/main.rs:52 | entry (r, c) is read at `c * rows + r`, which is in range |
| Matrices.Matrix.Clone | ex02/main.rs:15-20 | a fresh matrix with the same data and shape |
| Matrices.Matrix.Add | ex02/main.rs:53-55 | elementwise sum on the flat data; `rows`, `cols` and the operand are unchanged |
| Matrices.Matrix.Sub | ex02/main.rs:56-58 | elementwise difference on the flat data; `rows`, `cols` and the operand are unchanged |
| Matrices.Matrix.Scl | ex02/main.rs:59-61 | every entry is scaled; `rows` and `cols` are unchanged |
| Matrices.Matrix.MulVec | ex07/main.rs:75-89 | `rows` entries; entry r is row r dotted with `vec`; all zeros when `vec` has the wrong length |
| Matrices.Matrix.MulMat | ex07/main.rs:90-93 | a fresh `rows` by `mat.cols` matrix whose (r, c) entry is row r dotted with column c |
| Combination.PartialSum | ex01/main.rs:31-35 | definition: entry i of the accumulator after n outer rounds, each round adding `u[k][i] * coefs[k]` to it |
| Combination.Partial | ex01/main.rs:31-35 | the accumulator after n outer rounds has `size` entries, entry i being `PartialSum` |
| Combination.Combine | ex01/main.rs:28-35 | `size` components; `LinearCombination` passes `u[0]`'s length |
| Combination.CombineOne | ex01/main.rs:31-35 | one vector with one coefficient is that vector scaled |
| Combination.CombineTwo | ex01/main.rs:31-35 | two vectors give the sum of the two scaled vectors |
| Combination.PartialSumOfZeroCoefs | ex01/main.rs:29-35 | zero coefficients leave each accumulator entry at 0 |
| Combination.CombineOfZeroCoefs | ex01/main.rs:29-35 | zero coefficients give the zero vector |
| Combination.PartialSumIsInnerProduct | ex01/main.rs:31-35 | entry i is the coefficients dotted with the i-th components |
| Combination.CombineIsMatVec | ex01/main.rs:31-35 | a matrix with the vectors as columns maps the coefficients, by `mul_vec`, to the combination |
| Combination.CombineOfBasis | ex01/main.rs:41-48 | combining the unit vectors with `coefs` gives `coefs` |
| Combination.LinearCombination | ex01/main.rs:22-38 | lengths must match; empty input gives the empty vector; otherwise entry i is the sum over k of `u[k][i] * coefs[k]`, over the first vector's length |
| Interpolation.Lerp | ex02/main.rs:74-76 | `u` at t = 0 and `v` at t = 1 |
| Interpolation.LerpBetween | ex02/main.rs:74-76 | for t in [0, 1] the result lies between `u` and `v`, whether `u <= v` or `v <= u` |
| Interpolation.LerpEach | ex02/main.rs:80-96 | the componentwise lerp has `v`'s length, component i being `Lerp(u[i], v[i], t)` |
| Interpolation.LerpEachEndpoints | ex02/main.rs:80-96 | t = 0 gives the first `|v|` components of `u`; t = 1 gives `v` |
| Interpolation.LerpByInPlaceOps | ex02/main.rs:81-84 | clone `v`, `sub(u)`, `scl(t)`, `add(u)` computes `u + (v - u) * t` componentwise |
| Interpolation.VectorLerp | ex02/main.rs:79-87 | a fresh vector holding the componentwise lerp |
| Interpolation.MatrixLerp | ex02/main.rs:89-97 | a fresh matrix of `v`'s shape holding the componentwise lerp |
| Geometry.Minor | ex06/main.rs:66-68 | definition: the 2-by-2 minor `a * d - b * c` each component of the cross product is made of |
| Geometry.Cross | ex06/main.rs:59-70 | the result always has 3 components, on either branch |
| Geometry.CrossAntiCommutes | ex06/main.rs:66-68 | `cross(u, v) == -cross(v, u)` |
| Geometry.CrossSelfIsZero | ex06/main.rs:66-68 | `cross(u, u)` is the zero vector |
| Geometry.CrossOrthogonalToLeft | ex06/main.rs:66-68 | for 3-D operands `u · cross(u, v) == 0` |
| Geometry.CrossProduct | ex06/main.rs:55-71 | a fresh vector holding the formula; three zeros outside 3-D |
| Examples.LinearCombinationExamples | ex01/main.rs:40-55 | `[10, -2, 0.5]` and `[10, 0, 230]` |
| Examples.ScalarLerpExamples | ex02/main.rs:121-124 | 0, 1, 0.5 and 27.3 |
| Examples.VectorLerpExample | ex02/main.rs:127 | `[2.6, 1.3]` |
| Examples.MatrixLerpExample | ex02/main.rs:130-134 | `[[11, 5.5], [16.5, 22]]`, stored column-major |
| Examples.DotExamples | ex03/main.rs:43-56 | 0 (lengths differ), 2 and 9 |
| Examples.Norm1Examples | ex04/main.rs:48-61 | 0, 6 and 3 |
| Examples.NormSquaredExample | ex04/main.rs:53-56 | 14, the square of the 3.74165738 expected at ex04/main.rs:56 |
| Examples.CrossExamples | ex06/main.rs:73-85 | `[0, 1, 0]`, `[-3, 6, -3]` and `[17, -58, -16]` |
| Examples.ColumnMajorTwoByTwo | ex07/main.rs:27-35 | `from([[a, b], [c, d]])` stores `[a, c, b, d]` |
| Examples.MatVecTwoByTwo | ex07/main.rs:75-89 | `mul_vec` of a 2-by-2 matrix, written out |
| Examples.ProductTwoByTwo | ex07/main.rs:121-153 | the product of two 2-by-2 matrices, written out |
| Examples.MulVecExamples | ex07/main.rs:96-120 | `[4, 2]`, `[8, 4]` and `[4, -4]` |
| Examples.MulMatExamples | ex07/main.rs:121-153 | I, `[[2, 1], [4, 2]]` and `[[-14, -7], [44, 22]]` |

## Left out

- Floating point: the scalar is `real`, so there is no `f32` rounding. The `mul_add` in `linear_combination` is modelled as an exact multiply-then-add.
- `pow`, `powf`, the final square root of `norm`, and `angle_cos` (ex05). These are floating-point transcendental numerics. Only the sum of squares inside `norm` is modelled.
- Reductions.SumSquaresOfZeroVector: only the direction "all zeros gives 0" is proved. The converse (a zero sum of squares means the vector is all zeros) is not stated.
- All `Display` formatting and printing, and the console output of every `main`. The values the mains compute are stated by the `Examples` methods. The `Display` index convention is kept as `Matrix.Get` and `Layout.Grid`.
- ex00, which only wraps a length and a debug print.
- The `KField` bound and the generic `lerp<V: Lerp>` dispatcher, which are trait machinery. Each `Lerp` impl is modelled as its own member.
- `norm_inf` and the bodies of `norm` in ex04, which are commented out in the source.
- Rust's ownership. Operands taken by value (`dot` in ex03, `lerp`) are modelled as operands that are not modified.
