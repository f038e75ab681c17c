/** The `Vector<K>` struct: a growable sequence of scalars that its
    arithmetic methods update in place. The scalar type is `real`. */
module Vectors {
  import opened Elementwise
  import opened Reductions

  class Vector {
    var data: seq<real>

    /** `Vector::from`: the components are the given values, in order. */
    constructor From(values: seq<real>)
      ensures data == values
    {
      data := values;
    }

    /** `Vector::zero(size)`: `size` zero components. */
    constructor Zero(size: nat)
      ensures |data| == size && AllZero(data)
    {
      data := Zeros(size);
    }

    /** `size()`: the number of components. */
    method Size() returns (n: nat)
      ensures n == |data|
    {
      n := |data|;
    }

    /** `Index`: reads component `index`; out of range panics. */
    method Get(index: nat) returns (x: real)
      requires index < |data|
      ensures x == data[index]
    {
      x := data[index];
    }

    /** `IndexMut`: overwrites component `index` and nothing else. */
    method Set(index: nat, x: real)
      requires index < |data|
      modifies this
      ensures |data| == |old(data)|
      ensures data[index] == x
      ensures forall j :: 0 <= j < |data| && j != index ==> data[j] == old(data)[j]
    {
      data := data[index := x];
    }

    /** `clone()`: a fresh vector with the same components. */
    method Clone() returns (c: Vector)
      ensures fresh(c) && c.data == data
    {
      c := new Vector.From(data);
    }

    /** `add`, in place; the loop reads `v` at every index of `self`, so
        `v` must be at least as long. `&mut self` and `&v` never alias. */
    method Add(v: Vector)
      requires v != this && |v.data| >= |data|
      modifies this
      ensures data == Plus(old(data), v.data)
      ensures unchanged(v)
    {
      var i := 0;
      while i < |data|
        invariant 0 <= i <= |data| == |old(data)|
        invariant forall k :: 0 <= k < i ==> data[k] == old(data)[k] + v.data[k]
        invariant forall k :: i <= k < |data| ==> data[k] == old(data)[k]
      {
        data := data[i := data[i] + v.data[i]];
        i := i + 1;
      }
    }

    /** `sub`, in place, with the same length demand as `add`. */
    method Sub(v: Vector)
      requires v != this && |v.data| >= |data|
      modifies this
      ensures data == Minus(old(data), v.data)
      ensures unchanged(v)
    {
      var i := 0;
      while i < |data|
        invariant 0 <= i <= |data| == |old(data)|
        invariant forall k :: 0 <= k < i ==> data[k] == old(data)[k] - v.data[k]
        invariant forall k :: i <= k < |data| ==> data[k] == old(data)[k]
      {
        data := data[i := data[i] - v.data[i]];
        i := i + 1;
      }
    }

    /** `scl(a)`: every component multiplied by `a`, in place. */
    method Scl(a: real)
      modifies this
      ensures data == Scaled(old(data), a)
    {
      var i := 0;
      while i < |data|
        invariant 0 <= i <= |data| == |old(data)|
        invariant forall k :: 0 <= k < i ==> data[k] == old(data)[k] * a
        invariant forall k :: i <= k < |data| ==> data[k] == old(data)[k]
      {
        data := data[i := data[i] * a];
        i := i + 1;
      }
      assert forall k :: 0 <= k < |data| ==> data[k] == Scaled(old(data), a)[k];
    }

    /** `dot`: zero when the lengths differ, otherwise the sum of the
        products of matching components, accumulated from index 0 up. */
    method Dot(v: Vector) returns (res: real)
      ensures |data| != |v.data| ==> res == 0.0
      ensures |data| == |v.data| ==> res == InnerProduct(data, v.data)
      ensures |data| == 0 && |v.data| == 0 ==> res == 0.0
    {
      res := 0.0;
      if |data| != |v.data| {
        return;
      }
      var i := 0;
      while i < |data|
        invariant 0 <= i <= |data|
        invariant res == InnerProduct(data[..i], v.data[..i])
      {
        assert data[..i + 1][..i] == data[..i];
        assert v.data[..i + 1][..i] == v.data[..i];
        res := data[i] * v.data[i] + res;
        i := i + 1;
      }
      assert data[..i] == data && v.data[..i] == v.data;
    }

    /** `norm_1`: works on a copy of the components, flipping the sign of
        each negative one before adding it; the vector itself is left
        unchanged (this method has no `modifies` clause). */
    method Norm1() returns (res: real)
      ensures res == SumAbs(data)
    {
      res := 0.0;
      var vec := data;
      var i := 0;
      while i < |data|
        invariant 0 <= i <= |data| == |vec|
        invariant forall k :: i <= k < |vec| ==> vec[k] == data[k]
        invariant res == SumAbs(data[..i])
      {
        if vec[i] < 0.0 {
          vec := vec[i := -vec[i]];
        }
        assert data[..i + 1][..i] == data[..i];
        res := res + vec[i];
        i := i + 1;
      }
      assert data[..i] == data;
    }

    /** The accumulator of `norm` before its final square root: the sum of
        the squares of the components, read from a copy of them. */
    method NormSquared() returns (res: real)
      ensures res == SumSquares(data)
    {
      var vec := data;
      res := 0.0;
      var i := 0;
      while i < |data|
        invariant 0 <= i <= |data|
        invariant res == SumSquares(data[..i])
      {
        assert data[..i + 1][..i] == data[..i];
        res := res + vec[i] * vec[i];
        i := i + 1;
      }
      assert data[..i] == data;
    }
  }
}
