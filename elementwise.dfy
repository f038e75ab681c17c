/** Componentwise arithmetic on flat sequences of scalars.

    These are the specification functions for the in-place `add`, `sub`
    and `scl` loops of Vector and Matrix (both run over the flat `data`).
    The loops run over the receiver's length and read the operand at the
    same index, so the operand may be longer than the receiver, never
    shorter. */
module Elementwise {

  /** Each component of `a` increased by the matching component of `b`. */
  function Plus(a: seq<real>, b: seq<real>): (r: seq<real>)
    requires |b| >= |a|
    ensures |r| == |a|
  {
    seq(|a|, i requires 0 <= i < |a| => a[i] + b[i])
  }

  /** Each component of `a` decreased by the matching component of `b`. */
  function Minus(a: seq<real>, b: seq<real>): (r: seq<real>)
    requires |b| >= |a|
    ensures |r| == |a|
  {
    seq(|a|, i requires 0 <= i < |a| => a[i] - b[i])
  }

  /** Each component of `a` multiplied by `k`. */
  function Scaled(a: seq<real>, k: real): (r: seq<real>)
    ensures |r| == |a|
  {
    seq(|a|, i requires 0 <= i < |a| => a[i] * k)
  }

  /** `n` zero components (`Vector::zero`). */
  function Zeros(n: nat): (r: seq<real>)
    ensures |r| == n
  {
    seq(n, i => 0.0)
  }

  predicate AllZero(a: seq<real>) {
    forall i :: 0 <= i < |a| ==> a[i] == 0.0
  }

  /** Adding `b` and then subtracting it again gives back `a` exactly. */
  lemma AddThenSubRestores(a: seq<real>, b: seq<real>)
    requires |b| >= |a|
    ensures Minus(Plus(a, b), b) == a
  {
    var m := Minus(Plus(a, b), b);
    assert |m| == |a|;
    forall i | 0 <= i < |a| ensures m[i] == a[i] {
      assert m[i] == (a[i] + b[i]) - b[i];
    }
  }

  /** Subtracting `b` and then adding it again gives back `a` exactly. */
  lemma SubThenAddRestores(a: seq<real>, b: seq<real>)
    requires |b| >= |a|
    ensures Plus(Minus(a, b), b) == a
  {
    var m := Plus(Minus(a, b), b);
    assert |m| == |a|;
    forall i | 0 <= i < |a| ensures m[i] == a[i] {
      assert m[i] == (a[i] - b[i]) + b[i];
    }
  }

  /** Scaling by one changes nothing; scaling by zero gives zeros. */
  lemma ScaleByOneAndZero(a: seq<real>)
    ensures Scaled(a, 1.0) == a
    ensures Scaled(a, 0.0) == Zeros(|a|)
  {
    assert forall i :: 0 <= i < |a| ==> Scaled(a, 1.0)[i] == a[i];
    assert forall i :: 0 <= i < |a| ==> Scaled(a, 0.0)[i] == Zeros(|a|)[i];
  }

  /** A vector is zero exactly when it is the zero sequence of its length. */
  lemma AllZeroIsZeros(a: seq<real>)
    ensures AllZero(a) <==> a == Zeros(|a|)
  {
    if AllZero(a) {
      assert forall i :: 0 <= i < |a| ==> a[i] == Zeros(|a|)[i];
    }
  }
}
