/** Facts about squares of reals, shared by the vector and quaternion modules. Each is
    stated over plain reals so that its proof is a small arithmetic step. */
module Reals {

  /** A square is never negative. */
  lemma SquareNonNegative(a: real)
    ensures a * a >= 0.0
  {
  }

  /** Dividing a non-zero square by its root gives the root back. */
  lemma CancelSquare(a: real)
    requires a != 0.0
    ensures (a * a) * (1.0 / a) == a
  {
    assert a * (1.0 / a) == 1.0;
  }

  /** Only zero squares to zero. */
  lemma SquareZero(a: real)
    requires a * a == 0.0
    ensures a == 0.0
  {
    if a != 0.0 {
      CancelSquare(a);
      assert false;
    }
  }
}
