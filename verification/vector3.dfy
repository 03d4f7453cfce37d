/** Three-component vectors over the reals: the `Vector3` value type of vector.go.
    Every operation returns a new value; nothing is mutated. It is also the operand
    type of the matrix-vector product in module Matrices. */
module Vec3 {

  import Reals

  datatype Vector3 = Vector3(x: real, y: real, z: real)

  /** The value `Normalise` falls back to. */
  const Zero: Vector3 := Vector3(0.0, 0.0, 0.0)

  /** Component-wise sum. */
  function Add(v: Vector3, other: Vector3): Vector3 {
    Vector3(v.x + other.x, v.y + other.y, v.z + other.z)
  }

  /** Component-wise difference `v - other`. */
  function Subtract(v: Vector3, other: Vector3): Vector3 {
    Vector3(v.x - other.x, v.y - other.y, v.z - other.z)
  }

  /** Every component multiplied by `scalar`. */
  function Scale(v: Vector3, scalar: real): Vector3 {
    Vector3(v.x * scalar, v.y * scalar, v.z * scalar)
  }

  /** Inner product. */
  function Dot(v: Vector3, other: Vector3): real {
    v.x * other.x + v.y * other.y + v.z * other.z
  }

  /** `mag` is what the source's `Magnitude` returns for `v`: the non-negative square
      root of `Dot(v, v)`. The square root itself is computed outside the model. */
  predicate IsMagnitude(v: Vector3, mag: real) {
    mag >= 0.0 && mag * mag == Dot(v, v)
  }

  /** The unit vector in the direction of `v`, or `Zero` when the magnitude is zero
      (no division happens then). */
  function Normalise(v: Vector3, mag: real): (r: Vector3)
    requires IsMagnitude(v, mag)
    ensures r == Zero <==> v == Zero
    ensures v != Zero ==> Scale(r, mag) == v && Dot(r, r) == 1.0
  {
    MagnitudeZeroIffZero(v, mag);
    if mag == 0.0 then Zero
    else
      UnitAfterDivision(v, mag);
      Vector3(v.x / mag, v.y / mag, v.z / mag)
  }

  /** The magnitude is zero exactly for the zero vector. */
  lemma MagnitudeZeroIffZero(v: Vector3, mag: real)
    requires IsMagnitude(v, mag)
    ensures mag == 0.0 <==> v == Zero
  {
    DotSelfZeroIffZero(v);
    if v == Zero {
      Reals.SquareZero(mag);
    }
  }

  /** Dividing every component by the magnitude gives a unit vector that scales back to `v`. */
  lemma UnitAfterDivision(v: Vector3, mag: real)
    requires IsMagnitude(v, mag) && mag != 0.0
    ensures Dot(Vector3(v.x / mag, v.y / mag, v.z / mag), Vector3(v.x / mag, v.y / mag, v.z / mag)) == 1.0
    ensures Scale(Vector3(v.x / mag, v.y / mag, v.z / mag), mag) == v
    ensures Vector3(v.x / mag, v.y / mag, v.z / mag) != Zero
  {
    var inv := 1.0 / mag;
    assert inv * mag == 1.0;
    assert v.x / mag == v.x * inv && v.y / mag == v.y * inv && v.z / mag == v.z * inv;
    calc {
      (v.x * inv) * (v.x * inv) + (v.y * inv) * (v.y * inv) + (v.z * inv) * (v.z * inv);
      (v.x * v.x + v.y * v.y + v.z * v.z) * (inv * inv);
      (mag * mag) * (inv * inv);
      (mag * inv) * (mag * inv);
      1.0;
    }
  }

  /** Subtracting what was added gives the original vector back. */
  lemma SubtractUndoesAdd(v: Vector3, w: Vector3)
    ensures Subtract(Add(v, w), w) == v
    ensures Add(Subtract(v, w), w) == v
  {
  }

  /** Scaling by one is the identity; scaling by zero gives the zero vector. */
  lemma ScaleByOneAndZero(v: Vector3)
    ensures Scale(v, 1.0) == v
    ensures Scale(v, 0.0) == Zero
  {
  }

  /** The inner product is symmetric. */
  lemma DotSymmetric(v: Vector3, w: Vector3)
    ensures Dot(v, w) == Dot(w, v)
  {
  }

  /** A vector's inner product with itself is non-negative, and zero exactly for `Zero`. */
  lemma DotSelfZeroIffZero(v: Vector3)
    ensures Dot(v, v) >= 0.0
    ensures Dot(v, v) == 0.0 <==> v == Zero
  {
    Reals.SquareNonNegative(v.x);
    Reals.SquareNonNegative(v.y);
    Reals.SquareNonNegative(v.z);
    if Dot(v, v) == 0.0 {
      Reals.SquareZero(v.x);
      Reals.SquareZero(v.y);
      Reals.SquareZero(v.z);
    }
  }

  /** The inner product is linear in its first argument: it distributes over `Add` and
      takes `Scale` factors out. */
  lemma DotLinear(u: Vector3, v: Vector3, w: Vector3, s: real)
    ensures Dot(Add(u, v), w) == Dot(u, w) + Dot(v, w)
    ensures Dot(Scale(u, s), w) == s * Dot(u, w)
  {
  }
}
