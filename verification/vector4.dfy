/** Four-component vectors over the reals: the `Vector4` value type of vector.go.
    Every operation returns a new value; nothing is mutated. */
module Vec4 {

  import Reals

  datatype Vector4 = Vector4(x: real, y: real, z: real, w: real)

  /** The value `Normalise` falls back to. */
  const Zero: Vector4 := Vector4(0.0, 0.0, 0.0, 0.0)

  /** Component-wise sum. */
  function Add(v: Vector4, other: Vector4): Vector4 {
    Vector4(v.x + other.x, v.y + other.y, v.z + other.z, v.w + other.w)
  }

  /** Component-wise difference `v - other`. */
  function Subtract(v: Vector4, other: Vector4): Vector4 {
    Vector4(v.x - other.x, v.y - other.y, v.z - other.z, v.w - other.w)
  }

  /** Every component multiplied by `scalar`. */
  function Scale(v: Vector4, scalar: real): Vector4 {
    Vector4(v.x * scalar, v.y * scalar, v.z * scalar, v.w * scalar)
  }

  /** Inner product. */
  function Dot(v: Vector4, other: Vector4): real {
    v.x * other.x + v.y * other.y + v.z * other.z + v.w * other.w
  }

  /** `mag` is what the source's `Magnitude` returns for `v`: the non-negative square
      root of `Dot(v, v)`. The square root itself is computed outside the model. */
  predicate IsMagnitude(v: Vector4, mag: real) {
    mag >= 0.0 && mag * mag == Dot(v, v)
  }

  /** The unit vector in the direction of `v`, or `Zero` when the magnitude is zero
      (no division happens then). */
  function Normalise(v: Vector4, mag: real): (r: Vector4)
    requires IsMagnitude(v, mag)
    ensures r == Zero <==> v == Zero
    ensures v != Zero ==> Scale(r, mag) == v && Dot(r, r) == 1.0
  {
    MagnitudeZeroIffZero(v, mag);
    if mag == 0.0 then Zero
    else
      UnitAfterDivision(v, mag);
      Vector4(v.x / mag, v.y / mag, v.z / mag, v.w / mag)
  }

  /** The magnitude is zero exactly for the zero vector. */
  lemma MagnitudeZeroIffZero(v: Vector4, mag: real)
    requires IsMagnitude(v, mag)
    ensures mag == 0.0 <==> v == Zero
  {
    DotSelfZeroIffZero(v);
    if v == Zero {
      Reals.SquareZero(mag);
    }
  }

  /** Dividing every component by the magnitude gives a unit vector that scales back to `v`. */
  lemma UnitAfterDivision(v: Vector4, mag: real)
    requires IsMagnitude(v, mag) && mag != 0.0
    ensures Dot(Vector4(v.x / mag, v.y / mag, v.z / mag, v.w / mag), Vector4(v.x / mag, v.y / mag, v.z / mag, v.w / mag)) == 1.0
    ensures Scale(Vector4(v.x / mag, v.y / mag, v.z / mag, v.w / mag), mag) == v
    ensures Vector4(v.x / mag, v.y / mag, v.z / mag, v.w / mag) != Zero
  {
    var inv := 1.0 / mag;
    assert inv * mag == 1.0;
    assert v.x / mag == v.x * inv && v.y / mag == v.y * inv && v.z / mag == v.z * inv && v.w / mag == v.w * inv;
    calc {
      (v.x * inv) * (v.x * inv) + (v.y * inv) * (v.y * inv) + (v.z * inv) * (v.z * inv) + (v.w * inv) * (v.w * inv);
      (v.x * v.x + v.y * v.y + v.z * v.z + v.w * v.w) * (inv * inv);
      (mag * mag) * (inv * inv);
      (mag * inv) * (mag * inv);
      1.0;
    }
  }

  /** Subtracting what was added gives the original vector back. */
  lemma SubtractUndoesAdd(v: Vector4, w: Vector4)
    ensures Subtract(Add(v, w), w) == v
    ensures Add(Subtract(v, w), w) == v
  {
  }

  /** Scaling by one is the identity; scaling by zero gives the zero vector. */
  lemma ScaleByOneAndZero(v: Vector4)
    ensures Scale(v, 1.0) == v
    ensures Scale(v, 0.0) == Zero
  {
  }

  /** The inner product is symmetric. */
  lemma DotSymmetric(v: Vector4, w: Vector4)
    ensures Dot(v, w) == Dot(w, v)
  {
  }

  /** A vector's inner product with itself is non-negative, and zero exactly for `Zero`. */
  lemma DotSelfZeroIffZero(v: Vector4)
    ensures Dot(v, v) >= 0.0
    ensures Dot(v, v) == 0.0 <==> v == Zero
  {
    Reals.SquareNonNegative(v.x);
    Reals.SquareNonNegative(v.y);
    Reals.SquareNonNegative(v.z);
    Reals.SquareNonNegative(v.w);
    if Dot(v, v) == 0.0 {
      Reals.SquareZero(v.x);
      Reals.SquareZero(v.y);
      Reals.SquareZero(v.z);
      Reals.SquareZero(v.w);
    }
  }

  /** The inner product is linear in its first argument: it distributes over `Add` and
      takes `Scale` factors out. */
  lemma DotLinear(u: Vector4, v: Vector4, w: Vector4, s: real)
    ensures Dot(Add(u, v), w) == Dot(u, w) + Dot(v, w)
    ensures Dot(Scale(u, s), w) == s * Dot(u, w)
  {
  }
}
