/** Two-component vectors over the reals: the `Vector2` value type of vector.go.
    Every operation returns a new value; nothing is mutated. */
module Vec2 {

  import Reals

  datatype Vector2 = Vector2(x: real, y: real)

  /** The value `Normalise` falls back to. */
  const Zero: Vector2 := Vector2(0.0, 0.0)

  /** Component-wise sum. */
  function Add(v: Vector2, other: Vector2): Vector2 {
    Vector2(v.x + other.x, v.y + other.y)
  }

  /** Component-wise difference `v - other`. */
  function Subtract(v: Vector2, other: Vector2): Vector2 {
    Vector2(v.x - other.x, v.y - other.y)
  }

  /** Every component multiplied by `scalar`. */
  function Scale(v: Vector2, scalar: real): Vector2 {
    Vector2(v.x * scalar, v.y * scalar)
  }

  /** Inner product. */
  function Dot(v: Vector2, other: Vector2): real {
    v.x * other.x + v.y * other.y
  }

  /** `mag` is what the source's `Magnitude` returns for `v`: the non-negative square
      root of `Dot(v, v)`. The square root itself is computed outside the model. */
  predicate IsMagnitude(v: Vector2, mag: real) {
    mag >= 0.0 && mag * mag == Dot(v, v)
  }

  /** The unit vector in the direction of `v`, or `Zero` when the magnitude is zero
      (no division happens then). */
  function Normalise(v: Vector2, mag: real): (r: Vector2)
    requires IsMagnitude(v, mag)
    ensures r == Zero <==> v == Zero
    ensures v != Zero ==> Scale(r, mag) == v && Dot(r, r) == 1.0
  {
    MagnitudeZeroIffZero(v, mag);
    if mag == 0.0 then Zero
    else
      UnitAfterDivision(v, mag);
      Vector2(v.x / mag, v.y / mag)
  }

  /** The magnitude is zero exactly for the zero vector. */
  lemma MagnitudeZeroIffZero(v: Vector2, mag: real)
    requires IsMagnitude(v, mag)
    ensures mag == 0.0 <==> v == Zero
  {
    DotSelfZeroIffZero(v);
    if v == Zero {
      Reals.SquareZero(mag);
    }
  }

  /** Dividing every component by the magnitude gives a unit vector that scales back to `v`. */
  lemma UnitAfterDivision(v: Vector2, mag: real)
    requires IsMagnitude(v, mag) && mag != 0.0
    ensures Dot(Vector2(v.x / mag, v.y / mag), Vector2(v.x / mag, v.y / mag)) == 1.0
    ensures Scale(Vector2(v.x / mag, v.y / mag), mag) == v
    ensures Vector2(v.x / mag, v.y / mag) != Zero
  {
    var inv := 1.0 / mag;
    assert inv * mag == 1.0;
    assert v.x / mag == v.x * inv && v.y / mag == v.y * inv;
    calc {
      (v.x * inv) * (v.x * inv) + (v.y * inv) * (v.y * inv);
      (v.x * v.x + v.y * v.y) * (inv * inv);
      (mag * mag) * (inv * inv);
      (mag * inv) * (mag * inv);
      1.0;
    }
  }

  /** Subtracting what was added gives the original vector back. */
  lemma SubtractUndoesAdd(v: Vector2, w: Vector2)
    ensures Subtract(Add(v, w), w) == v
    ensures Add(Subtract(v, w), w) == v
  {
  }

  /** Scaling by one is the identity; scaling by zero gives the zero vector. */
  lemma ScaleByOneAndZero(v: Vector2)
    ensures Scale(v, 1.0) == v
    ensures Scale(v, 0.0) == Zero
  {
  }

  /** The inner product is symmetric. */
  lemma DotSymmetric(v: Vector2, w: Vector2)
    ensures Dot(v, w) == Dot(w, v)
  {
  }

  /** A vector's inner product with itself is non-negative, and zero exactly for `Zero`. */
  lemma DotSelfZeroIffZero(v: Vector2)
    ensures Dot(v, v) >= 0.0
    ensures Dot(v, v) == 0.0 <==> v == Zero
  {
    Reals.SquareNonNegative(v.x);
    Reals.SquareNonNegative(v.y);
    if Dot(v, v) == 0.0 {
      Reals.SquareZero(v.x);
      Reals.SquareZero(v.y);
    }
  }

  /** The inner product is linear in its first argument: it distributes over `Add` and
      takes `Scale` factors out. */
  lemma DotLinear(u: Vector2, v: Vector2, w: Vector2, s: real)
    ensures Dot(Add(u, v), w) == Dot(u, w) + Dot(v, w)
    ensures Dot(Scale(u, s), w) == s * Dot(u, w)
  {
  }
}
