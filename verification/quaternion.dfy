/** Quaternions over the reals: the `Quaternion` value type of quaternion.go, with `w`
    the real part and `x`, `y`, `z` the coefficients of i, j and k. */
module Quaternions {

  import Reals

  datatype Quaternion = Quaternion(w: real, x: real, y: real, z: real)

  /** The multiplicative identity 1. */
  const One: Quaternion := Quaternion(1.0, 0.0, 0.0, 0.0)
  /** The imaginary units i, j and k. */
  const I: Quaternion := Quaternion(0.0, 1.0, 0.0, 0.0)
  const J: Quaternion := Quaternion(0.0, 0.0, 1.0, 0.0)
  const K: Quaternion := Quaternion(0.0, 0.0, 0.0, 1.0)

  /** The quaternion `w + xi + yj + zk`; the source's constructor `New`. */
  function New(w: real, x: real, y: real, z: real): (q: Quaternion)
    ensures q.w == w && q.x == x && q.y == y && q.z == z
  {
    Quaternion(w, x, y, z)
  }

  /** Component-wise sum. */
  function Add(q: Quaternion, q2: Quaternion): Quaternion {
    Quaternion(q.w + q2.w, q.x + q2.x, q.y + q2.y, q.z + q2.z)
  }

  /** Component-wise difference `q - q2`. */
  function Sub(q: Quaternion, q2: Quaternion): Quaternion {
    Quaternion(q.w - q2.w, q.x - q2.x, q.y - q2.y, q.z - q2.z)
  }

  /** Every component multiplied by `s`. */
  function Scale(q: Quaternion, s: real): Quaternion {
    Quaternion(q.w * s, q.x * s, q.y * s, q.z * s)
  }

  /** The Hamilton product `q * q2`. */
  function Mul(q: Quaternion, q2: Quaternion): Quaternion {
    Quaternion(
      q.w * q2.w - q.x * q2.x - q.y * q2.y - q.z * q2.z,
      q.w * q2.x + q.x * q2.w + q.y * q2.z - q.z * q2.y,
      q.w * q2.y - q.x * q2.z + q.y * q2.w + q.z * q2.x,
      q.w * q2.z + q.x * q2.y - q.y * q2.x + q.z * q2.w)
  }

  /** The square of the norm: the sum of the squares of the four components. */
  function NormSquared(q: Quaternion): real {
    q.w * q.w + q.x * q.x + q.y * q.y + q.z * q.z
  }

  /** The conjugate: the real part kept, the imaginary part negated. Adding it to `q`
      leaves twice the real part, and multiplying by it leaves the squared norm. */
  function Conjugate(q: Quaternion): (r: Quaternion)
    ensures Add(q, r) == Quaternion(2.0 * q.w, 0.0, 0.0, 0.0)
    ensures Mul(q, r) == Quaternion(NormSquared(q), 0.0, 0.0, 0.0)
    ensures Mul(r, q) == Quaternion(NormSquared(q), 0.0, 0.0, 0.0)
  {
    Quaternion(q.w, -q.x, -q.y, -q.z)
  }

  /** Every component divided by `d`. */
  function Divide(q: Quaternion, d: real): Quaternion
    requires d != 0.0
  {
    Quaternion(q.w / d, q.x / d, q.y / d, q.z / d)
  }

  /** The multiplicative inverse: the conjugate divided by the squared norm. The source
      computes `Norm() * Norm()`, the square of a square root, which over the reals is
      `NormSquared(q)`; it panics when the norm is zero, so that case is excluded here. */
  function Inverse(q: Quaternion): (r: Quaternion)
    requires NormSquared(q) != 0.0
    ensures Mul(q, r) == One && Mul(r, q) == One
  {
    InverseCancels(q);
    Divide(Conjugate(q), NormSquared(q))
  }

  /** Multiplying by the conjugate divided by the squared norm gives 1 on either side. */
  lemma InverseCancels(q: Quaternion)
    requires NormSquared(q) != 0.0
    ensures Mul(q, Divide(Conjugate(q), NormSquared(q))) == One
    ensures Mul(Divide(Conjugate(q), NormSquared(q)), q) == One
  {
    var r := Divide(Conjugate(q), NormSquared(q));
    InverseComponents(q.w, q.x, q.y, q.z, NormSquared(q), r.w, r.x, r.y, r.z);
  }

  /** The arithmetic behind `InverseCancels`, on the components of `q` and of the
      candidate inverse `r`: both Hamilton products come out as 1. */
  lemma InverseComponents(w: real, x: real, y: real, z: real, n2: real, rw: real, rx: real, ry: real, rz: real)
    requires n2 == w * w + x * x + y * y + z * z && n2 != 0.0
    requires rw == w / n2 && rx == -x / n2 && ry == -y / n2 && rz == -z / n2
    ensures w * rw - x * rx - y * ry - z * rz == 1.0
    ensures w * rx + x * rw + y * rz - z * ry == 0.0
    ensures w * ry - x * rz + y * rw + z * rx == 0.0
    ensures w * rz + x * ry - y * rx + z * rw == 0.0
    ensures rw * w - rx * x - ry * y - rz * z == 1.0
    ensures rw * x + rx * w + ry * z - rz * y == 0.0
    ensures rw * y - rx * z + ry * w + rz * x == 0.0
    ensures rw * z + rx * y - ry * x + rz * w == 0.0
  {
  }

  /** The squared norm is non-negative and zero only for the zero quaternion, so a
      non-zero quaternion always has an inverse. */
  lemma NormSquaredZeroIffZero(q: Quaternion)
    ensures NormSquared(q) >= 0.0
    ensures NormSquared(q) == 0.0 <==> q == Quaternion(0.0, 0.0, 0.0, 0.0)
  {
    Reals.SquareNonNegative(q.w);
    Reals.SquareNonNegative(q.x);
    Reals.SquareNonNegative(q.y);
    Reals.SquareNonNegative(q.z);
    if NormSquared(q) == 0.0 {
      Reals.SquareZero(q.w);
      Reals.SquareZero(q.x);
      Reals.SquareZero(q.y);
      Reals.SquareZero(q.z);
    }
  }

  /** Subtracting what was added gives the original back, and the other way round. */
  lemma SubUndoesAdd(p: Quaternion, q: Quaternion)
    ensures Sub(Add(p, q), q) == p
    ensures Add(Sub(p, q), q) == p
  {
  }

  /** Conjugating twice is the identity. */
  lemma ConjugateInvolution(q: Quaternion)
    ensures Conjugate(Conjugate(q)) == q
  {
  }

  /** The conjugate of a product is the product of the conjugates in reverse order. */
  lemma ConjugateOfProduct(p: Quaternion, q: Quaternion)
    ensures Conjugate(Mul(p, q)) == Mul(Conjugate(q), Conjugate(p))
  {
    var m := Mul(p, q);
    ProductComponents(p.w, p.x, p.y, p.z, q.w, q.x, q.y, q.z, m.w, m.x, m.y, m.z);
    assert Conjugate(m) == Quaternion(m.w, -m.x, -m.y, -m.z);
    assert Mul(Conjugate(q), Conjugate(p)) == Quaternion(
      q.w * p.w - (-q.x) * (-p.x) - (-q.y) * (-p.y) - (-q.z) * (-p.z),
      q.w * (-p.x) + (-q.x) * p.w + (-q.y) * (-p.z) - (-q.z) * (-p.y),
      q.w * (-p.y) - (-q.x) * (-p.z) + (-q.y) * p.w + (-q.z) * (-p.x),
      q.w * (-p.z) + (-q.x) * (-p.y) - (-q.y) * (-p.x) + (-q.z) * p.w);
  }

  /** 1 is a two-sided identity of the Hamilton product. */
  lemma MulIdentity(q: Quaternion)
    ensures Mul(One, q) == q
    ensures Mul(q, One) == q
  {
  }

  /** Hamilton's rules: i² = j² = k² = ijk = -1, ij = k, jk = i, ki = j, and reversing
      the order negates the product, so the product is not commutative. */
  lemma HamiltonRules()
    ensures Mul(I, I) == Scale(One, -1.0) && Mul(J, J) == Scale(One, -1.0) && Mul(K, K) == Scale(One, -1.0)
    ensures Mul(Mul(I, J), K) == Scale(One, -1.0)
    ensures Mul(I, J) == K && Mul(J, K) == I && Mul(K, I) == J
    ensures Mul(J, I) == Scale(K, -1.0) && Mul(K, J) == Scale(I, -1.0) && Mul(I, K) == Scale(J, -1.0)
    ensures Mul(I, J) != Mul(J, I)
  {
  }

  /** The squared norm is multiplicative. */
  lemma NormSquaredOfProduct(p: Quaternion, q: Quaternion)
    ensures NormSquared(Mul(p, q)) == NormSquared(p) * NormSquared(q)
  {
    var m := Mul(p, q);
    ProductComponents(p.w, p.x, p.y, p.z, q.w, q.x, q.y, q.z, m.w, m.x, m.y, m.z);
    assert NormSquared(m) == m.w * m.w + m.x * m.x + m.y * m.y + m.z * m.z;
    assert NormSquared(p) == p.w * p.w + p.x * p.x + p.y * p.y + p.z * p.z;
    assert NormSquared(q) == q.w * q.w + q.x * q.x + q.y * q.y + q.z * q.z;
  }

  /** The arithmetic behind `ConjugateOfProduct` and `NormSquaredOfProduct`, on the
      components of `p`, `q` and their Hamilton product `m`. */
  lemma ProductComponents(pw: real, px: real, py: real, pz: real, qw: real, qx: real, qy: real, qz: real,
                          mw: real, mx: real, my: real, mz: real)
    requires mw == pw * qw - px * qx - py * qy - pz * qz
    requires mx == pw * qx + px * qw + py * qz - pz * qy
    requires my == pw * qy - px * qz + py * qw + pz * qx
    requires mz == pw * qz + px * qy - py * qx + pz * qw
    ensures mw == qw * pw - (-qx) * (-px) - (-qy) * (-py) - (-qz) * (-pz)
    ensures -mx == qw * (-px) + (-qx) * pw + (-qy) * (-pz) - (-qz) * (-py)
    ensures -my == qw * (-py) - (-qx) * (-pz) + (-qy) * pw + (-qz) * (-px)
    ensures -mz == qw * (-pz) + (-qx) * (-py) - (-qy) * (-px) + (-qz) * pw
    ensures mw * mw + mx * mx + my * my + mz * mz
         == (pw * pw + px * px + py * py + pz * pz) * (qw * qw + qx * qx + qy * qy + qz * qz)
  {
  }

  /** 1 is its own inverse. */
  lemma InverseOfOne()
    ensures Inverse(One) == One
  {
  }
}
