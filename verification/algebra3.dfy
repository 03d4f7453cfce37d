/** Polynomial identities behind the 3x3 determinant and inverse of module Matrices,
    stated over plain reals. The block's entries are named row by row

        a b c
        d e f
        g h i

    and `det` is its cofactor expansion along the first row. Each lemma takes the
    quantities it relates as parameters fixed by its `requires`. */
module Algebra3 {

  /** The determinant `p * s - q * r` of the 2x2 matrix with rows `p q` and `r s`. */
  function Det2(p: real, q: real, r: real, s: real): real {
    p * s - q * r
  }

  /** The determinant of the block by cofactor expansion along the first row. */
  function Det3(a: real, b: real, c: real, d: real, e: real, f: real, g: real, h: real, i: real): real {
    a * (e * i - f * h) - b * (d * i - f * g) + c * (d * h - e * g)
  }

  /** The dot product of `x0 x1 x2` and `y0 y1 y2`. */
  function Dot3(x0: real, x1: real, x2: real, y0: real, y1: real, y2: real): real {
    x0 * y0 + x1 * y1 + x2 * y2
  }

  /** The determinant of the block as the Leibniz formula gives it: the sum, over the
      six permutations of the column indices, of the signed products of one entry from
      each row. */
  function Leibniz3(a: real, b: real, c: real, d: real, e: real, f: real, g: real, h: real, i: real): real {
    a * e * i + b * f * g + c * d * h - c * e * g - b * d * i - a * f * h
  }

  /** The cofactor expansion along the first row equals the Leibniz sum. */
  lemma CofactorExpansion(a: real, b: real, c: real, d: real, e: real, f: real, g: real, h: real, i: real)
    ensures Det3(a, b, c, d, e, f, g, h, i) == Leibniz3(a, b, c, d, e, f, g, h, i)
  {
  }

  /** The Leibniz sum of the transposed block is that of the block. */
  lemma LeibnizOfTranspose(a: real, b: real, c: real, d: real, e: real, f: real, g: real, h: real, i: real)
    ensures Leibniz3(a, d, g, b, e, h, c, f, i) == Leibniz3(a, b, c, d, e, f, g, h, i)
  {
  }

  /** Scaling the right-hand factors of a three-term dot product by `inv` scales the sum. */
  lemma ScaledRight(x0: real, x1: real, x2: real, y0: real, y1: real, y2: real,
                    z0: real, z1: real, z2: real, inv: real, s: real)
    requires z0 == y0 * inv && z1 == y1 * inv && z2 == y2 * inv
    requires x0 * y0 + x1 * y1 + x2 * y2 == s
    ensures x0 * z0 + x1 * z1 + x2 * z2 == s * inv
  {
  }

  /** Scaling the left-hand factors of a three-term dot product by `inv` scales the sum. */
  lemma ScaledLeft(x0: real, x1: real, x2: real, y0: real, y1: real, y2: real,
                   z0: real, z1: real, z2: real, inv: real, s: real)
    requires z0 == x0 * inv && z1 == x1 * inv && z2 == x2 * inv
    requires x0 * y0 + x1 * y1 + x2 * y2 == s
    ensures z0 * y0 + z1 * y1 + z2 * y2 == s * inv
  {
  }

  /** Each row of the block times column 0 of the adjugate `j`: `det` for row 0, zero
      for the others. */
  lemma BlockTimesAdjugateColumn0(a: real, b: real, c: real, d: real, e: real, f: real, g: real, h: real, i: real, det: real,
      j00: real, j10: real, j20: real)
    requires det == a * (e * i - f * h) - b * (d * i - f * g) + c * (d * h - e * g)
    requires j00 == e * i - f * h && j10 == f * g - d * i && j20 == d * h - e * g
    ensures a * j00 + b * j10 + c * j20 == det
    ensures d * j00 + e * j10 + f * j20 == 0.0
    ensures g * j00 + h * j10 + i * j20 == 0.0
  {
  }

  /** Each row of the block times column 1 of the adjugate `j`: `det` for row 1, zero
      for the others. */
  lemma BlockTimesAdjugateColumn1(a: real, b: real, c: real, d: real, e: real, f: real, g: real, h: real, i: real, det: real,
      j01: real, j11: real, j21: real)
    requires det == a * (e * i - f * h) - b * (d * i - f * g) + c * (d * h - e * g)
    requires j01 == c * h - b * i && j11 == a * i - c * g && j21 == g * b - a * h
    ensures d * j01 + e * j11 + f * j21 == det
    ensures a * j01 + b * j11 + c * j21 == 0.0
    ensures g * j01 + h * j11 + i * j21 == 0.0
  {
  }

  /** Each row of the block times column 2 of the adjugate `j`: `det` for row 2, zero
      for the others. */
  lemma BlockTimesAdjugateColumn2(a: real, b: real, c: real, d: real, e: real, f: real, g: real, h: real, i: real, det: real,
      j02: real, j12: real, j22: real)
    requires det == a * (e * i - f * h) - b * (d * i - f * g) + c * (d * h - e * g)
    requires j02 == b * f - c * e && j12 == c * d - a * f && j22 == a * e - b * d
    ensures g * j02 + h * j12 + i * j22 == det
    ensures a * j02 + b * j12 + c * j22 == 0.0
    ensures d * j02 + e * j12 + f * j22 == 0.0
  {
  }

  /** Row 0 of the adjugate `j` times each column of the block: `det` for column 0,
      zero for the others. */
  lemma AdjugateRow0TimesBlock(a: real, b: real, c: real, d: real, e: real, f: real, g: real, h: real, i: real, det: real,
      j00: real, j01: real, j02: real)
    requires det == a * (e * i - f * h) - b * (d * i - f * g) + c * (d * h - e * g)
    requires j00 == e * i - f * h && j01 == c * h - b * i && j02 == b * f - c * e
    ensures j00 * a + j01 * d + j02 * g == det
    ensures j00 * b + j01 * e + j02 * h == 0.0
    ensures j00 * c + j01 * f + j02 * i == 0.0
  {
  }

  /** Row 1 of the adjugate `j` times each column of the block: `det` for column 1,
      zero for the others. */
  lemma AdjugateRow1TimesBlock(a: real, b: real, c: real, d: real, e: real, f: real, g: real, h: real, i: real, det: real,
      j10: real, j11: real, j12: real)
    requires det == a * (e * i - f * h) - b * (d * i - f * g) + c * (d * h - e * g)
    requires j10 == f * g - d * i && j11 == a * i - c * g && j12 == c * d - a * f
    ensures j10 * b + j11 * e + j12 * h == det
    ensures j10 * a + j11 * d + j12 * g == 0.0
    ensures j10 * c + j11 * f + j12 * i == 0.0
  {
  }

  /** Row 2 of the adjugate `j` times each column of the block: `det` for column 2,
      zero for the others. */
  lemma AdjugateRow2TimesBlock(a: real, b: real, c: real, d: real, e: real, f: real, g: real, h: real, i: real, det: real,
      j20: real, j21: real, j22: real)
    requires det == a * (e * i - f * h) - b * (d * i - f * g) + c * (d * h - e * g)
    requires j20 == d * h - e * g && j21 == g * b - a * h && j22 == a * e - b * d
    ensures j20 * c + j21 * f + j22 * i == det
    ensures j20 * a + j21 * d + j22 * g == 0.0
    ensures j20 * b + j21 * e + j22 * h == 0.0
  {
  }

  /** Column 0 of the inverse, each entry the adjugate entry scaled by `inv`, times
      each row of the block: 1 for row 0, 0 for the others. */
  lemma BlockTimesInverseColumn0(a: real, b: real, c: real, d: real, e: real, f: real, g: real, h: real, i: real, det: real, inv: real, r00: real, r10: real, r20: real)
    requires det == a * (e * i - f * h) - b * (d * i - f * g) + c * (d * h - e * g) && det * inv == 1.0
    requires r00 == (e * i - f * h) * inv && r10 == (f * g - d * i) * inv && r20 == (d * h - e * g) * inv
    ensures a * r00 + b * r10 + c * r20 == 1.0
    ensures d * r00 + e * r10 + f * r20 == 0.0
    ensures g * r00 + h * r10 + i * r20 == 0.0
  {
    BlockTimesAdjugateColumn0(a, b, c, d, e, f, g, h, i, det, e * i - f * h, f * g - d * i, d * h - e * g);
    ScaledRight(a, b, c, e * i - f * h, f * g - d * i, d * h - e * g, r00, r10, r20, inv, det);
    ScaledRight(d, e, f, e * i - f * h, f * g - d * i, d * h - e * g, r00, r10, r20, inv, 0.0);
    ScaledRight(g, h, i, e * i - f * h, f * g - d * i, d * h - e * g, r00, r10, r20, inv, 0.0);
  }

  /** Column 1 of the inverse, each entry the adjugate entry scaled by `inv`, times
      each row of the block: 1 for row 1, 0 for the others. */
  lemma BlockTimesInverseColumn1(a: real, b: real, c: real, d: real, e: real, f: real, g: real, h: real, i: real, det: real, inv: real, r01: real, r11: real, r21: real)
    requires det == a * (e * i - f * h) - b * (d * i - f * g) + c * (d * h - e * g) && det * inv == 1.0
    requires r01 == (c * h - b * i) * inv && r11 == (a * i - c * g) * inv && r21 == (g * b - a * h) * inv
    ensures d * r01 + e * r11 + f * r21 == 1.0
    ensures a * r01 + b * r11 + c * r21 == 0.0
    ensures g * r01 + h * r11 + i * r21 == 0.0
  {
    BlockTimesAdjugateColumn1(a, b, c, d, e, f, g, h, i, det, c * h - b * i, a * i - c * g, g * b - a * h);
    ScaledRight(d, e, f, c * h - b * i, a * i - c * g, g * b - a * h, r01, r11, r21, inv, det);
    ScaledRight(a, b, c, c * h - b * i, a * i - c * g, g * b - a * h, r01, r11, r21, inv, 0.0);
    ScaledRight(g, h, i, c * h - b * i, a * i - c * g, g * b - a * h, r01, r11, r21, inv, 0.0);
  }

  /** Column 2 of the inverse, each entry the adjugate entry scaled by `inv`, times
      each row of the block: 1 for row 2, 0 for the others. */
  lemma BlockTimesInverseColumn2(a: real, b: real, c: real, d: real, e: real, f: real, g: real, h: real, i: real, det: real, inv: real, r02: real, r12: real, r22: real)
    requires det == a * (e * i - f * h) - b * (d * i - f * g) + c * (d * h - e * g) && det * inv == 1.0
    requires r02 == (b * f - c * e) * inv && r12 == (c * d - a * f) * inv && r22 == (a * e - b * d) * inv
    ensures g * r02 + h * r12 + i * r22 == 1.0
    ensures a * r02 + b * r12 + c * r22 == 0.0
    ensures d * r02 + e * r12 + f * r22 == 0.0
  {
    BlockTimesAdjugateColumn2(a, b, c, d, e, f, g, h, i, det, b * f - c * e, c * d - a * f, a * e - b * d);
    ScaledRight(g, h, i, b * f - c * e, c * d - a * f, a * e - b * d, r02, r12, r22, inv, det);
    ScaledRight(a, b, c, b * f - c * e, c * d - a * f, a * e - b * d, r02, r12, r22, inv, 0.0);
    ScaledRight(d, e, f, b * f - c * e, c * d - a * f, a * e - b * d, r02, r12, r22, inv, 0.0);
  }

  /** Row 0 of the inverse, each entry the adjugate entry scaled by `inv`, times each
      column of the block: 1 for column 0, 0 for the others. */
  lemma InverseRow0TimesBlock(a: real, b: real, c: real, d: real, e: real, f: real, g: real, h: real, i: real, det: real, inv: real, r00: real, r01: real, r02: real)
    requires det == a * (e * i - f * h) - b * (d * i - f * g) + c * (d * h - e * g) && det * inv == 1.0
    requires r00 == (e * i - f * h) * inv && r01 == (c * h - b * i) * inv && r02 == (b * f - c * e) * inv
    ensures r00 * a + r01 * d + r02 * g == 1.0
    ensures r00 * b + r01 * e + r02 * h == 0.0
    ensures r00 * c + r01 * f + r02 * i == 0.0
  {
    AdjugateRow0TimesBlock(a, b, c, d, e, f, g, h, i, det, e * i - f * h, c * h - b * i, b * f - c * e);
    ScaledLeft(e * i - f * h, c * h - b * i, b * f - c * e, a, d, g, r00, r01, r02, inv, det);
    ScaledLeft(e * i - f * h, c * h - b * i, b * f - c * e, b, e, h, r00, r01, r02, inv, 0.0);
    ScaledLeft(e * i - f * h, c * h - b * i, b * f - c * e, c, f, i, r00, r01, r02, inv, 0.0);
  }

  /** Row 1 of the inverse, each entry the adjugate entry scaled by `inv`, times each
      column of the block: 1 for column 1, 0 for the others. */
  lemma InverseRow1TimesBlock(a: real, b: real, c: real, d: real, e: real, f: real, g: real, h: real, i: real, det: real, inv: real, r10: real, r11: real, r12: real)
    requires det == a * (e * i - f * h) - b * (d * i - f * g) + c * (d * h - e * g) && det * inv == 1.0
    requires r10 == (f * g - d * i) * inv && r11 == (a * i - c * g) * inv && r12 == (c * d - a * f) * inv
    ensures r10 * b + r11 * e + r12 * h == 1.0
    ensures r10 * a + r11 * d + r12 * g == 0.0
    ensures r10 * c + r11 * f + r12 * i == 0.0
  {
    AdjugateRow1TimesBlock(a, b, c, d, e, f, g, h, i, det, f * g - d * i, a * i - c * g, c * d - a * f);
    ScaledLeft(f * g - d * i, a * i - c * g, c * d - a * f, b, e, h, r10, r11, r12, inv, det);
    ScaledLeft(f * g - d * i, a * i - c * g, c * d - a * f, a, d, g, r10, r11, r12, inv, 0.0);
    ScaledLeft(f * g - d * i, a * i - c * g, c * d - a * f, c, f, i, r10, r11, r12, inv, 0.0);
  }

  /** Row 2 of the inverse, each entry the adjugate entry scaled by `inv`, times each
      column of the block: 1 for column 2, 0 for the others. */
  lemma InverseRow2TimesBlock(a: real, b: real, c: real, d: real, e: real, f: real, g: real, h: real, i: real, det: real, inv: real, r20: real, r21: real, r22: real)
    requires det == a * (e * i - f * h) - b * (d * i - f * g) + c * (d * h - e * g) && det * inv == 1.0
    requires r20 == (d * h - e * g) * inv && r21 == (g * b - a * h) * inv && r22 == (a * e - b * d) * inv
    ensures r20 * c + r21 * f + r22 * i == 1.0
    ensures r20 * a + r21 * d + r22 * g == 0.0
    ensures r20 * b + r21 * e + r22 * h == 0.0
  {
    AdjugateRow2TimesBlock(a, b, c, d, e, f, g, h, i, det, d * h - e * g, g * b - a * h, a * e - b * d);
    ScaledLeft(d * h - e * g, g * b - a * h, a * e - b * d, c, f, i, r20, r21, r22, inv, det);
    ScaledLeft(d * h - e * g, g * b - a * h, a * e - b * d, a, d, g, r20, r21, r22, inv, 0.0);
    ScaledLeft(d * h - e * g, g * b - a * h, a * e - b * d, b, e, h, r20, r21, r22, inv, 0.0);
  }

  /** `BlockTimesInverseColumn0` stated with `Det3`, `Det2` and `Dot3`. */
  lemma InverseColumn0(a: real, b: real, c: real, d: real, e: real, f: real, g: real, h: real, i: real, det: real, inv: real, r00: real, r10: real, r20: real)
    requires det == Det3(a, b, c, d, e, f, g, h, i) && det * inv == 1.0
    requires r00 == Det2(e, f, h, i) * inv && r10 == Det2(f, d, i, g) * inv && r20 == Det2(d, e, g, h) * inv
    ensures Dot3(a, b, c, r00, r10, r20) == 1.0
    ensures Dot3(d, e, f, r00, r10, r20) == 0.0
    ensures Dot3(g, h, i, r00, r10, r20) == 0.0
  {
    BlockTimesInverseColumn0(a, b, c, d, e, f, g, h, i, det, inv, r00, r10, r20);
  }

  /** `BlockTimesInverseColumn1` stated with `Det3`, `Det2` and `Dot3`. */
  lemma InverseColumn1(a: real, b: real, c: real, d: real, e: real, f: real, g: real, h: real, i: real, det: real, inv: real, r01: real, r11: real, r21: real)
    requires det == Det3(a, b, c, d, e, f, g, h, i) && det * inv == 1.0
    requires r01 == Det2(c, b, i, h) * inv && r11 == Det2(a, c, g, i) * inv && r21 == Det2(g, a, h, b) * inv
    ensures Dot3(a, b, c, r01, r11, r21) == 0.0
    ensures Dot3(d, e, f, r01, r11, r21) == 1.0
    ensures Dot3(g, h, i, r01, r11, r21) == 0.0
  {
    BlockTimesInverseColumn1(a, b, c, d, e, f, g, h, i, det, inv, r01, r11, r21);
  }

  /** `BlockTimesInverseColumn2` stated with `Det3`, `Det2` and `Dot3`. */
  lemma InverseColumn2(a: real, b: real, c: real, d: real, e: real, f: real, g: real, h: real, i: real, det: real, inv: real, r02: real, r12: real, r22: real)
    requires det == Det3(a, b, c, d, e, f, g, h, i) && det * inv == 1.0
    requires r02 == Det2(b, c, e, f) * inv && r12 == Det2(c, a, f, d) * inv && r22 == Det2(a, b, d, e) * inv
    ensures Dot3(a, b, c, r02, r12, r22) == 0.0
    ensures Dot3(d, e, f, r02, r12, r22) == 0.0
    ensures Dot3(g, h, i, r02, r12, r22) == 1.0
  {
    BlockTimesInverseColumn2(a, b, c, d, e, f, g, h, i, det, inv, r02, r12, r22);
  }

  /** `InverseRow0TimesBlock` stated with `Det3`, `Det2` and `Dot3`. */
  lemma InverseRow0(a: real, b: real, c: real, d: real, e: real, f: real, g: real, h: real, i: real, det: real, inv: real, r00: real, r01: real, r02: real)
    requires det == Det3(a, b, c, d, e, f, g, h, i) && det * inv == 1.0
    requires r00 == Det2(e, f, h, i) * inv && r01 == Det2(c, b, i, h) * inv && r02 == Det2(b, c, e, f) * inv
    ensures Dot3(r00, r01, r02, a, d, g) == 1.0
    ensures Dot3(r00, r01, r02, b, e, h) == 0.0
    ensures Dot3(r00, r01, r02, c, f, i) == 0.0
  {
    InverseRow0TimesBlock(a, b, c, d, e, f, g, h, i, det, inv, r00, r01, r02);
  }

  /** `InverseRow1TimesBlock` stated with `Det3`, `Det2` and `Dot3`. */
  lemma InverseRow1(a: real, b: real, c: real, d: real, e: real, f: real, g: real, h: real, i: real, det: real, inv: real, r10: real, r11: real, r12: real)
    requires det == Det3(a, b, c, d, e, f, g, h, i) && det * inv == 1.0
    requires r10 == Det2(f, d, i, g) * inv && r11 == Det2(a, c, g, i) * inv && r12 == Det2(c, a, f, d) * inv
    ensures Dot3(r10, r11, r12, a, d, g) == 0.0
    ensures Dot3(r10, r11, r12, b, e, h) == 1.0
    ensures Dot3(r10, r11, r12, c, f, i) == 0.0
  {
    InverseRow1TimesBlock(a, b, c, d, e, f, g, h, i, det, inv, r10, r11, r12);
  }

  /** `InverseRow2TimesBlock` stated with `Det3`, `Det2` and `Dot3`. */
  lemma InverseRow2(a: real, b: real, c: real, d: real, e: real, f: real, g: real, h: real, i: real, det: real, inv: real, r20: real, r21: real, r22: real)
    requires det == Det3(a, b, c, d, e, f, g, h, i) && det * inv == 1.0
    requires r20 == Det2(d, e, g, h) * inv && r21 == Det2(g, a, h, b) * inv && r22 == Det2(a, b, d, e) * inv
    ensures Dot3(r20, r21, r22, a, d, g) == 0.0
    ensures Dot3(r20, r21, r22, b, e, h) == 0.0
    ensures Dot3(r20, r21, r22, c, f, i) == 1.0
  {
    InverseRow2TimesBlock(a, b, c, d, e, f, g, h, i, det, inv, r20, r21, r22);
  }

  /** A row times a 3x3 block times a column associates: `x (B y) == (x B) y`, with `s`
      the entries of `B y` and `t` those of `x B`. */
  lemma RowBlockColumn(x0: real, x1: real, x2: real,
      b00: real, b01: real, b02: real, b10: real, b11: real, b12: real, b20: real, b21: real, b22: real,
      y0: real, y1: real, y2: real, s0: real, s1: real, s2: real, t0: real, t1: real, t2: real)
    requires s0 == b00 * y0 + b01 * y1 + b02 * y2
    requires s1 == b10 * y0 + b11 * y1 + b12 * y2
    requires s2 == b20 * y0 + b21 * y1 + b22 * y2
    requires t0 == x0 * b00 + x1 * b10 + x2 * b20
    requires t1 == x0 * b01 + x1 * b11 + x2 * b21
    requires t2 == x0 * b02 + x1 * b12 + x2 * b22
    ensures x0 * s0 + x1 * s1 + x2 * s2 == t0 * y0 + t1 * y1 + t2 * y2
  {
  }

  /** `RowBlockColumn` stated with `Dot3`. */
  lemma RowBlockColumnDot(x0: real, x1: real, x2: real,
      b00: real, b01: real, b02: real, b10: real, b11: real, b12: real, b20: real, b21: real, b22: real,
      y0: real, y1: real, y2: real)
    ensures Dot3(x0, x1, x2, Dot3(b00, b01, b02, y0, y1, y2), Dot3(b10, b11, b12, y0, y1, y2), Dot3(b20, b21, b22, y0, y1, y2))
         == Dot3(Dot3(x0, x1, x2, b00, b10, b20), Dot3(x0, x1, x2, b01, b11, b21), Dot3(x0, x1, x2, b02, b12, b22), y0, y1, y2)
  {
    RowBlockColumn(x0, x1, x2, b00, b01, b02, b10, b11, b12, b20, b21, b22, y0, y1, y2,
      Dot3(b00, b01, b02, y0, y1, y2), Dot3(b10, b11, b12, y0, y1, y2), Dot3(b20, b21, b22, y0, y1, y2),
      Dot3(x0, x1, x2, b00, b10, b20), Dot3(x0, x1, x2, b01, b11, b21), Dot3(x0, x1, x2, b02, b12, b22));
  }
}
