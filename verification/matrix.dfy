/** Dense real matrices: the `Matrix` type of matrix.go and its operations. The source's
    pointer receivers and in-place updates (`Invert`, `MultiplyScalar`, `DivideScalar`)
    become functions that return the updated matrix. The fixed-size operations
    (`Determinant`, `Invert`, `MultiplyVector`) read the top-left 3x3 block. */
module Matrices {

  import Vec3
  import Algebra3

  /** `rows` and `columns` are the recorded dimensions; `data` holds the entries row by row. */
  datatype Matrix = Matrix(rows: nat, columns: nat, data: seq<seq<real>>)

  /** The only error the source reports: operands whose dimensions do not fit. */
  datatype Error = DimensionMismatch(message: string)

  datatype Result<T> = Ok(value: T) | Err(error: Error)

  const AddMismatch: string := "matrices must have the same dimensions to add"
  const SubtractMismatch: string := "matrices must have the same dimensions to subtract"
  const MultiplyMismatch: string :=
    "number of columns of the first matrix must equal the number of rows of the second matrix"

  /** The data has exactly `rows` rows of `columns` entries each. Every matrix the source
      builds with `NewMatrix` has this shape, and its loops index the data up to the
      recorded dimensions. */
  predicate Valid(m: Matrix) {
    |m.data| == m.rows && forall i | 0 <= i < |m.data| :: |m.data[i]| == m.columns
  }

  predicate SameShape(m: Matrix, other: Matrix) {
    m.rows == other.rows && m.columns == other.columns
  }

  /** Large enough for the operations that read the top-left 3x3 block unchecked; on a
      smaller matrix the source indexes out of range and panics. */
  predicate HasBlock3(m: Matrix) {
    Valid(m) && m.rows >= 3 && m.columns >= 3
  }

  /** A `rows` x `columns` matrix of zeros. */
  function NewMatrix(rows: nat, columns: nat): (m: Matrix)
    ensures Valid(m) && m.rows == rows && m.columns == columns
    ensures forall i, j | 0 <= i < rows && 0 <= j < columns :: m.data[i][j] == 0.0
  {
    Matrix(rows, columns, seq(rows, i => seq(columns, j => 0.0)))
  }

  /** Entry-wise sum; an error when the dimensions differ. */
  function Add(m: Matrix, other: Matrix): (r: Result<Matrix>)
    requires Valid(m) && Valid(other)
    ensures r.Err? <==> !SameShape(m, other)
    ensures r.Err? ==> r.error == DimensionMismatch(AddMismatch)
    ensures r.Ok? ==> Valid(r.value) && SameShape(r.value, m)
    ensures r.Ok? ==> forall i, j | 0 <= i < m.rows && 0 <= j < m.columns ::
      r.value.data[i][j] == m.data[i][j] + other.data[i][j]
  {
    if m.rows != other.rows || m.columns != other.columns then
      Err(DimensionMismatch(AddMismatch))
    else
      Ok(Matrix(m.rows, m.columns,
        seq(m.rows, i requires 0 <= i < m.rows =>
          seq(m.columns, j requires 0 <= j < m.columns => m.data[i][j] + other.data[i][j]))))
  }

  /** Entry-wise difference `m - other`; an error when the dimensions differ. */
  function Subtract(m: Matrix, other: Matrix): (r: Result<Matrix>)
    requires Valid(m) && Valid(other)
    ensures r.Err? <==> !SameShape(m, other)
    ensures r.Err? ==> r.error == DimensionMismatch(SubtractMismatch)
    ensures r.Ok? ==> Valid(r.value) && SameShape(r.value, m)
    ensures r.Ok? ==> forall i, j | 0 <= i < m.rows && 0 <= j < m.columns ::
      r.value.data[i][j] == m.data[i][j] - other.data[i][j]
  {
    if m.rows != other.rows || m.columns != other.columns then
      Err(DimensionMismatch(SubtractMismatch))
    else
      Ok(Matrix(m.rows, m.columns,
        seq(m.rows, i requires 0 <= i < m.rows =>
          seq(m.columns, j requires 0 <= j < m.columns => m.data[i][j] - other.data[i][j]))))
  }

  /** The sum of `a[i][k] * b[k][j]` over `k < n`, accumulated from zero in increasing `k`,
      the order in which the source's innermost loop adds to the result entry. */
  function RowTimesColumn(a: Matrix, b: Matrix, i: nat, j: nat, n: nat): real
    requires Valid(a) && Valid(b) && i < a.rows && j < b.columns && n <= a.columns && n <= b.rows
  {
    if n == 0 then 0.0 else RowTimesColumn(a, b, i, j, n - 1) + a.data[i][n - 1] * b.data[n - 1][j]
  }

  /** The matrix product; an error when the column count of `m` differs from the row
      count of `other`. */
  function Multiply(m: Matrix, other: Matrix): (r: Result<Matrix>)
    requires Valid(m) && Valid(other)
    ensures r.Err? <==> m.columns != other.rows
    ensures r.Err? ==> r.error == DimensionMismatch(MultiplyMismatch)
    ensures r.Ok? ==> Valid(r.value) && r.value.rows == m.rows && r.value.columns == other.columns
    ensures r.Ok? ==> forall i, j | 0 <= i < m.rows && 0 <= j < other.columns ::
      r.value.data[i][j] == RowTimesColumn(m, other, i, j, m.columns)
  {
    if m.columns != other.rows then
      Err(DimensionMismatch(MultiplyMismatch))
    else
      Ok(Matrix(m.rows, other.columns,
        seq(m.rows, i requires 0 <= i < m.rows =>
          seq(other.columns, j requires 0 <= j < other.columns => RowTimesColumn(m, other, i, j, m.columns)))))
  }

  /** The product computed as the source computes it: a zero matrix whose entries are
      accumulated with `+=` in a triple loop. It agrees with `Multiply`. */
  method MultiplyAccumulating(m: Matrix, other: Matrix) returns (r: Result<Matrix>)
    requires Valid(m) && Valid(other)
    ensures r == Multiply(m, other)
  {
    if m.columns != other.rows {
      return Err(DimensionMismatch(MultiplyMismatch));
    }
    var data := NewMatrix(m.rows, other.columns).data;
    for i := 0 to m.rows
      invariant |data| == m.rows
      invariant forall i' | 0 <= i' < m.rows :: |data[i']| == other.columns
      invariant forall i', j' | 0 <= i' < i && 0 <= j' < other.columns ::
        data[i'][j'] == RowTimesColumn(m, other, i', j', m.columns)
      invariant forall i', j' | i <= i' < m.rows && 0 <= j' < other.columns :: data[i'][j'] == 0.0
    {
      for j := 0 to other.columns
        invariant |data| == m.rows
        invariant forall i' | 0 <= i' < m.rows :: |data[i']| == other.columns
        invariant forall i', j' | 0 <= i' < i && 0 <= j' < other.columns ::
          data[i'][j'] == RowTimesColumn(m, other, i', j', m.columns)
        invariant forall j' | 0 <= j' < j :: data[i][j'] == RowTimesColumn(m, other, i, j', m.columns)
        invariant forall j' | j <= j' < other.columns :: data[i][j'] == 0.0
        invariant forall i', j' | i < i' < m.rows && 0 <= j' < other.columns :: data[i'][j'] == 0.0
      {
        var before := data;
        for k := 0 to m.columns
          invariant |data| == m.rows && |data[i]| == other.columns
          invariant forall i' | 0 <= i' < m.rows && i' != i :: data[i'] == before[i']
          invariant forall j' | 0 <= j' < other.columns && j' != j :: data[i][j'] == before[i][j']
          invariant data[i][j] == RowTimesColumn(m, other, i, j, k)
        {
          data := data[i := data[i][j := data[i][j] + m.data[i][k] * other.data[k][j]]];
        }
      }
    }
    var expected := Multiply(m, other).value;
    forall i | 0 <= i < m.rows
      ensures data[i] == expected.data[i]
    {
      assert |data[i]| == |expected.data[i]|;
      assert forall j | 0 <= j < other.columns :: data[i][j] == expected.data[i][j];
    }
    assert data == expected.data;
    r := Ok(Matrix(m.rows, other.columns, data));
  }

  /** Rows and columns swapped. */
  function Transpose(m: Matrix): (r: Matrix)
    requires Valid(m)
    ensures Valid(r) && r.rows == m.columns && r.columns == m.rows
    ensures forall i, j | 0 <= i < m.rows && 0 <= j < m.columns :: r.data[j][i] == m.data[i][j]
  {
    Matrix(m.columns, m.rows,
      seq(m.columns, j requires 0 <= j < m.columns =>
        seq(m.rows, i requires 0 <= i < m.rows => m.data[i][j])))
  }

  /** The determinant of the top-left 3x3 block, by cofactor expansion along the first row. */
  function Determinant(m: Matrix): real
    requires HasBlock3(m)
  {
    Algebra3.Det3(m.data[0][0], m.data[0][1], m.data[0][2],
                  m.data[1][0], m.data[1][1], m.data[1][2],
                  m.data[2][0], m.data[2][1], m.data[2][2])
  }

  /** The cofactor expansion agrees with the Leibniz formula, an independent definition
      of the determinant. */
  lemma DeterminantIsLeibniz(m: Matrix)
    requires HasBlock3(m)
    ensures Determinant(m) == Algebra3.Leibniz3(m.data[0][0], m.data[0][1], m.data[0][2],
                                                m.data[1][0], m.data[1][1], m.data[1][2],
                                                m.data[2][0], m.data[2][1], m.data[2][2])
  {
    var d := m.data;
    Algebra3.CofactorExpansion(d[0][0], d[0][1], d[0][2], d[1][0], d[1][1], d[1][2], d[2][0], d[2][1], d[2][2]);
  }

  /** The adjugate of the top-left 3x3 block, entry by entry as the source writes it: entry
      `(i, j)` is the 2x2 determinant complementary to entry `(j, i)`, with its sign. */
  function Adjugate(m: Matrix): (adj: seq<seq<real>>)
    requires HasBlock3(m)
    ensures |adj| == 3 && forall k | 0 <= k < 3 :: |adj[k]| == 3
  {
    var a, b, c := m.data[0][0], m.data[0][1], m.data[0][2];
    var d, e, f := m.data[1][0], m.data[1][1], m.data[1][2];
    var g, h, i := m.data[2][0], m.data[2][1], m.data[2][2];
    [[Algebra3.Det2(e, f, h, i), Algebra3.Det2(c, b, i, h), Algebra3.Det2(b, c, e, f)],
     [Algebra3.Det2(f, d, i, g), Algebra3.Det2(a, c, g, i), Algebra3.Det2(c, a, f, d)],
     [Algebra3.Det2(d, e, g, h), Algebra3.Det2(g, a, h, b), Algebra3.Det2(a, b, d, e)]]
  }

  /** Entry `(i, j)` of an identity matrix. */
  function IdentityEntry(i: int, j: int): real {
    if i == j then 1.0 else 0.0
  }

  /** `inv` undoes `m` on the top-left 3x3 block from both sides: the 3x3 products of the
      two blocks, in either order, are the 3x3 identity. */
  predicate InverseOnBlock(m: Matrix, inv: Matrix)
    requires HasBlock3(m) && HasBlock3(inv)
  {
    forall i, j | 0 <= i < 3 && 0 <= j < 3 ::
      RowTimesColumn(m, inv, i, j, 3) == IdentityEntry(i, j) && RowTimesColumn(inv, m, i, j, 3) == IdentityEntry(i, j)
  }

  /** The inverse of the top-left 3x3 block, written over that block: the adjugate divided
      by the determinant. A matrix whose determinant is zero is returned unchanged, and
      entries outside the block are never touched. */
  function Invert(m: Matrix): (r: Matrix)
    requires HasBlock3(m)
    ensures HasBlock3(r) && SameShape(r, m)
    ensures forall i, j | 0 <= i < m.rows && 0 <= j < m.columns && (i >= 3 || j >= 3) ::
      r.data[i][j] == m.data[i][j]
    ensures Determinant(m) == 0.0 ==> r == m
    ensures Determinant(m) != 0.0 ==> InverseOnBlock(m, r)
  {
    var det := Determinant(m);
    if det == 0.0 then m
    else
      var invDet := 1.0 / det;
      var adj := Adjugate(m);
      var r := Matrix(m.rows, m.columns,
        seq(m.rows, i requires 0 <= i < m.rows =>
          seq(m.columns, j requires 0 <= j < m.columns =>
            if i < 3 && j < 3 then adj[i][j] * invDet else m.data[i][j])));
      InvertedBlockCancels(m, r, invDet);
      r
  }

  /** A matrix whose block is the adjugate scaled by the reciprocal `inv` of the
      determinant is an inverse of `m` on that block. */
  lemma InvertedBlockCancels(m: Matrix, r: Matrix, inv: real)
    requires HasBlock3(m) && HasBlock3(r) && Determinant(m) * inv == 1.0
    requires forall i, j | 0 <= i < 3 && 0 <= j < 3 :: r.data[i][j] == Adjugate(m)[i][j] * inv
    ensures InverseOnBlock(m, r)
  {
    BlockTimesInvertedColumn0(m, r, inv);
    BlockTimesInvertedColumn1(m, r, inv);
    BlockTimesInvertedColumn2(m, r, inv);
    InvertedRow0TimesBlock(m, r, inv);
    InvertedRow1TimesBlock(m, r, inv);
    InvertedRow2TimesBlock(m, r, inv);
  }

  /** Column 0 of the block product `m * r`, for `r` as in `InvertedBlockCancels`. */
  lemma BlockTimesInvertedColumn0(m: Matrix, r: Matrix, inv: real)
    requires HasBlock3(m) && HasBlock3(r) && Determinant(m) * inv == 1.0
    requires r.data[0][0] == Algebra3.Det2(m.data[1][1], m.data[1][2], m.data[2][1], m.data[2][2]) * inv
    requires r.data[1][0] == Algebra3.Det2(m.data[1][2], m.data[1][0], m.data[2][2], m.data[2][0]) * inv
    requires r.data[2][0] == Algebra3.Det2(m.data[1][0], m.data[1][1], m.data[2][0], m.data[2][1]) * inv
    ensures RowTimesColumn(m, r, 0, 0, 3) == IdentityEntry(0, 0)
    ensures RowTimesColumn(m, r, 1, 0, 3) == IdentityEntry(1, 0)
    ensures RowTimesColumn(m, r, 2, 0, 3) == IdentityEntry(2, 0)
  {
    var d := m.data;
    Algebra3.InverseColumn0(d[0][0], d[0][1], d[0][2], d[1][0], d[1][1], d[1][2], d[2][0], d[2][1], d[2][2],
      Determinant(m), inv, r.data[0][0], r.data[1][0], r.data[2][0]);
    RowTimesColumn3(m, r, 0, 0);
    RowTimesColumn3(m, r, 1, 0);
    RowTimesColumn3(m, r, 2, 0);
  }

  /** Column 1 of the block product `m * r`, for `r` as in `InvertedBlockCancels`. */
  lemma BlockTimesInvertedColumn1(m: Matrix, r: Matrix, inv: real)
    requires HasBlock3(m) && HasBlock3(r) && Determinant(m) * inv == 1.0
    requires r.data[0][1] == Algebra3.Det2(m.data[0][2], m.data[0][1], m.data[2][2], m.data[2][1]) * inv
    requires r.data[1][1] == Algebra3.Det2(m.data[0][0], m.data[0][2], m.data[2][0], m.data[2][2]) * inv
    requires r.data[2][1] == Algebra3.Det2(m.data[2][0], m.data[0][0], m.data[2][1], m.data[0][1]) * inv
    ensures RowTimesColumn(m, r, 0, 1, 3) == IdentityEntry(0, 1)
    ensures RowTimesColumn(m, r, 1, 1, 3) == IdentityEntry(1, 1)
    ensures RowTimesColumn(m, r, 2, 1, 3) == IdentityEntry(2, 1)
  {
    var d := m.data;
    Algebra3.InverseColumn1(d[0][0], d[0][1], d[0][2], d[1][0], d[1][1], d[1][2], d[2][0], d[2][1], d[2][2],
      Determinant(m), inv, r.data[0][1], r.data[1][1], r.data[2][1]);
    RowTimesColumn3(m, r, 0, 1);
    RowTimesColumn3(m, r, 1, 1);
    RowTimesColumn3(m, r, 2, 1);
  }

  /** Column 2 of the block product `m * r`, for `r` as in `InvertedBlockCancels`. */
  lemma BlockTimesInvertedColumn2(m: Matrix, r: Matrix, inv: real)
    requires HasBlock3(m) && HasBlock3(r) && Determinant(m) * inv == 1.0
    requires r.data[0][2] == Algebra3.Det2(m.data[0][1], m.data[0][2], m.data[1][1], m.data[1][2]) * inv
    requires r.data[1][2] == Algebra3.Det2(m.data[0][2], m.data[0][0], m.data[1][2], m.data[1][0]) * inv
    requires r.data[2][2] == Algebra3.Det2(m.data[0][0], m.data[0][1], m.data[1][0], m.data[1][1]) * inv
    ensures RowTimesColumn(m, r, 0, 2, 3) == IdentityEntry(0, 2)
    ensures RowTimesColumn(m, r, 1, 2, 3) == IdentityEntry(1, 2)
    ensures RowTimesColumn(m, r, 2, 2, 3) == IdentityEntry(2, 2)
  {
    var d := m.data;
    Algebra3.InverseColumn2(d[0][0], d[0][1], d[0][2], d[1][0], d[1][1], d[1][2], d[2][0], d[2][1], d[2][2],
      Determinant(m), inv, r.data[0][2], r.data[1][2], r.data[2][2]);
    RowTimesColumn3(m, r, 0, 2);
    RowTimesColumn3(m, r, 1, 2);
    RowTimesColumn3(m, r, 2, 2);
  }

  /** Row 0 of the block product `r * m`, for `r` as in `InvertedBlockCancels`. */
  lemma InvertedRow0TimesBlock(m: Matrix, r: Matrix, inv: real)
    requires HasBlock3(m) && HasBlock3(r) && Determinant(m) * inv == 1.0
    requires r.data[0][0] == Algebra3.Det2(m.data[1][1], m.data[1][2], m.data[2][1], m.data[2][2]) * inv
    requires r.data[0][1] == Algebra3.Det2(m.data[0][2], m.data[0][1], m.data[2][2], m.data[2][1]) * inv
    requires r.data[0][2] == Algebra3.Det2(m.data[0][1], m.data[0][2], m.data[1][1], m.data[1][2]) * inv
    ensures RowTimesColumn(r, m, 0, 0, 3) == IdentityEntry(0, 0)
    ensures RowTimesColumn(r, m, 0, 1, 3) == IdentityEntry(0, 1)
    ensures RowTimesColumn(r, m, 0, 2, 3) == IdentityEntry(0, 2)
  {
    var d := m.data;
    Algebra3.InverseRow0(d[0][0], d[0][1], d[0][2], d[1][0], d[1][1], d[1][2], d[2][0], d[2][1], d[2][2],
      Determinant(m), inv, r.data[0][0], r.data[0][1], r.data[0][2]);
    RowTimesColumn3(r, m, 0, 0);
    RowTimesColumn3(r, m, 0, 1);
    RowTimesColumn3(r, m, 0, 2);
  }

  /** Row 1 of the block product `r * m`, for `r` as in `InvertedBlockCancels`. */
  lemma InvertedRow1TimesBlock(m: Matrix, r: Matrix, inv: real)
    requires HasBlock3(m) && HasBlock3(r) && Determinant(m) * inv == 1.0
    requires r.data[1][0] == Algebra3.Det2(m.data[1][2], m.data[1][0], m.data[2][2], m.data[2][0]) * inv
    requires r.data[1][1] == Algebra3.Det2(m.data[0][0], m.data[0][2], m.data[2][0], m.data[2][2]) * inv
    requires r.data[1][2] == Algebra3.Det2(m.data[0][2], m.data[0][0], m.data[1][2], m.data[1][0]) * inv
    ensures RowTimesColumn(r, m, 1, 0, 3) == IdentityEntry(1, 0)
    ensures RowTimesColumn(r, m, 1, 1, 3) == IdentityEntry(1, 1)
    ensures RowTimesColumn(r, m, 1, 2, 3) == IdentityEntry(1, 2)
  {
    var d := m.data;
    Algebra3.InverseRow1(d[0][0], d[0][1], d[0][2], d[1][0], d[1][1], d[1][2], d[2][0], d[2][1], d[2][2],
      Determinant(m), inv, r.data[1][0], r.data[1][1], r.data[1][2]);
    RowTimesColumn3(r, m, 1, 0);
    RowTimesColumn3(r, m, 1, 1);
    RowTimesColumn3(r, m, 1, 2);
  }

  /** Row 2 of the block product `r * m`, for `r` as in `InvertedBlockCancels`. */
  lemma InvertedRow2TimesBlock(m: Matrix, r: Matrix, inv: real)
    requires HasBlock3(m) && HasBlock3(r) && Determinant(m) * inv == 1.0
    requires r.data[2][0] == Algebra3.Det2(m.data[1][0], m.data[1][1], m.data[2][0], m.data[2][1]) * inv
    requires r.data[2][1] == Algebra3.Det2(m.data[2][0], m.data[0][0], m.data[2][1], m.data[0][1]) * inv
    requires r.data[2][2] == Algebra3.Det2(m.data[0][0], m.data[0][1], m.data[1][0], m.data[1][1]) * inv
    ensures RowTimesColumn(r, m, 2, 0, 3) == IdentityEntry(2, 0)
    ensures RowTimesColumn(r, m, 2, 1, 3) == IdentityEntry(2, 1)
    ensures RowTimesColumn(r, m, 2, 2, 3) == IdentityEntry(2, 2)
  {
    var d := m.data;
    Algebra3.InverseRow2(d[0][0], d[0][1], d[0][2], d[1][0], d[1][1], d[1][2], d[2][0], d[2][1], d[2][2],
      Determinant(m), inv, r.data[2][0], r.data[2][1], r.data[2][2]);
    RowTimesColumn3(r, m, 2, 0);
    RowTimesColumn3(r, m, 2, 1);
    RowTimesColumn3(r, m, 2, 2);
  }

  /** A three-term sum of products written out. */
  lemma {:induction false} RowTimesColumn3(a: Matrix, b: Matrix, i: nat, j: nat)
    requires Valid(a) && Valid(b) && i < a.rows && j < b.columns && 3 <= a.columns && 3 <= b.rows
    ensures RowTimesColumn(a, b, i, j, 3)
         == Algebra3.Dot3(a.data[i][0], a.data[i][1], a.data[i][2], b.data[0][j], b.data[1][j], b.data[2][j])
  {
    assert RowTimesColumn(a, b, i, j, 0) == 0.0;
    assert RowTimesColumn(a, b, i, j, 1) == RowTimesColumn(a, b, i, j, 0) + a.data[i][0] * b.data[0][j];
    assert RowTimesColumn(a, b, i, j, 2) == RowTimesColumn(a, b, i, j, 1) + a.data[i][1] * b.data[1][j];
    assert RowTimesColumn(a, b, i, j, 3) == RowTimesColumn(a, b, i, j, 2) + a.data[i][2] * b.data[2][j];
  }

  /** `v` as a 3x1 column matrix. */
  function ColumnOf(v: Vec3.Vector3): (c: Matrix)
    ensures Valid(c) && c.rows == 3 && c.columns == 1
    ensures c.data[0][0] == v.x && c.data[1][0] == v.y && c.data[2][0] == v.z
  {
    Matrix(3, 1, [[v.x], [v.y], [v.z]])
  }

  /** The top-left 3x3 block applied to `v`: component `i` of the result is row `i` of the
      block times `v` taken as a column. */
  function MultiplyVector(m: Matrix, v: Vec3.Vector3): (w: Vec3.Vector3)
    requires HasBlock3(m)
    ensures w.x == RowTimesColumn(m, ColumnOf(v), 0, 0, 3)
    ensures w.y == RowTimesColumn(m, ColumnOf(v), 1, 0, 3)
    ensures w.z == RowTimesColumn(m, ColumnOf(v), 2, 0, 3)
  {
    RowTimesColumn3(m, ColumnOf(v), 0, 0);
    RowTimesColumn3(m, ColumnOf(v), 1, 0);
    RowTimesColumn3(m, ColumnOf(v), 2, 0);
    Vec3.Vector3(
      m.data[0][0] * v.x + m.data[0][1] * v.y + m.data[0][2] * v.z,
      m.data[1][0] * v.x + m.data[1][1] * v.y + m.data[1][2] * v.z,
      m.data[2][0] * v.x + m.data[2][1] * v.y + m.data[2][2] * v.z)
  }

  /** Every entry multiplied by `s`. */
  function MultiplyScalar(m: Matrix, s: real): (r: Matrix)
    requires Valid(m)
    ensures Valid(r) && SameShape(r, m)
    ensures forall i, j | 0 <= i < m.rows && 0 <= j < m.columns :: r.data[i][j] == m.data[i][j] * s
  {
    Matrix(m.rows, m.columns,
      seq(m.rows, i requires 0 <= i < m.rows =>
        seq(m.columns, j requires 0 <= j < m.columns => m.data[i][j] * s)))
  }

  /** Every entry divided by `s`; division by zero leaves the matrix unchanged. */
  function DivideScalar(m: Matrix, s: real): (r: Matrix)
    requires Valid(m)
    ensures Valid(r) && SameShape(r, m)
    ensures s == 0.0 ==> r == m
    ensures s != 0.0 ==> forall i, j | 0 <= i < m.rows && 0 <= j < m.columns :: r.data[i][j] == m.data[i][j] / s
  {
    if s == 0.0 then m
    else
      Matrix(m.rows, m.columns,
        seq(m.rows, i requires 0 <= i < m.rows =>
          seq(m.columns, j requires 0 <= j < m.columns => m.data[i][j] / s)))
  }
}
