/** Laws that relate the matrix operations of module Matrices to each other and to
    reference definitions: inverses, identities, symmetry, and the worked examples of
    matrix_test.go. */
module MatrixLaws {

  import opened Matrices
  import Vec3
  import Algebra3

  /** Two well-formed matrices of the same shape with the same entries are equal. */
  lemma Extensionality(a: Matrix, b: Matrix)
    requires Valid(a) && Valid(b) && SameShape(a, b)
    requires forall i, j | 0 <= i < a.rows && 0 <= j < a.columns :: a.data[i][j] == b.data[i][j]
    ensures a == b
  {
    forall i | 0 <= i < a.rows
      ensures a.data[i] == b.data[i]
    {
      assert |a.data[i]| == |b.data[i]|;
    }
    assert a.data == b.data;
  }

  /** Subtracting what was added gives the first operand back, and so does adding back
      what was subtracted. */
  lemma SubtractUndoesAdd(a: Matrix, b: Matrix)
    requires Valid(a) && Valid(b) && SameShape(a, b)
    ensures Add(a, b).Ok? && Subtract(Add(a, b).value, b) == Ok(a)
    ensures Subtract(a, b).Ok? && Add(Subtract(a, b).value, b) == Ok(a)
  {
    Extensionality(Subtract(Add(a, b).value, b).value, a);
    Extensionality(Add(Subtract(a, b).value, b).value, a);
  }

  /** Addition is commutative, error included: both orders fail with the same message. */
  lemma AddCommutes(a: Matrix, b: Matrix)
    requires Valid(a) && Valid(b)
    ensures Add(a, b) == Add(b, a)
  {
    if SameShape(a, b) {
      Extensionality(Add(a, b).value, Add(b, a).value);
    }
  }

  /** Adding the zero matrix of the same shape changes nothing. */
  lemma AddZero(a: Matrix)
    requires Valid(a)
    ensures Add(a, NewMatrix(a.rows, a.columns)) == Ok(a)
  {
    Extensionality(Add(a, NewMatrix(a.rows, a.columns)).value, a);
  }

  /** Transposing twice gives the matrix back. */
  lemma TransposeInvolution(m: Matrix)
    requires Valid(m)
    ensures Transpose(Transpose(m)) == m
  {
    Extensionality(Transpose(Transpose(m)), m);
  }

  /** Multiplying by one changes nothing; dividing by a non-zero scalar undoes multiplying
      by it, while dividing by zero leaves the zero matrix that multiplying by zero made. */
  lemma DivideUndoesMultiply(m: Matrix, s: real)
    requires Valid(m)
    ensures MultiplyScalar(m, 1.0) == m
    ensures s != 0.0 ==> DivideScalar(MultiplyScalar(m, s), s) == m
    ensures s == 0.0 ==> DivideScalar(MultiplyScalar(m, s), s) == NewMatrix(m.rows, m.columns)
  {
    Extensionality(MultiplyScalar(m, 1.0), m);
    if s != 0.0 {
      Extensionality(DivideScalar(MultiplyScalar(m, s), s), m);
    } else {
      Extensionality(DivideScalar(MultiplyScalar(m, s), s), NewMatrix(m.rows, m.columns));
    }
  }

  /** The `n` x `n` identity matrix. */
  function Identity(n: nat): (id: Matrix)
    ensures Valid(id) && id.rows == n && id.columns == n
    ensures forall i, j | 0 <= i < n && 0 <= j < n :: id.data[i][j] == IdentityEntry(i, j)
  {
    Matrix(n, n, seq(n, i => seq(n, j => IdentityEntry(i, j))))
  }

  /** The first `k` terms of row `i` of `m` times column `j` of the identity pick out
      entry `(i, j)` once `k` has passed `j`. */
  lemma {:induction false} RowTimesIdentity(m: Matrix, i: nat, j: nat, k: nat)
    requires Valid(m) && i < m.rows && j < m.columns && k <= m.columns
    ensures RowTimesColumn(m, Identity(m.columns), i, j, k) == if j < k then m.data[i][j] else 0.0
  {
    if k > 0 {
      RowTimesIdentity(m, i, j, k - 1);
    }
  }

  /** The first `k` terms of row `i` of the identity times column `j` of `m` pick out
      entry `(i, j)` once `k` has passed `i`. */
  lemma {:induction false} IdentityTimesColumn(m: Matrix, i: nat, j: nat, k: nat)
    requires Valid(m) && i < m.rows && j < m.columns && k <= m.rows
    ensures RowTimesColumn(Identity(m.rows), m, i, j, k) == if i < k then m.data[i][j] else 0.0
  {
    if k > 0 {
      IdentityTimesColumn(m, i, j, k - 1);
    }
  }

  /** The identity is a two-sided unit of the matrix product. */
  lemma MultiplyIdentity(m: Matrix)
    requires Valid(m)
    ensures Multiply(m, Identity(m.columns)) == Ok(m)
    ensures Multiply(Identity(m.rows), m) == Ok(m)
  {
    forall i, j | 0 <= i < m.rows && 0 <= j < m.columns
      ensures RowTimesColumn(m, Identity(m.columns), i, j, m.columns) == m.data[i][j]
      ensures RowTimesColumn(Identity(m.rows), m, i, j, m.rows) == m.data[i][j]
    {
      RowTimesIdentity(m, i, j, m.columns);
      IdentityTimesColumn(m, i, j, m.rows);
    }
    Extensionality(Multiply(m, Identity(m.columns)).value, m);
    Extensionality(Multiply(Identity(m.rows), m).value, m);
  }

  /** Row `i` of `a` times column `j` of `b` is row `j` of the transpose of `b` times
      column `i` of the transpose of `a`. */
  lemma {:induction false} RowTimesColumnTransposed(a: Matrix, b: Matrix, i: nat, j: nat, k: nat)
    requires Valid(a) && Valid(b) && i < a.rows && j < b.columns && k <= a.columns && k <= b.rows
    ensures RowTimesColumn(Transpose(b), Transpose(a), j, i, k) == RowTimesColumn(a, b, i, j, k)
  {
    if k > 0 {
      RowTimesColumnTransposed(a, b, i, j, k - 1);
    }
  }

  /** The transpose of a product is the product of the transposes in reverse order; when
      the product is undefined, so is the reversed one, with the same error. */
  lemma TransposeOfProduct(a: Matrix, b: Matrix)
    requires Valid(a) && Valid(b)
    ensures Multiply(a, b).Err? ==> Multiply(Transpose(b), Transpose(a)) == Multiply(a, b)
    ensures Multiply(a, b).Ok? ==> Multiply(Transpose(b), Transpose(a)) == Ok(Transpose(Multiply(a, b).value))
  {
    if a.columns == b.rows {
      var p := Multiply(a, b).value;
      forall i, j | 0 <= i < a.rows && 0 <= j < b.columns {
        RowTimesColumnTransposed(a, b, i, j, a.columns);
      }
      Extensionality(Multiply(Transpose(b), Transpose(a)).value, Transpose(p));
    }
  }

  // The worked examples of matrix_test.go.

  /** A 3x3 matrix from `NewMatrix` is all zeros. */
  lemma NewMatrixExample()
    ensures NewMatrix(3, 3) == Matrix(3, 3, [[0.0, 0.0, 0.0], [0.0, 0.0, 0.0], [0.0, 0.0, 0.0]])
  {
    Extensionality(NewMatrix(3, 3), Matrix(3, 3, [[0.0, 0.0, 0.0], [0.0, 0.0, 0.0], [0.0, 0.0, 0.0]]));
  }

  /** `[[1, 2], [3, 4]] + [[5, 6], [7, 8]] = [[6, 8], [10, 12]]`. */
  lemma AddExample()
    ensures Add(Matrix(2, 2, [[1.0, 2.0], [3.0, 4.0]]), Matrix(2, 2, [[5.0, 6.0], [7.0, 8.0]]))
         == Ok(Matrix(2, 2, [[6.0, 8.0], [10.0, 12.0]]))
  {
    var a, b := Matrix(2, 2, [[1.0, 2.0], [3.0, 4.0]]), Matrix(2, 2, [[5.0, 6.0], [7.0, 8.0]]);
    Extensionality(Add(a, b).value, Matrix(2, 2, [[6.0, 8.0], [10.0, 12.0]]));
  }

  /** `[[5, 6], [7, 8]] - [[1, 2], [3, 4]] = [[4, 4], [4, 4]]`. */
  lemma SubtractExample()
    ensures Subtract(Matrix(2, 2, [[5.0, 6.0], [7.0, 8.0]]), Matrix(2, 2, [[1.0, 2.0], [3.0, 4.0]]))
         == Ok(Matrix(2, 2, [[4.0, 4.0], [4.0, 4.0]]))
  {
    var a, b := Matrix(2, 2, [[5.0, 6.0], [7.0, 8.0]]), Matrix(2, 2, [[1.0, 2.0], [3.0, 4.0]]);
    Extensionality(Subtract(a, b).value, Matrix(2, 2, [[4.0, 4.0], [4.0, 4.0]]));
  }

  /** `[[1, 2, 3], [4, 5, 6]] * [[7, 8], [9, 10], [11, 12]] = [[58, 64], [139, 154]]`. */
  lemma MultiplyExample()
    ensures Multiply(Matrix(2, 3, [[1.0, 2.0, 3.0], [4.0, 5.0, 6.0]]), Matrix(3, 2, [[7.0, 8.0], [9.0, 10.0], [11.0, 12.0]]))
         == Ok(Matrix(2, 2, [[58.0, 64.0], [139.0, 154.0]]))
  {
    var a, b := Matrix(2, 3, [[1.0, 2.0, 3.0], [4.0, 5.0, 6.0]]), Matrix(3, 2, [[7.0, 8.0], [9.0, 10.0], [11.0, 12.0]]);
    RowTimesColumn3(a, b, 0, 0);
    RowTimesColumn3(a, b, 0, 1);
    RowTimesColumn3(a, b, 1, 0);
    RowTimesColumn3(a, b, 1, 1);
    Extensionality(Multiply(a, b).value, Matrix(2, 2, [[58.0, 64.0], [139.0, 154.0]]));
  }

  /** The transpose of `[[1, 2, 3], [4, 5, 6]]` is `[[1, 4], [2, 5], [3, 6]]`. */
  lemma TransposeExample()
    ensures Transpose(Matrix(2, 3, [[1.0, 2.0, 3.0], [4.0, 5.0, 6.0]])) == Matrix(3, 2, [[1.0, 4.0], [2.0, 5.0], [3.0, 6.0]])
  {
    var m := Matrix(2, 3, [[1.0, 2.0, 3.0], [4.0, 5.0, 6.0]]);
    Extensionality(Transpose(m), Matrix(3, 2, [[1.0, 4.0], [2.0, 5.0], [3.0, 6.0]]));
  }

  /** Applying `b` and then `a` to a vector applies their block product: component `i`
      of the result is row `i` of `a * b` times the vector. */
  lemma {:induction false} MultiplyVectorTwice(a: Matrix, b: Matrix, v: Vec3.Vector3, i: nat)
    requires HasBlock3(a) && HasBlock3(b) && i < 3
    ensures RowTimesColumn(a, ColumnOf(MultiplyVector(b, v)), i, 0, 3)
         == Algebra3.Dot3(RowTimesColumn(a, b, i, 0, 3), RowTimesColumn(a, b, i, 1, 3), RowTimesColumn(a, b, i, 2, 3), v.x, v.y, v.z)
  {
    var c, cv := ColumnOf(MultiplyVector(b, v)), ColumnOf(v);
    RowTimesColumn3(a, c, i, 0);
    RowTimesColumn3(b, cv, 0, 0);
    RowTimesColumn3(b, cv, 1, 0);
    RowTimesColumn3(b, cv, 2, 0);
    RowTimesColumn3(a, b, i, 0);
    RowTimesColumn3(a, b, i, 1);
    RowTimesColumn3(a, b, i, 2);
    Algebra3.RowBlockColumnDot(a.data[i][0], a.data[i][1], a.data[i][2],
      b.data[0][0], b.data[0][1], b.data[0][2], b.data[1][0], b.data[1][1], b.data[1][2],
      b.data[2][0], b.data[2][1], b.data[2][2], v.x, v.y, v.z);
  }

  /** On a block with non-zero determinant, the inverted matrix undoes the matrix-vector
      product, applied after it or before it. */
  lemma InvertUndoesMultiplyVector(m: Matrix, v: Vec3.Vector3)
    requires HasBlock3(m) && Determinant(m) != 0.0
    ensures MultiplyVector(Invert(m), MultiplyVector(m, v)) == v
    ensures MultiplyVector(m, MultiplyVector(Invert(m), v)) == v
  {
    var r := Invert(m);
    assert InverseOnBlock(m, r);
    MultiplyVectorTwice(r, m, v, 0);
    MultiplyVectorTwice(r, m, v, 1);
    MultiplyVectorTwice(r, m, v, 2);
    MultiplyVectorTwice(m, r, v, 0);
    MultiplyVectorTwice(m, r, v, 1);
    MultiplyVectorTwice(m, r, v, 2);
  }

  /** A block and its transpose have the same determinant. */
  lemma DeterminantOfTranspose(m: Matrix)
    requires HasBlock3(m)
    ensures HasBlock3(Transpose(m)) && Determinant(Transpose(m)) == Determinant(m)
  {
    var t, d := Transpose(m), m.data;
    assert t.data[0][1] == d[1][0] && t.data[0][2] == d[2][0] && t.data[1][2] == d[2][1];
    assert t.data[1][0] == d[0][1] && t.data[2][0] == d[0][2] && t.data[2][1] == d[1][2];
    assert t.data[0][0] == d[0][0] && t.data[1][1] == d[1][1] && t.data[2][2] == d[2][2];
    DeterminantIsLeibniz(m);
    DeterminantIsLeibniz(t);
    Algebra3.LeibnizOfTranspose(d[0][0], d[0][1], d[0][2], d[1][0], d[1][1], d[1][2], d[2][0], d[2][1], d[2][2]);
  }
}
