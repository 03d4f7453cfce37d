# simul8 linear algebra, modelled in Dafny

This project models the linear-algebra primitives of the Go package `simul8`:

- the dense matrix type of `matrix.go`: construction, entry-wise sum and difference with
  dimension checks, the matrix product, the transpose, the 3x3 determinant and in-place
  inverse, the matrix-vector product, and scaling by a scalar;
- the quaternion type of `quaternion.go`: sum, difference, Hamilton product, conjugate
  and inverse;
- the vector types `Vector2`, `Vector3` and `Vector4` of `vector.go`: sum, difference,
  scaling, inner product and normalisation.

The model works over mathematical reals. The Go `float64` arithmetic is replaced by
exact arithmetic, and the source's `== 0` guards become exact comparisons with zero.
Go's error returns become a `Result` value whose error carries the source's message.
The in-place matrix operations become functions that return the updated matrix.

Modules:

- `Vec2`, `Vec3` and `Vec4` (`vector2.dfy`, `vector3.dfy`, `vector4.dfy`) hold one
  vector type each.
- `Quaternions` (`quaternion.dfy`) holds the quaternion type.
- `Matrices` (`matrix.dfy`) holds the matrix type and its operations.
- `MatrixLaws` (`matrix_laws.dfy`) relates the matrix operations to each other. It covers
  inverses, units, the transpose of a product, and the worked examples of `matrix_test.go`.
- `Algebra3` (`algebra3.dfy`) proves the polynomial identities behind the 3x3
  determinant and inverse. It works over plain reals.
- `Reals` (`reals.dfy`) holds three small facts about squares.

The 3x3 operations (`Determinant`, `Invert`, `MultiplyVector`) read the top-left 3x3
block without checking the matrix's size. On any matrix with at least three rows and
three columns they work on that block and ignore the rest. The model follows this code
behaviour and does not restrict these operations to matrices of exactly 3x3. On a
smaller matrix the source indexes out of range and panics; the model excludes that case
with the precondition `HasBlock3`.

## Model

| member | source | states |
|---|---|---|
| `Matrices.NewMatrix` | matrix.go:15-21 | a well-formed `rows` x `columns` matrix whose entries are all zero |
| `Matrices.Add` | matrix.go:24-35 | fails exactly when the dimensions differ, with the source's message; otherwise a matrix of the same shape whose every entry is the sum of the operands' entries |
| `Matrices.Subtract` | matrix.go:38-49 | fails exactly when the dimensions differ, with the source's message; otherwise a matrix of the same shape whose every entry is the difference of the operands' entries |
| `Matrices.Multiply` | matrix.go:52-65 | fails exactly when the first matrix's column count differs from the second's row count, with the source's message; otherwise a `m.rows` x `other.columns` matrix whose entry `(i, j)` is the sum over `k` of `m[i][k] * other[k][j]`, accumulated from zero in increasing `k` |
| `Matrices.MultiplyAccumulating` | matrix.go:52-65 | the source's triple loop, which adds into a zero matrix with `+=`, computes exactly `Multiply`, error case included |
| `Matrices.Transpose` | matrix.go:68-76 | rows and columns swap, and entry `(j, i)` of the result is entry `(i, j)` of the input |
| `Matrices.DeterminantIsLeibniz` | matrix.go:98-110 | the cofactor expansion along the first row equals the Leibniz sum over the six permutations, which is an independent definition of the determinant |
| `Matrices.Invert` | matrix.go:113-139 | keeps the shape and never changes entries outside the top-left 3x3 block; a zero determinant leaves the matrix unchanged; otherwise the new block is a two-sided inverse of the old one, because both block products are the identity |
| `Matrices.InvertedBlockCancels` | matrix.go:131-139 | a block whose entries are the source's adjugate entries times `1 / det` is a two-sided inverse of the original block |
| `Matrices.BlockTimesInvertedColumn0` | matrix.go:131-139 | column 0 of the original block times the inverted block is column 0 of the identity |
| `Matrices.BlockTimesInvertedColumn1` | matrix.go:131-139 | column 1 of the original block times the inverted block is column 1 of the identity |
| `Matrices.BlockTimesInvertedColumn2` | matrix.go:131-139 | column 2 of the original block times the inverted block is column 2 of the identity |
| `Matrices.InvertedRow0TimesBlock` | matrix.go:131-139 | row 0 of the inverted block times the original block is row 0 of the identity |
| `Matrices.InvertedRow1TimesBlock` | matrix.go:131-139 | row 1 of the inverted block times the original block is row 1 of the identity |
| `Matrices.InvertedRow2TimesBlock` | matrix.go:131-139 | row 2 of the inverted block times the original block is row 2 of the identity |
| `Matrices.RowTimesColumn3` | matrix.go:60-62 | the product loop with three terms is the sum of the three products in row `i` and column `j` |
| `Matrices.MultiplyVector` | matrix.go:142-148 | component `i` of the result is row `i` of the block times the vector taken as a 3x1 column, the entry that `Multiply` would compute |
| `Matrices.MultiplyScalar` | matrix.go:151-157 | keeps the shape and multiplies every entry by the scalar |
| `Matrices.DivideScalar` | matrix.go:160-169 | a zero divisor leaves the matrix unchanged; otherwise every entry is divided by the scalar and the shape is kept |
| `MatrixLaws.SubtractUndoesAdd` | matrix.go:24-49 | on same-shaped matrices, subtracting what was added gives the first operand back, and adding back what was subtracted does too |
| `MatrixLaws.AddCommutes` | matrix.go:24-35 | the sum does not depend on operand order, and neither does the error |
| `MatrixLaws.AddZero` | matrix.go:15-35 | adding a fresh zero matrix of the same shape changes nothing |
| `MatrixLaws.TransposeInvolution` | matrix.go:68-76 | transposing twice gives the matrix back |
| `MatrixLaws.DivideUndoesMultiply` | matrix.go:151-169 | multiplying by one changes nothing; dividing by a non-zero scalar undoes multiplying by it; after multiplying by zero, dividing by zero leaves the zero matrix |
| `MatrixLaws.RowTimesIdentity` | matrix.go:52-65 | the partial product of a row with an identity column picks out one entry once the sum has passed it |
| `MatrixLaws.IdentityTimesColumn` | matrix.go:52-65 | the partial product of an identity row with a column picks out one entry once the sum has passed it |
| `MatrixLaws.MultiplyIdentity` | matrix.go:52-65 | the identity of the matching size is a unit for the product on either side |
| `MatrixLaws.RowTimesColumnTransposed` | matrix.go:52-76 | row `i` of `a` times column `j` of `b` equals row `j` of the transpose of `b` times column `i` of the transpose of `a` |
| `MatrixLaws.TransposeOfProduct` | matrix.go:52-76 | the transpose of a product is the product of the transposes in reverse order; when the product is undefined, the reversed product fails with the same error |
| `MatrixLaws.MultiplyVectorTwice` | matrix.go:142-148 | applying one block to a vector and then another is the same as applying their block product |
| `MatrixLaws.InvertUndoesMultiplyVector` | matrix.go:113-148 | when the determinant is not zero, applying the inverted matrix undoes applying the matrix to a vector, in either order |
| `MatrixLaws.DeterminantOfTranspose` | matrix.go:68-110 | a block and its transpose have the same determinant |
| `MatrixLaws.NewMatrixExample` | matrix_test.go:8-23 | a 3x3 matrix from `NewMatrix` is three rows of three zeros |
| `MatrixLaws.AddExample` | matrix_test.go:25-61 | `[[1,2],[3,4]] + [[5,6],[7,8]] = [[6,8],[10,12]]` |
| `MatrixLaws.SubtractExample` | matrix_test.go:63-99 | `[[5,6],[7,8]] - [[1,2],[3,4]] = [[4,4],[4,4]]` |
| `MatrixLaws.MultiplyExample` | matrix_test.go:101-138 | `[[1,2,3],[4,5,6]] * [[7,8],[9,10],[11,12]] = [[58,64],[139,154]]` |
| `MatrixLaws.TransposeExample` | matrix_test.go:140-165 | the transpose of `[[1,2,3],[4,5,6]]` is `[[1,4],[2,5],[3,6]]` |
| `Algebra3.CofactorExpansion` | matrix.go:98-110 | the source's cofactor formula equals the six-term Leibniz sum |
| `Algebra3.LeibnizOfTranspose` | matrix.go:98-110 | the Leibniz sum does not change when the block is transposed |
| `Algebra3.BlockTimesAdjugateColumn0` | matrix.go:131-139 | each row of the block times column 0 of the source's adjugate is the determinant for row 0 and zero for the other rows |
| `Algebra3.BlockTimesAdjugateColumn1` | matrix.go:131-139 | each row of the block times column 1 of the adjugate is the determinant for row 1 and zero for the other rows |
| `Algebra3.BlockTimesAdjugateColumn2` | matrix.go:131-139 | each row of the block times column 2 of the adjugate is the determinant for row 2 and zero for the other rows |
| `Algebra3.AdjugateRow0TimesBlock` | matrix.go:131-139 | row 0 of the adjugate times each column of the block is the determinant for column 0 and zero for the other columns |
| `Algebra3.AdjugateRow1TimesBlock` | matrix.go:131-139 | row 1 of the adjugate times each column of the block is the determinant for column 1 and zero for the other columns |
| `Algebra3.AdjugateRow2TimesBlock` | matrix.go:131-139 | row 2 of the adjugate times each column of the block is the determinant for column 2 and zero for the other columns |
| `Algebra3.BlockTimesInverseColumn0` | matrix.go:131-139 | with the adjugate entries scaled by `1 / det`, each row of the block times column 0 of the inverse gives column 0 of the identity |
| `Algebra3.BlockTimesInverseColumn1` | matrix.go:131-139 | with the adjugate entries scaled by `1 / det`, each row of the block times column 1 of the inverse gives column 1 of the identity |
| `Algebra3.BlockTimesInverseColumn2` | matrix.go:131-139 | with the adjugate entries scaled by `1 / det`, each row of the block times column 2 of the inverse gives column 2 of the identity |
| `Algebra3.InverseRow0TimesBlock` | matrix.go:131-139 | row 0 of the scaled adjugate times each column of the block gives row 0 of the identity |
| `Algebra3.InverseRow1TimesBlock` | matrix.go:131-139 | row 1 of the scaled adjugate times each column of the block gives row 1 of the identity |
| `Algebra3.InverseRow2TimesBlock` | matrix.go:131-139 | row 2 of the scaled adjugate times each column of the block gives row 2 of the identity |
| `Algebra3.RowBlockColumn` | matrix.go:142-148 | a row times a block times a column associates, which makes two matrix-vector products compose |
| `Quaternions.New` | quaternion.go:14-16 | the quaternion with exactly the given four components |
| `Quaternions.Conjugate` | quaternion.go:54-56 | adding a quaternion to its conjugate leaves twice the real part; multiplying a quaternion by its conjugate, on either side, gives the real quaternion whose value is the squared norm |
| `Quaternions.Inverse` | quaternion.go:59-71 | defined when the squared norm is not zero, which is the case the source does not panic on; the result is a two-sided inverse under the Hamilton product |
| `Quaternions.InverseCancels` | quaternion.go:64-70 | the conjugate divided by the squared norm is a two-sided inverse under the Hamilton product |
| `Quaternions.InverseComponents` | quaternion.go:59-71 | component by component, the Hamilton products of a quaternion and its conjugate divided by the squared norm equal 1, on either side |
| `Quaternions.NormSquaredZeroIffZero` | quaternion.go:49-51 | the sum of squares under the norm's square root is non-negative, and it is zero only for the zero quaternion |
| `Quaternions.SubUndoesAdd` | quaternion.go:19-36 | subtracting what was added gives the quaternion back, and so does adding back what was subtracted |
| `Quaternions.ConjugateInvolution` | quaternion.go:54-56 | conjugating twice gives the quaternion back |
| `Quaternions.ConjugateOfProduct` | quaternion.go:39-56 | the conjugate of a product is the product of the conjugates in reverse order |
| `Quaternions.MulIdentity` | quaternion.go:39-46 | `1` is a two-sided unit of the Hamilton product |
| `Quaternions.HamiltonRules` | quaternion.go:39-46 | i² = j² = k² = ijk = -1; ij = k, jk = i and ki = j; reversing each of these products negates it, so the product is not commutative |
| `Quaternions.NormSquaredOfProduct` | quaternion.go:39-51 | the squared norm of a product is the product of the squared norms |
| `Quaternions.ProductComponents` | quaternion.go:39-46 | component by component, the conjugate of a Hamilton product is the reversed product of the conjugates, and the sum of squares is multiplicative |
| `Quaternions.InverseOfOne` | quaternion.go:59-71 | the inverse of `1` is `1` |
| `Vec2.Normalise` | vector.go:44-50 | the result is the zero vector exactly when the input is; otherwise it has unit length and scaling it by the magnitude gives the input back |
| `Vec2.MagnitudeZeroIffZero` | vector.go:39-41 | the magnitude is zero exactly for the zero vector |
| `Vec2.UnitAfterDivision` | vector.go:49 | dividing both components by a non-zero magnitude gives a non-zero unit vector that scales back to the input |
| `Vec2.SubtractUndoesAdd` | vector.go:19-26 | subtracting what was added gives the vector back, and so does adding back what was subtracted |
| `Vec2.ScaleByOneAndZero` | vector.go:29-31 | scaling by one is the identity; scaling by zero gives the zero vector |
| `Vec2.DotSymmetric` | vector.go:34-36 | the inner product is symmetric |
| `Vec2.DotSelfZeroIffZero` | vector.go:34-36 | a vector's inner product with itself is non-negative, and zero exactly for the zero vector |
| `Vec2.DotLinear` | vector.go:19-36 | the inner product distributes over `Add` and takes `Scale` factors out |
| `Vec3.Normalise` | vector.go:93-99 | the result is the zero vector exactly when the input is; otherwise it has unit length and scaling it by the magnitude gives the input back |
| `Vec3.MagnitudeZeroIffZero` | vector.go:88-90 | the magnitude is zero exactly for the zero vector |
| `Vec3.UnitAfterDivision` | vector.go:98 | dividing every component by a non-zero magnitude gives a non-zero unit vector that scales back to the input |
| `Vec3.SubtractUndoesAdd` | vector.go:68-75 | subtracting what was added gives the vector back, and so does adding back what was subtracted |
| `Vec3.ScaleByOneAndZero` | vector.go:78-80 | scaling by one is the identity; scaling by zero gives the zero vector |
| `Vec3.DotSymmetric` | vector.go:83-85 | the inner product is symmetric |
| `Vec3.DotSelfZeroIffZero` | vector.go:83-85 | a vector's inner product with itself is non-negative, and zero exactly for the zero vector |
| `Vec3.DotLinear` | vector.go:68-85 | the inner product distributes over `Add` and takes `Scale` factors out |
| `Vec4.Normalise` | vector.go:142-148 | the result is the zero vector exactly when the input is; otherwise it has unit length and scaling it by the magnitude gives the input back |
| `Vec4.MagnitudeZeroIffZero` | vector.go:137-139 | the magnitude is zero exactly for the zero vector |
| `Vec4.UnitAfterDivision` | vector.go:147 | dividing every component by a non-zero magnitude gives a non-zero unit vector that scales back to the input |
| `Vec4.SubtractUndoesAdd` | vector.go:117-124 | subtracting what was added gives the vector back, and so does adding back what was subtracted |
| `Vec4.ScaleByOneAndZero` | vector.go:127-129 | scaling by one is the identity; scaling by zero gives the zero vector |
| `Vec4.DotSymmetric` | vector.go:132-134 | the inner product is symmetric |
| `Vec4.DotSelfZeroIffZero` | vector.go:132-134 | a vector's inner product with itself is non-negative, and zero exactly for the zero vector |
| `Vec4.DotLinear` | vector.go:117-134 | the inner product distributes over `Add` and takes `Scale` factors out |

## Left out

- `FromEulerAngles` (matrix.go:79-95) is not modelled. It needs sine and cosine, which cannot be defined here without axioms.
- The `String` methods of all types are not modelled. They only format values for display.
- physics.go is not part of this model. It calls a `Vector2.Multiply` method that vector.go does not define.
- Floating point is not modelled. Rounding, NaN, infinities and overflow are absent, and `det == 0`, `s == 0`, `mag == 0` and `norm == 0` are exact comparisons over the reals.
- `Magnitude` and `Norm` take a square root, which cannot be defined here without axioms.
  - `Normalise` in each vector module takes the magnitude as a parameter constrained by `IsMagnitude`: it is non-negative and its square is the inner product of the vector with itself.
  - `Quaternions.Inverse` divides by the sum of squares, which over the reals is the `norm * norm` the source computes.
- Quaternions.Inverse: the source's panic on a zero norm is modelled as a precondition and not as an outcome. By `NormSquaredZeroIffZero`, the excluded inputs are exactly the zero quaternion.
- The constructors `NewVector2`, `NewVector3` and `NewVector4` are the datatype constructors `Vector2`, `Vector3` and `Vector4`. They only copy their arguments.
- Go pointers and in-place updates are not modelled. `Invert`, `MultiplyScalar` and `DivideScalar` return the updated matrix, and aliasing between operands is not modelled.
- Matrices.NewMatrix: the dimensions are `nat`. Go's `make` panics on a negative row count; a negative column count with zero rows would go unchecked. Neither case is modelled.
- Matrices.Add: requires that each operand's data has exactly the recorded number of rows and columns (`Valid`). A hand-built Go matrix whose slices disagree with its dimensions makes the source panic or ignore extra entries; that case is not modelled. The same holds for Subtract, Multiply, MultiplyAccumulating, Transpose, MultiplyScalar and DivideScalar.
- Matrices.Invert: requires a top-left 3x3 block (`HasBlock3`), and so do Determinant and MultiplyVector. On a smaller matrix the source panics with an index out of range; that case is not modelled.
- Matrices.Adjugate: its contract states only that it is 3x3. What makes it the adjugate is proved by `InvertedBlockCancels` and the `Algebra3` lemmas.
- Matrices.Determinant has no contract of its own. Its meaning is stated by `DeterminantIsLeibniz` and `DeterminantOfTranspose`.
- The vector and quaternion functions `Add`, `Subtract`/`Sub`, `Scale`, `Dot` and `Mul` have no contracts of their own. Their properties are stated by the lemmas listed under "## Model".
