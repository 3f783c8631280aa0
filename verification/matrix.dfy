/** Row-major 4x4 matrices over the reals: the `Matrix4x4` struct (`GLfloat data[4][4]`)
    together with `getIdentityMatrix` and `matrixMultiply`. Float rounding is not modelled. */
module Matrix {

  /** One row `data[i]` of a matrix. */
  type Row = r: seq<real> | |r| == 4 witness [0.0, 0.0, 0.0, 0.0]

  const ZeroRow: Row := [0.0, 0.0, 0.0, 0.0]

  /** `data[i][j]` is `m[i][j]`. */
  type Matrix4x4 = m: seq<Row> | |m| == 4
    witness [ZeroRow, ZeroRow, ZeroRow, ZeroRow]

  /** The homogeneous row (0, 0, 0, 1). */
  const UnitRow3: Row := [0.0, 0.0, 0.0, 1.0]

  /** 1 on the diagonal, 0 elsewhere. */
  function Kronecker(i: int, j: int): real {
    if i == j then 1.0 else 0.0
  }

  /** `getIdentityMatrix`: a zeroed matrix with the four diagonal entries set to 1. */
  function Identity(): (r: Matrix4x4)
    ensures forall i, j | 0 <= i < 4 && 0 <= j < 4 :: r[i][j] == Kronecker(i, j)
  {
    [[1.0, 0.0, 0.0, 0.0],
     [0.0, 1.0, 0.0, 0.0],
     [0.0, 0.0, 1.0, 0.0],
     [0.0, 0.0, 0.0, 1.0]]
  }

  /** Reference definition of a matrix product entry: the sum over k < n of row[k] * right[k][j]. */
  function SumOfProducts(row: Row, right: Matrix4x4, j: int, n: nat): real
    requires 0 <= j < 4 && n <= 4
  {
    if n == 0 then 0.0 else SumOfProducts(row, right, j, n - 1) + row[n - 1] * right[n - 1][j]
  }

  /** The reference sum over all four k, written out. */
  lemma SumOfProductsExpands(row: Row, right: Matrix4x4, j: int)
    requires 0 <= j < 4
    ensures SumOfProducts(row, right, j, 4) ==
      row[0] * right[0][j] + row[1] * right[1][j] + row[2] * right[2][j] + row[3] * right[3][j]
  {
    var a, b, c, d := row[0] * right[0][j], row[1] * right[1][j], row[2] * right[2][j], row[3] * right[3][j];
    assert SumOfProducts(row, right, j, 1) == 0.0 + a;
    assert SumOfProducts(row, right, j, 2) == SumOfProducts(row, right, j, 1) + b;
    assert SumOfProducts(row, right, j, 3) == SumOfProducts(row, right, j, 2) + c;
    assert SumOfProducts(row, right, j, 4) == SumOfProducts(row, right, j, 3) + d;
  }

  /** One entry of `matrixMultiply`, the four products written out as the source does. */
  function ProductEntry(left: Matrix4x4, right: Matrix4x4, i: int, j: int): real
    requires 0 <= i < 4 && 0 <= j < 4
  {
    (left[i][0] * right[0][j]) + (left[i][1] * right[1][j]) +
    (left[i][2] * right[2][j]) + (left[i][3] * right[3][j])
  }

  /** The written-out four-term sum agrees with the reference summation. */
  lemma ProductEntryIsSum(left: Matrix4x4, right: Matrix4x4)
    ensures forall i, j | 0 <= i < 4 && 0 <= j < 4 ::
      ProductEntry(left, right, i, j) == SumOfProducts(left[i], right, j, 4)
  {
    forall i, j | 0 <= i < 4 && 0 <= j < 4
      ensures ProductEntry(left, right, i, j) == SumOfProducts(left[i], right, j, 4)
    {
      var row := left[i];
      assert SumOfProducts(row, right, j, 1) == row[0] * right[0][j];
      assert SumOfProducts(row, right, j, 2) == row[0] * right[0][j] + row[1] * right[1][j];
      assert SumOfProducts(row, right, j, 3) == SumOfProducts(row, right, j, 2) + row[2] * right[2][j];
    }
  }

  /** Row i of `matrixMultiply(left, right)`. */
  function ProductRow(left: Matrix4x4, right: Matrix4x4, i: int): Row
    requires 0 <= i < 4
  {
    [ProductEntry(left, right, i, 0), ProductEntry(left, right, i, 1), ProductEntry(left, right, i, 2), ProductEntry(left, right, i, 3)]
  }

  /** `matrixMultiply(left, right)`: every entry is the sum over k of left[i][k] * right[k][j]. */
  function Multiply(left: Matrix4x4, right: Matrix4x4): (r: Matrix4x4)
    ensures forall i, j | 0 <= i < 4 && 0 <= j < 4 :: r[i][j] == SumOfProducts(left[i], right, j, 4)
  {
    ProductEntryIsSum(left, right);
    [ProductRow(left, right, 0), ProductRow(left, right, 1), ProductRow(left, right, 2), ProductRow(left, right, 3)]
  }

  /** Two matrices are equal when all sixteen entries are. */
  lemma EqualByEntries(a: Matrix4x4, b: Matrix4x4)
    requires forall i, j | 0 <= i < 4 && 0 <= j < 4 :: a[i][j] == b[i][j]
    ensures a == b
  {
    forall i | 0 <= i < 4
      ensures a[i] == b[i]
    {
      assert a[i][0] == b[i][0] && a[i][1] == b[i][1] && a[i][2] == b[i][2] && a[i][3] == b[i][3];
    }
  }

  /** The identity is a left unit: the `matrixMultiply(identity, result)` in `getProjectionMatrix` changes nothing. */
  lemma IdentityIsLeftUnit(m: Matrix4x4)
    ensures Multiply(Identity(), m) == m
  {
    var r := Multiply(Identity(), m);
    forall i, j | 0 <= i < 4 && 0 <= j < 4
      ensures r[i][j] == m[i][j]
    {
      assert r[i][j] == ProductEntry(Identity(), m, i, j);
    }
    EqualByEntries(r, m);
  }

  /** The identity is a right unit. */
  lemma IdentityIsRightUnit(m: Matrix4x4)
    ensures Multiply(m, Identity()) == m
  {
    var r := Multiply(m, Identity());
    forall i, j | 0 <= i < 4 && 0 <= j < 4
      ensures r[i][j] == m[i][j]
    {
      assert r[i][j] == ProductEntry(m, Identity(), i, j);
    }
    EqualByEntries(r, m);
  }

  /** Post-multiplying by a matrix whose column j is the unit column e_j keeps column j. */
  lemma MultiplyKeepsUnitColumn(m: Matrix4x4, right: Matrix4x4, j: int)
    requires 0 <= j < 4
    requires right[0][j] == Kronecker(0, j) && right[1][j] == Kronecker(1, j)
    requires right[2][j] == Kronecker(2, j) && right[3][j] == Kronecker(3, j)
    ensures forall i | 0 <= i < 4 :: Multiply(m, right)[i][j] == m[i][j]
  {
    forall i | 0 <= i < 4
      ensures Multiply(m, right)[i][j] == m[i][j]
    {
      assert Multiply(m, right)[i][j] == ProductEntry(m, right, i, j);
    }
  }

  /** When the left factor's last row is (0, 0, 0, 1), the product's last row is the right factor's. */
  lemma MultiplyByAffineRow3(m: Matrix4x4, right: Matrix4x4)
    requires m[3] == UnitRow3
    ensures Multiply(m, right)[3] == right[3]
  {
    var r := Multiply(m, right);
    forall j | 0 <= j < 4
      ensures r[3][j] == right[3][j]
    {
      assert r[3][j] == ProductEntry(m, right, 3, j);
    }
  }
}
