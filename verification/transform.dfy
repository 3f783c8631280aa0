/** The transform helpers of textured_cube_shader.cpp (repeated verbatim in cube_shader.cpp):
    `getProjectionMatrix`, `getTranslatedMatrix`, `getScaledMatrix` and `getAxisRotatedMatrix`. */
module Transform {
  import opened Matrix

  /** The single-precision constant `PI`, read as the decimal literal the source writes. */
  const Pi: real := 3.1415926535897932384626433832795

  /** The C math library as seen by the model: `std::sin`, `std::cos` and `std::sqrt` are left
      uninterpreted and passed in; only facts IEEE arithmetic guarantees exactly are ever assumed. */
  datatype Libm = Libm(sin: real -> real, cos: real -> real, sqrt: real -> real)

  /** `getProjectionMatrix`: the perspective frustum matrix. The final `matrixMultiply(identity, result)`
      is kept and shown to change nothing. The source divides by the three extents unguarded; the model
      requires them non-zero (a zero extent yields an infinity in floats and has no real counterpart). */
  function Projection(left: real, right: real, bottom: real, top: real, nearZ: real, farZ: real): (r: Matrix4x4)
    requires right != left && top != bottom && farZ != nearZ
    ensures r[0] == [2.0 * nearZ / (right - left), 0.0, 0.0, 0.0]
    ensures r[1] == [0.0, 2.0 * nearZ / (top - bottom), 0.0, 0.0]
    ensures r[2] == [(right + left) / (right - left), (top + bottom) / (top - bottom), -(nearZ + farZ) / (farZ - nearZ), -1.0]
    ensures r[3] == [0.0, 0.0, -2.0 * nearZ * farZ / (farZ - nearZ), 0.0]
  {
    var deltaX := right - left;
    var deltaY := top - bottom;
    var deltaZ := farZ - nearZ;
    var result: Matrix4x4 := [
      [2.0 * nearZ / deltaX, 0.0, 0.0, 0.0],
      [0.0, 2.0 * nearZ / deltaY, 0.0, 0.0],
      [(right + left) / deltaX, (top + bottom) / deltaY, -(nearZ + farZ) / deltaZ, -1.0],
      [0.0, 0.0, -2.0 * nearZ * farZ / deltaZ, 0.0]];
    IdentityIsLeftUnit(result);
    Multiply(Identity(), result)
  }

  /** `getTranslatedMatrix`: overwrites the translation row with (tx, ty, tz, 1); nothing is multiplied. */
  function Translated(m: Matrix4x4, tx: real, ty: real, tz: real): (r: Matrix4x4)
    ensures r[3] == [tx, ty, tz, 1.0]
    ensures forall i | 0 <= i < 3 :: r[i] == m[i]
  {
    m[3 := [tx, ty, tz, 1.0]]
  }

  /** The conventional translation matrix: the identity with (tx, ty, tz, 1) as its last row. */
  function TranslationMatrix(tx: real, ty: real, tz: real): Matrix4x4 {
    Identity()[3 := [tx, ty, tz, 1.0]]
  }

  /** `getScaledMatrix`: scales columns 0, 1 and 2 of rows 0 to 2 by sx, sy and sz. */
  function Scaled(m: Matrix4x4, sx: real, sy: real, sz: real): (r: Matrix4x4)
    ensures forall i | 0 <= i < 3 ::
      r[i][0] == m[i][0] * sx && r[i][1] == m[i][1] * sy && r[i][2] == m[i][2] * sz
    ensures r[3] == m[3]
    ensures forall i | 0 <= i < 4 :: r[i][3] == m[i][3]
  {
    [[m[0][0] * sx, m[0][1] * sy, m[0][2] * sz, m[0][3]],
     [m[1][0] * sx, m[1][1] * sy, m[1][2] * sz, m[1][3]],
     [m[2][0] * sx, m[2][1] * sy, m[2][2] * sz, m[2][3]],
     m[3]]
  }

  /** The conventional scale matrix diag(sx, sy, sz, 1). */
  function ScaleMatrix(sx: real, sy: real, sz: real): Matrix4x4 {
    [[sx, 0.0, 0.0, 0.0], [0.0, sy, 0.0, 0.0], [0.0, 0.0, sz, 0.0], UnitRow3]
  }

  /** Degrees to radians as `getAxisRotatedMatrix` converts them. */
  function Radians(degrees: real): real {
    degrees * Pi / 180.0
  }

  /** The Rodrigues matrix `getAxisRotatedMatrix` builds from sin, cos and an already normalised axis. */
  function RotationTransform(s: real, c: real, x: real, y: real, z: real): (r: Matrix4x4)
    ensures r[3] == UnitRow3
    ensures r[0][3] == 0.0 && r[1][3] == 0.0 && r[2][3] == 0.0
  {
    var oneMinusCos := 1.0 - c;
    [[(oneMinusCos * (x * x)) + c, (oneMinusCos * (x * y)) - z * s, (oneMinusCos * (z * x)) + y * s, 0.0],
     [(oneMinusCos * (x * y)) + z * s, (oneMinusCos * (y * y)) + c, (oneMinusCos * (y * z)) - x * s, 0.0],
     [(oneMinusCos * (z * x)) - y * s, (oneMinusCos * (y * z)) + x * s, (oneMinusCos * (z * z)) + c, 0.0],
     UnitRow3]
  }

  /** The axis magnitude `getAxisRotatedMatrix` tests against zero. */
  function Magnitude(x: real, y: real, z: real, libm: Libm): real {
    libm.sqrt(x * x + y * y + z * z)
  }

  /** `getAxisRotatedMatrix`: the input itself when the axis magnitude is not positive, otherwise the
      input post-multiplied by the rotation about the normalised axis; either way column 3 is kept. */
  function AxisRotated(m: Matrix4x4, angle: real, x: real, y: real, z: real, libm: Libm): (r: Matrix4x4)
    ensures !(Magnitude(x, y, z, libm) > 0.0) ==> r == m
    ensures Magnitude(x, y, z, libm) > 0.0 ==>
      var mag := Magnitude(x, y, z, libm);
      r == Multiply(m, RotationTransform(libm.sin(Radians(angle)), libm.cos(Radians(angle)), x / mag, y / mag, z / mag))
    ensures forall i | 0 <= i < 4 :: r[i][3] == m[i][3]
  {
    var sinAngle := libm.sin(Radians(angle));
    var cosAngle := libm.cos(Radians(angle));
    var mag := Magnitude(x, y, z, libm);
    if mag > 0.0 then
      var rotation := RotationTransform(sinAngle, cosAngle, x / mag, y / mag, z / mag);
      MultiplyKeepsUnitColumn(m, rotation, 3);
      Multiply(m, rotation)
    else
      m
  }

  /** The projection's no-op identity multiply is genuinely a no-op: the result is the raw frustum matrix. */
  lemma ProjectionIsFrustum(left: real, right: real, bottom: real, top: real, nearZ: real, farZ: real)
    requires right != left && top != bottom && farZ != nearZ
    ensures var p := Projection(left, right, bottom, top, nearZ, farZ);
      forall i, j | 0 <= i < 4 && 0 <= j < 4 && !((i == 0 && j == 0) || (i == 1 && j == 1) || i == 2 || (i == 3 && j == 2)) ::
        p[i][j] == 0.0
  {
  }

  /** The depth range of the frustum: an eye-space point (x, y, -n, 1) on the near plane, taken as a row
      vector times the matrix, lands at clip depth z = -w with w = n, and one on the far plane (x, y, -f, 1)
      at z = w with w = f; the x and y of the point play no part in either. */
  lemma ProjectionMapsDepthRange(left: real, right: real, bottom: real, top: real, nearZ: real, farZ: real, x: real, y: real)
    requires right != left && top != bottom && farZ != nearZ
    ensures var p := Projection(left, right, bottom, top, nearZ, farZ);
      var nearPoint: Row := [x, y, -nearZ, 1.0];
      var farPoint: Row := [x, y, -farZ, 1.0];
      SumOfProducts(nearPoint, p, 3, 4) == nearZ && SumOfProducts(nearPoint, p, 2, 4) == -nearZ &&
      SumOfProducts(farPoint, p, 3, 4) == farZ && SumOfProducts(farPoint, p, 2, 4) == farZ
  {
    var p := Projection(left, right, bottom, top, nearZ, farZ);
    var d := farZ - nearZ;
    assert p[2][2] == -(nearZ + farZ) / d && p[3][2] == -2.0 * nearZ * farZ / d;
    var nearPoint: Row := [x, y, -nearZ, 1.0];
    var farPoint: Row := [x, y, -farZ, 1.0];
    SumOfProductsExpands(nearPoint, p, 2);
    SumOfProductsExpands(nearPoint, p, 3);
    SumOfProductsExpands(farPoint, p, 2);
    SumOfProductsExpands(farPoint, p, 3);
    DepthRangeArithmetic(nearZ, farZ, d);
  }

  /** The two depth identities of the frustum: (n(n + f) - 2nf) / d = -n and (f(n + f) - 2nf) / d = f
      for d = f - n. */
  lemma DepthRangeArithmetic(nearZ: real, farZ: real, d: real)
    requires d == farZ - nearZ && d != 0.0
    ensures -nearZ * (-(nearZ + farZ) / d) + -2.0 * nearZ * farZ / d == -nearZ
    ensures -farZ * (-(nearZ + farZ) / d) + -2.0 * nearZ * farZ / d == farZ
  {
    assert -nearZ * (-(nearZ + farZ) / d) + -2.0 * nearZ * farZ / d == (nearZ * (nearZ + farZ) - 2.0 * nearZ * farZ) / d;
    assert nearZ * (nearZ + farZ) - 2.0 * nearZ * farZ == -nearZ * d;
    assert -farZ * (-(nearZ + farZ) / d) + -2.0 * nearZ * farZ / d == (farZ * (nearZ + farZ) - 2.0 * nearZ * farZ) / d;
    assert farZ * (nearZ + farZ) - 2.0 * nearZ * farZ == farZ * d;
  }

  /** A symmetric frustum has no off-axis shear terms. */
  lemma SymmetricFrustumHasNoShear(halfWidth: real, halfHeight: real, nearZ: real, farZ: real)
    requires halfWidth != 0.0 && halfHeight != 0.0 && farZ != nearZ
    ensures var p := Projection(-halfWidth, halfWidth, -halfHeight, halfHeight, nearZ, farZ);
      p[2][0] == 0.0 && p[2][1] == 0.0 && p[0][0] == nearZ / halfWidth && p[1][1] == nearZ / halfHeight
  {
  }

  /** The frustum of the demo, (-2.8, 2.8, -2.8a, 2.8a, 3, 200): the x scale is 2*3/5.6 = 15/14. */
  lemma DemoFrustum(aspect: real)
    requires aspect != 0.0
    ensures var p := Projection(-2.8, 2.8, -2.8 * aspect, 2.8 * aspect, 3.0, 200.0);
      p[0][0] == 15.0 / 14.0 && p[2][0] == 0.0 && p[2][1] == 0.0 && p[2][2] == -203.0 / 197.0 && p[3][2] == -1200.0 / 197.0
  {
    SymmetricFrustumHasNoShear(2.8, 2.8 * aspect, 3.0, 200.0);
  }

  /** Translating twice keeps only the second translation: the row is overwritten, not accumulated. */
  lemma TranslationOverwrites(m: Matrix4x4, a: real, b: real, c: real, tx: real, ty: real, tz: real)
    ensures Translated(Translated(m, a, b, c), tx, ty, tz) == Translated(m, tx, ty, tz)
  {
  }

  /** For a matrix with no translation and no projective part, overwriting the row is the same as
      post-multiplying by the conventional translation matrix. */
  lemma TranslatedIsPostMultiplyOnLinear(m: Matrix4x4, tx: real, ty: real, tz: real)
    requires m[0][3] == 0.0 && m[1][3] == 0.0 && m[2][3] == 0.0 && m[3] == UnitRow3
    ensures Translated(m, tx, ty, tz) == Multiply(m, TranslationMatrix(tx, ty, tz))
  {
    var t := TranslationMatrix(tx, ty, tz);
    var r := Multiply(m, t);
    forall i, j | 0 <= i < 4 && 0 <= j < 4
      ensures r[i][j] == Translated(m, tx, ty, tz)[i][j]
    {
      assert r[i][j] == ProductEntry(m, t, i, j);
    }
    EqualByEntries(r, Translated(m, tx, ty, tz));
  }

  /** Scaling by (1, 1, 1) changes nothing. */
  lemma ScaleByOneIsNoOp(m: Matrix4x4)
    ensures Scaled(m, 1.0, 1.0, 1.0) == m
  {
    EqualByEntries(Scaled(m, 1.0, 1.0, 1.0), m);
  }

  /** Real multiplication regroups; kept apart so the solver sees one product at a time. */
  lemma ProductRegroups(x: real, y: real, z: real)
    ensures x * y * z == x * (y * z)
  {
  }

  /** Two scalings compose into one with the products of the factors. */
  lemma ScalesCompose(m: Matrix4x4, sx: real, sy: real, sz: real, tx: real, ty: real, tz: real)
    ensures Scaled(Scaled(m, sx, sy, sz), tx, ty, tz) == Scaled(m, sx * tx, sy * ty, sz * tz)
  {
    forall i, j | 0 <= i < 3 && 0 <= j < 3 {
      ProductRegroups(m[i][j], [sx, sy, sz][j], [tx, ty, tz][j]);
    }
    EqualByEntries(Scaled(Scaled(m, sx, sy, sz), tx, ty, tz), Scaled(m, sx * tx, sy * ty, sz * tz));
  }

  /** The in-place scale equals post-multiplication by diag(sx, sy, sz, 1) exactly when the last row
      has no x, y, z part, which is the case for every matrix the demo scales. */
  lemma ScaledIsPostMultiplyOnAffine(m: Matrix4x4, sx: real, sy: real, sz: real)
    requires m[3][0] == 0.0 && m[3][1] == 0.0 && m[3][2] == 0.0
    ensures Scaled(m, sx, sy, sz) == Multiply(m, ScaleMatrix(sx, sy, sz))
  {
    var d := ScaleMatrix(sx, sy, sz);
    var r := Multiply(m, d);
    forall i, j | 0 <= i < 4 && 0 <= j < 4
      ensures r[i][j] == Scaled(m, sx, sy, sz)[i][j]
    {
      assert r[i][j] == ProductEntry(m, d, i, j);
    }
    EqualByEntries(r, Scaled(m, sx, sy, sz));
  }

  /** Zero-magnitude-axis guard: with the exact sqrt(0) = 0 the axis (0, 0, 0) rotates nothing, for every angle. */
  lemma ZeroAxisIsNoOp(m: Matrix4x4, angle: real, libm: Libm)
    requires libm.sqrt(0.0) == 0.0
    ensures AxisRotated(m, angle, 0.0, 0.0, 0.0, libm) == m
  {
    assert Magnitude(0.0, 0.0, 0.0, libm) == libm.sqrt(0.0);
  }

  /** A rotation by angle zero (sin 0 = 0 and cos 0 = 1 exactly) is the identity whatever the axis. */
  lemma ZeroAngleIsNoOp(m: Matrix4x4, x: real, y: real, z: real, libm: Libm)
    requires libm.sin(0.0) == 0.0 && libm.cos(0.0) == 1.0
    ensures AxisRotated(m, 0.0, x, y, z, libm) == m
  {
    var mag := Magnitude(x, y, z, libm);
    if mag > 0.0 {
      assert Radians(0.0) == 0.0;
      var rotation := RotationTransform(0.0, 1.0, x / mag, y / mag, z / mag);
      EqualByEntries(rotation, Identity());
      IdentityIsRightUnit(m);
    }
  }

  /** About the basis axis (1, 0, 0), (0, 1, 0) or (0, 0, 1) with the exact sqrt(1) = 1, the rotation
      keeps the matching column of the input: the axis itself is the fixed direction. */
  lemma BasisRotationFixesAxisColumn(m: Matrix4x4, angle: real, axis: nat, libm: Libm)
    requires axis < 3 && libm.sqrt(1.0) == 1.0
    ensures var x, y, z := if axis == 0 then 1.0 else 0.0, if axis == 1 then 1.0 else 0.0, if axis == 2 then 1.0 else 0.0;
      forall i | 0 <= i < 4 :: AxisRotated(m, angle, x, y, z, libm)[i][axis] == m[i][axis]
  {
    var x, y, z := if axis == 0 then 1.0 else 0.0, if axis == 1 then 1.0 else 0.0, if axis == 2 then 1.0 else 0.0;
    assert x * x + y * y + z * z == 1.0;
    var s, c := libm.sin(Radians(angle)), libm.cos(Radians(angle));
    var rotation := RotationTransform(s, c, x, y, z);
    assert x / 1.0 == x && y / 1.0 == y && z / 1.0 == z;
    BasisRotationFixesAxis(s, c, axis);
    MultiplyKeepsUnitColumn(m, rotation, axis);
  }

  /** About a basis axis e_a, the rotation's column a is e_a itself. */
  lemma BasisRotationFixesAxis(s: real, c: real, axis: nat)
    requires axis < 3
    ensures var r := RotationTransform(s, c, if axis == 0 then 1.0 else 0.0, if axis == 1 then 1.0 else 0.0, if axis == 2 then 1.0 else 0.0);
      r[0][axis] == Kronecker(0, axis) && r[1][axis] == Kronecker(1, axis) &&
      r[2][axis] == Kronecker(2, axis) && r[3][axis] == Kronecker(3, axis)
  {
  }
}
