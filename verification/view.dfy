/** The per-frame model-view-projection composition: `setupCubeShaderView` in textured_cube_shader.cpp,
    and the identical composition inside `drawCubeShader` in cube_shader.cpp, which differs only in its
    rotation rate. */
module View {
  import opened Matrix
  import opened Transform

  /** Degrees of rotation per frame in textured_cube_shader.cpp. */
  const TexturedRate: real := 0.0725
  /** Degrees of rotation per frame in cube_shader.cpp. */
  const CubeShaderRate: real := 0.25

  /** `viewportHeight / viewportWidth`. */
  function Aspect(width: nat, height: nat): real
    requires width > 0
  {
    height as real / width as real
  }

  /** Rotate about X, then Y, then Z by the same angle, scale by (2.5, 2.5, 1), translate to z = -7. */
  function ModelView(angle: real, libm: Libm): (r: Matrix4x4)
    ensures r[0][3] == 0.0 && r[1][3] == 0.0 && r[2][3] == 0.0
    ensures r[3] == [0.0, 0.0, -7.0, 1.0]
  {
    var rotatedX := AxisRotated(Identity(), angle, 1.0, 0.0, 0.0, libm);
    var rotatedY := AxisRotated(rotatedX, angle, 0.0, 1.0, 0.0, libm);
    var rotatedZ := AxisRotated(rotatedY, angle, 0.0, 0.0, 1.0, libm);
    var scaled := Scaled(rotatedZ, 2.5, 2.5, 1.0);
    Translated(scaled, 0.0, 0.0, -7.0)
  }

  /** The rotation matrix `getAxisRotatedMatrix` builds for the basis axis e_a at the given angle. */
  function BasisRotation(angle: real, axis: nat, libm: Libm): Matrix4x4
    requires axis < 3
  {
    RotationTransform(libm.sin(Radians(angle)), libm.cos(Radians(angle)),
      if axis == 0 then 1.0 else 0.0, if axis == 1 then 1.0 else 0.0, if axis == 2 then 1.0 else 0.0)
  }

  /** With sqrt(1) = 1, rotating about a basis axis is post-multiplying by its rotation matrix. */
  lemma BasisAxisRotatedIsProduct(m: Matrix4x4, angle: real, axis: nat, libm: Libm)
    requires axis < 3 && libm.sqrt(1.0) == 1.0
    ensures AxisRotated(m, angle, if axis == 0 then 1.0 else 0.0, if axis == 1 then 1.0 else 0.0,
      if axis == 2 then 1.0 else 0.0, libm) == Multiply(m, BasisRotation(angle, axis, libm))
  {
    var x, y, z := if axis == 0 then 1.0 else 0.0, if axis == 1 then 1.0 else 0.0, if axis == 2 then 1.0 else 0.0;
    assert x * x + y * y + z * z == 1.0;
    assert Magnitude(x, y, z, libm) == 1.0;
    assert x / 1.0 == x && y / 1.0 == y && z / 1.0 == z;
  }

  /** The model-view is the product, in this order, of the rotations about X, Y and Z, the scale
      diag(2.5, 2.5, 1) and the translation to z = -7: each later step acts in the frame the earlier ones
      built, because every helper post-multiplies. */
  lemma ModelViewIsProduct(angle: real, libm: Libm)
    requires libm.sqrt(1.0) == 1.0
    ensures ModelView(angle, libm) ==
      Multiply(Multiply(Multiply(Multiply(Multiply(Identity(),
        BasisRotation(angle, 0, libm)), BasisRotation(angle, 1, libm)), BasisRotation(angle, 2, libm)),
        ScaleMatrix(2.5, 2.5, 1.0)), TranslationMatrix(0.0, 0.0, -7.0))
  {
    var rx := Multiply(Identity(), BasisRotation(angle, 0, libm));
    var ry := Multiply(rx, BasisRotation(angle, 1, libm));
    var rz := Multiply(ry, BasisRotation(angle, 2, libm));
    BasisAxisRotatedIsProduct(Identity(), angle, 0, libm);
    BasisAxisRotatedIsProduct(rx, angle, 1, libm);
    BasisAxisRotatedIsProduct(ry, angle, 2, libm);
    MultiplyByAffineRow3(Identity(), BasisRotation(angle, 0, libm));
    MultiplyByAffineRow3(rx, BasisRotation(angle, 1, libm));
    MultiplyByAffineRow3(ry, BasisRotation(angle, 2, libm));
    ScaledIsPostMultiplyOnAffine(rz, 2.5, 2.5, 1.0);
    var scaled := Scaled(rz, 2.5, 2.5, 1.0);
    assert scaled[0][3] == 0.0 && scaled[1][3] == 0.0 && scaled[2][3] == 0.0;
    TranslatedIsPostMultiplyOnLinear(scaled, 0.0, 0.0, -7.0);
  }

  /** The demo's symmetric frustum for a viewport aspect ratio. */
  function DemoProjection(aspect: real): Matrix4x4
    requires aspect != 0.0
  {
    Projection(-2.8, 2.8, -2.8 * aspect, 2.8 * aspect, 3.0, 200.0)
  }

  /** The final `matrixMultiply(modelView, projection)` with the demo frustum, for any model-view whose
      last row is the demo's (0, 0, -7, 1). The last column of the result is minus the model-view's z column
      (clip w is eye-space depth), and its last row, the image of the cube's centre, lies on the view axis
      in front of the camera at clip (0, 0, 221/197, 7). */
  function ModelViewProjection(modelView: Matrix4x4, aspect: real): (mvp: Matrix4x4)
    requires aspect != 0.0 && modelView[3] == [0.0, 0.0, -7.0, 1.0]
    ensures forall i | 0 <= i < 4 :: mvp[i][0] == modelView[i][0] * (15.0 / 14.0)
    ensures forall i | 0 <= i < 4 :: mvp[i][1] == modelView[i][1] * (15.0 / (14.0 * aspect))
    ensures forall i | 0 <= i < 3 ::
      mvp[i][2] == modelView[i][2] * (-203.0 / 197.0) + modelView[i][3] * (-1200.0 / 197.0)
    ensures forall i | 0 <= i < 4 :: mvp[i][3] == -modelView[i][2]
    ensures mvp[3] == [0.0, 0.0, 221.0 / 197.0, 7.0]
  {
    var projection := DemoProjection(aspect);
    DemoFrustum(aspect);
    assert projection[1][1] == 2.0 * 3.0 / (2.8 * aspect - -2.8 * aspect);
    assert projection[1][1] == 15.0 / (14.0 * aspect);
    var r := Multiply(modelView, projection);
    forall i, j | 0 <= i < 4 && 0 <= j < 4
      ensures r[i][j] == ProductEntry(modelView, projection, i, j)
    {
    }
    assert r[3][2] == -7.0 * (-203.0 / 197.0) + (-1200.0 / 197.0);
    r
  }

  /** `setupCubeShaderView(width, height, frameCounter)`: the matrix stored in
      `shaderContext.modelViewProjection`. The cube's centre always lands on the view axis at clip
      (0, 0, 221/197, 7), inside the depth range, whatever the frame. */
  function SetupCubeShaderView(width: nat, height: nat, frameCounter: nat, libm: Libm): (mvp: Matrix4x4)
    requires width > 0 && height > 0
    ensures mvp[3] == [0.0, 0.0, 221.0 / 197.0, 7.0]
    ensures -mvp[3][3] <= mvp[3][2] <= mvp[3][3]
    ensures forall i | 0 <= i < 4 :: mvp[i][3] == -ModelView(TexturedRate * frameCounter as real, libm)[i][2]
  {
    var aspectRatio := Aspect(width, height);
    var modelView := ModelView(TexturedRate * frameCounter as real, libm);
    ModelViewProjection(modelView, aspectRatio)
  }

  /** The composition inside `drawCubeShader` in cube_shader.cpp: the same steps at 0.25 degrees per frame. */
  function DrawCubeShaderView(width: nat, height: nat, frameCounter: nat, libm: Libm): (mvp: Matrix4x4)
    requires width > 0 && height > 0
    ensures mvp[3] == [0.0, 0.0, 221.0 / 197.0, 7.0]
    ensures forall i | 0 <= i < 4 :: mvp[i][3] == -ModelView(CubeShaderRate * frameCounter as real, libm)[i][2]
  {
    var aspectRatio := Aspect(width, height);
    var modelView := ModelView(CubeShaderRate * frameCounter as real, libm);
    ModelViewProjection(modelView, aspectRatio)
  }

  /** The two files build the same matrix whenever their angles coincide, e.g. frame 100 of one and frame 29 of the other. */
  lemma SameAngleSameView(width: nat, height: nat, texturedFrame: nat, cubeFrame: nat, libm: Libm)
    requires width > 0 && height > 0
    requires TexturedRate * texturedFrame as real == CubeShaderRate * cubeFrame as real
    ensures SetupCubeShaderView(width, height, texturedFrame, libm) == DrawCubeShaderView(width, height, cubeFrame, libm)
  {
  }

  /** At angle zero the model-view is diag(2.5, 2.5, 1) followed by the move to z = -7. */
  lemma ModelViewAtRest(angle: real, libm: Libm)
    requires angle == 0.0 && libm.sin(0.0) == 0.0 && libm.cos(0.0) == 1.0
    ensures ModelView(angle, libm) == [[2.5, 0.0, 0.0, 0.0], [0.0, 2.5, 0.0, 0.0], [0.0, 0.0, 1.0, 0.0], [0.0, 0.0, -7.0, 1.0]]
  {
    ZeroAngleIsNoOp(Identity(), 1.0, 0.0, 0.0, libm);
    ZeroAngleIsNoOp(Identity(), 0.0, 1.0, 0.0, libm);
    ZeroAngleIsNoOp(Identity(), 0.0, 0.0, 1.0, libm);
    var expected: Matrix4x4 := [[2.5, 0.0, 0.0, 0.0], [0.0, 2.5, 0.0, 0.0], [0.0, 0.0, 1.0, 0.0], [0.0, 0.0, -7.0, 1.0]];
    EqualByEntries(ModelView(angle, libm), expected);
  }

  /** The first frame of a viewport with aspect ratio a = height / width, computed exactly:
      the x scale is 2.5 * 15/14 and the y scale 2.5 * 15/(14 a). */
  lemma FirstFrameView(width: nat, height: nat, frameCounter: nat, libm: Libm)
    requires width > 0 && height > 0 && frameCounter == 0
    requires libm.sin(0.0) == 0.0 && libm.cos(0.0) == 1.0
    ensures SetupCubeShaderView(width, height, frameCounter, libm) ==
      [[75.0 / 28.0, 0.0, 0.0, 0.0],
       [0.0, 2.5 * (15.0 / (14.0 * Aspect(width, height))), 0.0, 0.0],
       [0.0, 0.0, -203.0 / 197.0, -1.0],
       [0.0, 0.0, 221.0 / 197.0, 7.0]]
  {
    var angle := TexturedRate * frameCounter as real;
    ModelViewAtRest(angle, libm);
    ProjectAtRest(ModelView(angle, libm), Aspect(width, height));
  }

  /** The demo projection applied to the resting model-view. */
  lemma ProjectAtRest(mv: Matrix4x4, aspect: real)
    requires aspect != 0.0
    requires mv == [[2.5, 0.0, 0.0, 0.0], [0.0, 2.5, 0.0, 0.0], [0.0, 0.0, 1.0, 0.0], [0.0, 0.0, -7.0, 1.0]]
    ensures ModelViewProjection(mv, aspect) ==
      [[75.0 / 28.0, 0.0, 0.0, 0.0],
       [0.0, 2.5 * (15.0 / (14.0 * aspect)), 0.0, 0.0],
       [0.0, 0.0, -203.0 / 197.0, -1.0],
       [0.0, 0.0, 221.0 / 197.0, 7.0]]
  {
    var r := ModelViewProjection(mv, aspect);
    var expected: Matrix4x4 :=
      [[75.0 / 28.0, 0.0, 0.0, 0.0],
       [0.0, 2.5 * (15.0 / (14.0 * aspect)), 0.0, 0.0],
       [0.0, 0.0, -203.0 / 197.0, -1.0],
       [0.0, 0.0, 221.0 / 197.0, 7.0]];
    assert r[0] == expected[0] by {
      assert r[0][0] == 2.5 * (15.0 / 14.0);
    }
    assert r[1] == expected[1];
    assert r[2] == expected[2];
    assert r[3] == expected[3];
  }

  /** For the 800 x 600 window the y scale is 2.5 * 10/7 = 25/7. */
  lemma FirstFrameView800x600(width: nat, height: nat, frameCounter: nat, libm: Libm)
    requires width == 800 && height == 600 && frameCounter == 0
    requires libm.sin(0.0) == 0.0 && libm.cos(0.0) == 1.0
    ensures SetupCubeShaderView(width, height, frameCounter, libm) ==
      [[75.0 / 28.0, 0.0, 0.0, 0.0],
       [0.0, 25.0 / 7.0, 0.0, 0.0],
       [0.0, 0.0, -203.0 / 197.0, -1.0],
       [0.0, 0.0, 221.0 / 197.0, 7.0]]
  {
    FirstFrameView(width, height, frameCounter, libm);
    assert Aspect(width, height) == 0.75;
    assert 2.5 * (15.0 / (14.0 * 0.75)) == 25.0 / 7.0;
  }
}
