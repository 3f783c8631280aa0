# SimpleCube picking demo: a verified model of its core logic

SimpleCube is a Win32/OpenGL demo that draws a rotating textured cube and lets the user pick one of its
triangles with the mouse. Each frame runs two passes:

- An identity (render-to-texture) pass writes an object ID, a draw ID and the rasterizer's primitive ID
  into an integer texture.
- The visible pass draws the textured cube as six triangle strips.

The program then reads back the texel under the cursor. While a mouse button is held it highlights the
picked triangle and draws a coordinate-axis overlay.

This project models the pure logic of that program in Dafny and proves properties of the model:

- `Matrix`, `Transform`, `View`: the real-valued 4x4 matrix helpers (identity, row-major multiply,
  perspective frustum, translate by overwrite, column scale, axis-angle rotation with its zero-axis
  guard) and the fixed model-view-projection composition of `setupCubeShaderView`. The same composition
  appears in `drawCubeShader` of cube_shader.cpp at a different rotation rate.
- `Geometry`, `Draws`: the 36-vertex picking triangle list, the 24-vertex strip table, the UV layout of
  the vertex buffer, and the vertex ranges every `glDrawArrays` call fetches.
- `Interaction`: the per-frame state machine of win32_main.cpp. It holds the mouse-button flag, the two
  change detectors, the in-window gate and y-flip of the mouse uniform, the readback pixel, the frame
  counter, and the highlight/axis draw decision. It is an explicit `State` record with a pure `Frame`
  function that returns the commands the frame issues.
- `Routines`: `narrowMult` with C's truncating division, and `fillReverse`.
- `WglStrings`: `StringsAreEqual`, both as written and corrected, and the extension-string tokenizer of
  `GetWglFunctions`.
- `Intrinsics`: `RotateLeft`/`RotateRight`, the `PackRGBA` bit layout, `StrStr` and the
  `Min`/`Max`/`Abs` macros of intrinsics.h.
- `CTypes`, `CStrings`, `Wrappers`: shared definitions.
  - `CTypes`: 32-bit `int` bounds, `u32` and `size_t` moduli.
  - `CStrings`: NUL-terminated strings as character sequences, with `CLength` for `strlen`.
  - `Wrappers`: `Option`/`Result`.

Floats are modelled as reals. `std::sin`, `std::cos` and `std::sqrt` are passed in as a `Libm` record
of uninterpreted functions. Only values IEEE arithmetic gives exactly (sqrt 0 = 0, sqrt 1 = 1,
sin 0 = 0, cos 0 = 1) are ever required of them.

Two facts of the code are kept as they are (win32_main.cpp:981-1000). The readback row is
`height - y`, while the uniform row is `(height - 1) - y`. The readback is issued every frame, outside
the window test, so it also runs when the cursor is outside the window and the uniform is (-1, -1).

## Model

| member | source | states |
|---|---|---|
| Matrix.Identity | textured_cube_shader.cpp:149-159 | every entry (i, j) is 1 on the diagonal and 0 elsewhere |
| Matrix.ProductEntryIsSum | textured_cube_shader.cpp:161-188 | the four products written out per entry equal the reference sum over k of left[i][k] * right[k][j] |
| Matrix.Multiply | textured_cube_shader.cpp:161-188 | every entry of the product is the reference sum over k < 4 of left[i][k] * right[k][j] |
| Matrix.IdentityIsLeftUnit | textured_cube_shader.cpp:190-216 | identity x m = m, so the identity multiply at the end of getProjectionMatrix changes nothing |
| Matrix.IdentityIsRightUnit | textured_cube_shader.cpp:149-188 | m x identity = m: the identity is a two-sided unit |
| Matrix.MultiplyKeepsUnitColumn | textured_cube_shader.cpp:161-188 | if column j of the right factor is the unit column e_j, the product keeps column j of the left factor |
| Matrix.MultiplyByAffineRow3 | textured_cube_shader.cpp:161-188 | if the left factor's last row is (0, 0, 0, 1), the product's last row is the right factor's last row |
| Transform.Projection | textured_cube_shader.cpp:190-216 | the frustum entries 2n/(r-l), 2n/(t-b), (r+l)/(r-l), (t+b)/(t-b), -(n+f)/(f-n), -1 and -2nf/(f-n) in their rows, for r != l, t != b, f != n |
| Transform.ProjectionIsFrustum | textured_cube_shader.cpp:190-216 | every entry outside the seven frustum positions is 0 |
| Transform.ProjectionMapsDepthRange | textured_cube_shader.cpp:190-216 | an eye point on the near plane (z = -n) maps to clip z = -w with w = n, one on the far plane (z = -f) to z = w with w = f, whatever its x and y |
| Transform.DepthRangeArithmetic | textured_cube_shader.cpp:190-216 | the two depth identities of the frustum entries: (n(n + f) - 2nf)/(f - n) = -n and (f(n + f) - 2nf)/(f - n) = f |
| Transform.SymmetricFrustumHasNoShear | textured_cube_shader.cpp:190-216 | a symmetric frustum has [2][0] = [2][1] = 0, [0][0] = n/halfWidth and [1][1] = n/halfHeight |
| Transform.DemoFrustum | textured_cube_shader.cpp:442 | the demo frustum (-2.8, 2.8, -2.8a, 2.8a, 3, 200) has x scale 15/14, no shear, [2][2] = -203/197, [3][2] = -1200/197 |
| Transform.Translated | textured_cube_shader.cpp:218-228 | row 3 becomes (tx, ty, tz, 1) and rows 0 to 2 are unchanged |
| Transform.TranslationOverwrites | textured_cube_shader.cpp:218-228 | translating twice keeps only the second translation: nothing accumulates |
| Transform.TranslatedIsPostMultiplyOnLinear | textured_cube_shader.cpp:218-228 | on a matrix with no translation or projective part, the overwrite equals post-multiplying by the translation matrix |
| Transform.Scaled | textured_cube_shader.cpp:230-247 | entry [r][c] for r, c < 3 is multiplied by (sx, sy, sz)[c]; row 3 and column 3 are unchanged |
| Transform.ScaleByOneIsNoOp | textured_cube_shader.cpp:230-247 | scaling by (1, 1, 1) returns the input |
| Transform.ScalesCompose | textured_cube_shader.cpp:230-247 | two scalings equal one scaling by the products of the factors |
| Transform.ScaledIsPostMultiplyOnAffine | textured_cube_shader.cpp:230-247 | when the last row has no x, y, z part, the in-place scale equals post-multiplying by diag(sx, sy, sz, 1) |
| Transform.RotationTransform | textured_cube_shader.cpp:262-296 | the rotation matrix has last row (0, 0, 0, 1) and zeros in column 3 of rows 0 to 2 |
| Transform.AxisRotated | textured_cube_shader.cpp:249-303 | the input itself when the axis magnitude is not > 0; otherwise the input times the rotation about the normalised axis; column 3 is always kept |
| Transform.Radians | textured_cube_shader.cpp:249-303 | no contract; degrees * PI / 180 as getAxisRotatedMatrix converts the angle |
| Transform.ZeroAxisIsNoOp | cube_shader.cpp:245-298 | with sqrt(0) = 0 the zero axis rotates nothing, for every angle |
| Transform.ZeroAngleIsNoOp | textured_cube_shader.cpp:249-303 | with sin 0 = 0 and cos 0 = 1, a rotation by angle 0 is the identity whatever the axis |
| Transform.BasisRotationFixesAxis | textured_cube_shader.cpp:262-296 | about a basis axis e_a, column a of the rotation matrix is e_a |
| Transform.BasisRotationFixesAxisColumn | textured_cube_shader.cpp:249-303 | rotating about a basis axis (with sqrt 1 = 1) keeps that axis's column of the input |
| View.ModelView | textured_cube_shader.cpp:430-440 | the model-view's column 3 is (0, 0, 0) above the last row, and its last row is (0, 0, -7, 1); the order of the steps is stated by View.ModelViewIsProduct |
| View.BasisRotation | textured_cube_shader.cpp:262-296 | no contract; the rotation matrix about the basis axis e_a, used by View.ModelViewIsProduct |
| View.BasisAxisRotatedIsProduct | textured_cube_shader.cpp:249-303 | with sqrt 1 = 1, rotating about a basis axis is post-multiplying by that axis's rotation matrix |
| View.ModelViewIsProduct | textured_cube_shader.cpp:430-440 | the model-view equals identity x Rx x Ry x Rz x diag(2.5, 2.5, 1, 1) x T(0, 0, -7): rotations about X, then Y, then Z, then the scale and the translation, each acting in the frame the earlier steps built |
| View.Aspect | textured_cube_shader.cpp:430 | no contract; height / width as the aspect ratio |
| View.ModelViewProjection | textured_cube_shader.cpp:442-445 | modelView x projection: column 0 is scaled by 15/14, column 1 by 15/(14a), column 3 is minus the model-view's z column, and the last row is (0, 0, 221/197, 7) |
| View.SetupCubeShaderView | textured_cube_shader.cpp:426-453 | the stored MVP puts the cube centre on the view axis at clip (0, 0, 221/197, 7), inside the depth range, for every frame; its w column is minus the z column of the model-view at angle 0.0725 * frameCounter |
| View.DrawCubeShaderView | cube_shader.cpp:413-427 | the same composition at 0.25 degrees per frame, with the same centre image |
| View.SameAngleSameView | cube_shader.cpp:413-427 | the two files produce the same matrix whenever their angles coincide |
| View.ModelViewAtRest | textured_cube_shader.cpp:430-440 | at angle 0 the model-view is diag(2.5, 2.5, 1) followed by the move to z = -7 |
| View.ProjectAtRest | textured_cube_shader.cpp:442-445 | the demo projection applied to the resting model-view, entry by entry |
| View.FirstFrameView | textured_cube_shader.cpp:426-453 | frame 0 of any viewport gives the exact MVP with x scale 75/28 and y scale 2.5 * 15/(14a) |
| View.FirstFrameView800x600 | textured_cube_shader.cpp:426-453 | for 800 x 600 the frame-0 y scale is 25/7 |
| Geometry.TablesHoldCubeCorners | textured_cube_shader.cpp:33-137 | the picking table holds 36 vertices (108 floats) and the strip table 24 vertices (72 floats), every one a cube corner with coordinates +1 or -1 |
| Geometry.PickingTriangle | textured_cube_shader.cpp:33-72 | no contract; triangle t of cubeVertices, see Geometry.TablesHoldCubeCorners and Geometry.PickingPairsLieOnFaces |
| Geometry.StripQuad | textured_cube_shader.cpp:74-137 | no contract; strip s of cubeStripVertices, see Geometry.TablesHoldCubeCorners and Geometry.StripsCoverFaces |
| Geometry.PickingVertex | textured_cube_shader.cpp:33-72 | no contract; flat vertex k of cubeVertices, see Geometry.PickingVertexOfTriangle |
| Geometry.StripVertex | textured_cube_shader.cpp:74-137 | no contract; flat vertex k of cubeStripVertices, see Geometry.StripVertexOfQuad |
| Geometry.FaceCornerUV | textured_cube_shader.cpp:139-147 | no contract; the four corners of CubeFaceUVCoordinates, see Geometry.StripUVsFollowFacePlane |
| Geometry.StripVertexUV | textured_cube_shader.cpp:139-147 | no contract; the UV of strip vertex k in the flattened cubeUVs[6], see Geometry.StripUVsFollowFacePlane |
| Geometry.UVByteOffset | textured_cube_shader.cpp:734-756 | no contract; the byte offset of vertex k's UV, see Geometry.UVBlockFitsStripTable |
| Geometry.PickingVertexOfTriangle | textured_cube_shader.cpp:33-72 | flat vertex 3t + j of the picking table is corner j of triangle t |
| Geometry.StripVertexOfQuad | textured_cube_shader.cpp:74-137 | flat vertex 4s + j of the strip table is corner j of strip s |
| Geometry.PickingPairsLieOnFaces | textured_cube_shader.cpp:33-72 | triangles 2k and 2k + 1 lie on one face, in the order front, right, left, top, bottom, back |
| Geometry.StripsCoverFaces | cube_shader.cpp:16-124 | strip s lies on face front, back, right, left, top, bottom in turn, and its four vertices are four distinct corners |
| Geometry.FaceOrdersArePermutations | textured_cube_shader.cpp:33-137 | both face orders list each of the six faces exactly once |
| Geometry.PrimitivePairIsNotStrip | textured_cube_shader.cpp:33-137 | primitiveID / 2 is the strip index of the picked face only for the front face (primitives 0 and 1) |
| Geometry.StripUVsFollowFacePlane | textured_cube_shader.cpp:139-147 | each strip vertex's UV is its face-plane coordinates mapped from [-1, 1] to [0, 1] |
| Geometry.UVBlockFitsStripTable | textured_cube_shader.cpp:734-756 | the UV block starts at byte 288 = sizeof(cubeStripVertices), is 192 bytes with one UV per strip vertex, and the read for vertex k fits in the 480-byte buffer exactly when k < 24 |
| Draws.DrawTriangleStrips | textured_cube_shader.cpp:412-422 | stripCount calls; call i is a four-vertex strip starting at vertex 4i |
| Draws.CubeShaderStrips | cube_shader.cpp:435-451 | no contract; the six explicit strip calls, see Draws.CubeShaderStripsMatchLoop |
| Draws.IdentityPassDraw | textured_cube_shader.cpp:479 | no contract; the call glDrawArrays(GL_TRIANGLES, 0, 3 * 12), see Draws.IdentityPassCoversPickingTable |
| Draws.DrawTriangle | win32_main.cpp:184-187 | no contract; glDrawArrays(GL_TRIANGLES, index, 3), see Draws.HighlightFetchesPickedTriangle |
| Draws.DrawPrimitive | win32_main.cpp:426-429 | no contract; drawTriangle(primitiveID * 3), see Draws.HighlightFetchesPickedTriangle |
| Draws.DrawQuad | win32_main.cpp:177-180 | no contract; glDrawArrays(GL_TRIANGLES, 0, 6), see Draws.AxisQuadCoversQuadBuffer |
| Draws.StripsPartitionStripTable | textured_cube_shader.cpp:412-422 | the six strips fetch every one of the 24 strip vertices exactly once (vertex k by strip k / 4) and nothing else |
| Draws.CubeShaderStripsMatchLoop | cube_shader.cpp:435-451 | the six explicit strip calls are exactly drawTriangleStrips(..., 6) |
| Draws.IdentityPassCoversPickingTable | textured_cube_shader.cpp:479 | the identity pass is one triangle-list call fetching exactly the 36 picking vertices |
| Draws.HighlightFetchesPickedTriangle | win32_main.cpp:426-429 | drawPrimitive(p) fetches exactly [3p, 3p + 3), the corners of picking triangle p; it stays inside the table exactly when p < 12 |
| Draws.AxisQuadCoversQuadBuffer | win32_main.cpp:177-180 | drawQuad fetches exactly the six quad vertices |
| Interaction.WindowProc | win32_main.cpp:87-113 | each of the eight button down/up messages flips the flag; any other message leaves it |
| Interaction.ProcessMessages | win32_main.cpp:87-113 | no contract; the flag after WindowProc has handled a sequence of messages, see Interaction.ButtonFlagIsParity |
| Interaction.ButtonFlagIsParity | win32_main.cpp:85-113 | after a message sequence the flag is its initial value XOR the parity of the button messages |
| Interaction.TwoButtonEventsCancel | win32_main.cpp:96-113 | any two button messages, down/up or two downs of different buttons, leave a released button released |
| Interaction.Detect | win32_main.cpp:431-465 | answers true exactly when the input differs from the stored value; afterwards the input is stored; an equal input leaves the detector unchanged |
| Interaction.RepeatedInputIsUnchanged | win32_main.cpp:431-465 | feeding the same input twice answers false the second time and changes nothing |
| Interaction.NextCounter | win32_main.cpp:995-1002 | `++counter` on an unsigned int: adds one below 2^32 and wraps to 0 at the top |
| Interaction.CursorStep | win32_main.cpp:981-990 | outside the window nothing is logged or stored; inside, the cursor is stored and logged at most once |
| Interaction.HighlightStep | win32_main.cpp:1004-1022 | unless the button is down and object 1 is under the cursor, nothing is drawn or stored |
| Interaction.Frame | win32_main.cpp:977-1031 | a frame keeps the button flag and advances the counter once |
| Interaction.MouseUniform | win32_main.cpp:979-990 | no contract; the mouseUniform array, see Interaction.MouseUniformGate |
| Interaction.ReadbackPixel | win32_main.cpp:403-424 | no contract; the pixel passed to glReadPixels, see Interaction.ReadbackIsOneRowAboveUniform |
| Interaction.MouseUniformGate | win32_main.cpp:979-990 | the uniform is (x, (height - 1) - y), inside the window, exactly when the cursor is in the window, and (-1, -1) otherwise |
| Interaction.ReadbackIsOneRowAboveUniform | win32_main.cpp:403-424 | the readback pixel (x, height - y) is one row above the uniform's row; for the top row it is row height, outside the texture |
| Interaction.FrameIssuesPassesInOrder | win32_main.cpp:993-1002 | every frame issues the uniform, identity pass, readback at (x, height - y) and visible pass back to back, with the same counter in both passes, then advances the counter |
| Interaction.FrameOverlays | win32_main.cpp:1004-1031 | the highlight is drawn iff the button is down and objectID = 1, as vertices [3p, 3p + 3) with depth test off; the axis quad is drawn iff the button is down, with depth test on |
| Interaction.FrameLogsChanges | win32_main.cpp:981-1009 | the cursor is logged iff it is in the window and new; the primitive is logged iff the highlight branch sees a new ID; each detector stores only in its branch |
| Interaction.RepeatedFrameIsQuiet | win32_main.cpp:981-1009 | a second identical frame logs neither the cursor nor the primitive |
| Interaction.PressHighlightRelease | win32_main.cpp:1004-1031 | pressing over primitive 4 highlights vertices 12 to 14 and shows the axes; after the release neither overlay is drawn |
| Routines.CDivTruncates | win32_main.cpp:504 | C division truncates: the remainder is smaller than the divisor and has the sign of the dividend |
| Routines.CDiv | win32_main.cpp:504 | no contract; C's `/` on int, truncating toward zero, see Routines.CDivTruncates and Routines.NarrowMultBounds |
| Routines.NarrowMult | win32_main.cpp:467-505 | within the asserted range i * 7 fits in 32-bit int and (i * 7) / 7 returns i |
| Routines.NarrowMultBounds | win32_main.cpp:469 | INT_MIN / 7 = -306783378 and INT_MAX / 7 = 306783378 under truncating division |
| Routines.NarrowMultRangeIsTight | win32_main.cpp:469 | one step beyond either bound, i * 7 overflows |
| Routines.EuclideanBoundAdmitsOverflow | win32_main.cpp:469 | with a rounding-down INT_MIN / 7 the range would admit an overflowing argument |
| Routines.FillReverse | win32_main.cpp:507-538 | afterwards arr[k] = k + 1 for every k < size, so the prefix ascends strictly, and nothing past size changes |
| WglStrings.StringsAreEqual | win32_main.cpp:260-272 | as written, including the `size_t` wrap of `dstlen--`: answers 1 exactly when `AgreesAsWritten` holds, and 0 otherwise |
| WglStrings.StringsMatch | win32_main.cpp:260-272 | the commented intent: answers 1 exactly when src equals the first dstlen characters of dst |
| WglStrings.AsWrittenAcceptsLongerSource | win32_main.cpp:260-272 | "ab" against the first character of "abc" is accepted as written but differs |
| WglStrings.CallPatternAgrees | win32_main.cpp:348-358 | for a space-free name and a token that a space ends, the two versions agree, and both answer "the name equals the token" |
| WglStrings.TokensAppend | win32_main.cpp:334-366 | the tokens of a string split after a space are the tokens of the two parts |
| WglStrings.TerminatedRunIsOneToken | win32_main.cpp:337-347 | a space-free run followed by a space is exactly one token |
| WglStrings.FinalTokenIsNeverExamined | win32_main.cpp:342-345 | a run after the last space adds no token, whatever it reads |
| WglStrings.ExtensionNamesAreNames | win32_main.cpp:348-358 | the three extension names are distinct and contain no space |
| WglStrings.NextSeparator | win32_main.cpp:337-340 | the scan stops at the first space or NUL from start, with no space before it |
| WglStrings.RecordToken | win32_main.cpp:347-362 | each of the three flags becomes set exactly when it was set or the token equals its name |
| WglStrings.ScanExtensions | win32_main.cpp:334-366 | a flag is set exactly when its name is one of the space-terminated tokens of the extension string |
| WglStrings.GetWglExtensions | win32_main.cpp:334-371 | success exactly when all three names are space-terminated tokens; otherwise failure with the fatal message |
| Intrinsics.RotateLeftIsShiftPair | intrinsics.h:6-11 | RotateLeft by a is (value << k) mod 2^32 plus value >> (32 - k), with k = a mod 32 |
| Intrinsics.RotateLeft | intrinsics.h:6-11 | no contract; `_rotl(value, amount)`, see Intrinsics.RotateLeftIsShiftPair and Intrinsics.RotatesAreInverse |
| Intrinsics.RotateRight | intrinsics.h:13-19 | no contract; `_rotr(value, amount)`, see Intrinsics.RotatesAreInverse and Intrinsics.FullTurnIsIdentity |
| Intrinsics.Distance | intrinsics.h:6-19 | the rotate distance is the amount modulo 32, below 32 |
| Intrinsics.RotatesAreInverse | intrinsics.h:6-19 | RotateRight(RotateLeft(v, a), a) = v and RotateLeft(RotateRight(v, a), a) = v for every u32 v and amount a |
| Intrinsics.FullTurnIsIdentity | intrinsics.h:6-19 | the amount counts modulo 32: rotating by 32 returns the value |
| Intrinsics.PackedBytes | intrinsics.h:50-61 | each byte of the packed value is its channel or-ed with the bits the lower channels carry above their byte; nothing is clamped |
| Intrinsics.PackRGBA | intrinsics.h:50-61 | no contract; a << 24 \| r << 16 \| g << 8 \| b on 32 bits, see Intrinsics.PackedBytes and Intrinsics.PackRoundTrip |
| Intrinsics.PackRoundTrip | intrinsics.h:50-61 | channels that fit in a byte decode back to themselves, and every 32-bit value is the packing of its own bytes |
| Intrinsics.OverflowingChannelOverlaps | intrinsics.h:50-61 | a red channel of 256 spills into the alpha byte and leaves red 0 |
| Intrinsics.MatchesAt | intrinsics.h:100-106 | the inner loop succeeds exactly when the needle is non-empty and occurs at that haystack position |
| Intrinsics.StrStr | intrinsics.h:93-110 | an empty needle gives null; a result is the first position in the haystack where the needle occurs; null means it occurs nowhere |
| Intrinsics.Min | intrinsics.h:115 | the result is at most both operands and is one of them |
| Intrinsics.Max | intrinsics.h:116 | the result is at least both operands and is one of them |
| Intrinsics.Abs | intrinsics.h:117 | -(a + 1) for negative a, a otherwise: never negative, and it stays in 32-bit range for every 32-bit argument |
| Intrinsics.AbsEdgeValues | intrinsics.h:117 | Abs(-5) = 4, Abs(5) = 5, Abs(-1) = 0 and Abs(INT_MIN) = INT_MAX |

## Left out

- Floating point: IEEE single-precision rounding of the matrix code, the `float` casts of the frame
  counter and the aspect ratio, and the float constants (read as the decimal reals they spell).
- `std::sin`, `std::cos`, `std::sqrt`: uninterpreted parameters, because their values are not exact.
- Transform.Projection: requires non-zero extents. The source divides without a guard, and in floats a
  zero extent gives an infinity that has no real counterpart.
- Transform.AxisRotated: normalisation is exact only for the three basis axes the demo uses; other
  axes are stated in terms of the uninterpreted sqrt.
- The duplicated matrix helpers of cube_shader.cpp:145-299 are textually the same as those of
  textured_cube_shader.cpp and are modelled once. Only its `drawCubeShader` composition and strip
  calls get their own members.
- cube_shader.cpp beyond its pure helpers: it is not part of the built program.
- Geometry: the winding (facing) of the triangles is not stated.
- Win32 and WGL plumbing: window creation, the dummy context, pixel formats, the message pump,
  `PostQuitMessage` on `WM_DESTROY` (a message that leaves the flag alone here), `SwapBuffers`,
  `FatalError` (a `Failure` result), the console `print` calls (`LogCursor`/`LogPrimitive` commands).
- GL object bookkeeping and GL state: programs, pipelines, VAOs/VBOs/framebuffers, uniform locations
  and the MVP upload for the highlight. Only the draw ranges, the depth-test setting and the order of
  passes are kept as commands.
- The GPU: the read-back texel and `gl_PrimitiveID` are inputs; GLSL is not modelled.
- `getCursorWindowPosition`: the cursor position is an input.
- Draws.DrawPrimitive: the `int` product `primitiveID * 3` is taken unbounded. The unsigned
  primitive ID passed to an `int` parameter, and a product past `INT_MAX`, are not modelled.
- Intrinsics.PackRGBA: the channels are the already rounded integers. `RoundReal32ToU32` and the
  float scaling by 255 are floating point.
- Intrinsics.Min, Intrinsics.Max, Intrinsics.Abs: the macros are modelled as fully parenthesised
  expressions. The precedence surprises of their unparenthesised expansion inside larger expressions
  are not modelled.
- Intrinsics.RotateLeftIsShiftPair: `u32` values are integers in [0, 2^32), and `_rotl`/`_rotr` are
  described arithmetically rather than as bit-vector operations.
- Routines.FillReverse: the in-code `UQ(...)` asserts are not modelled. They speak of the unwritten
  prefix, and the last one reads `arr[size]`. The array is a sequence of unbounded naturals: every
  value written, k + 1 <= size, fits a `size_t`.
- The disabled exhaustive test loop of `WinMain` (win32_main.cpp:561-573) is not a member. Its
  property, narrowMult(i) = i over the whole range, is the ensures of `Routines.NarrowMult`.
- `GetWglFunctions`: the unused `std::string_view extension` and `extensionNames` are left out.
  `wglGetProcAddress` is reduced to a flag per extension.
- `drawCubeShaderElapsed`, the `foo`/`S` template in `WinMain`, `RoundReal32ToS32`,
  `FloorReal32ToS32`, `ATan2`, `Square`, `GetLineRejection`, `DegreesToRadians` and the timing code:
  unused by the core or floating point.

## Findings

| source | as written | input that shows it | evidently intended | confidence | as-written member | corrected member |
|---|---|---|---|---|---|---|
| win32_main.cpp:260-272 | `dstlen--` is evaluated in the loop condition whenever `*src` is not NUL. At `dstlen == 0` it wraps to `SIZE_MAX`, so the final test compares one more character instead of requiring that src has ended. | src = "ab", dst = "abc", dstlen = 1: answers 1 although "ab" differs from "a" | answer 1 exactly when src equals the first dstlen characters of dst, as the comment on line 260 says | not executed | WglStrings.StringsAreEqual, WglStrings.AsWrittenAcceptsLongerSource | WglStrings.StringsMatch |

The tokenizer model (`WglStrings.RecordToken`, `WglStrings.ScanExtensions`) calls the corrected
`StringsMatch`. `WglStrings.CallPatternAgrees` proves that the two versions agree in the only way
`GetWglFunctions` calls them: a space-free name against a token that a space ends. So the discrepancy
does not change which extensions the program finds.
