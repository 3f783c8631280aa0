/** The vertex ranges the demo hands to `glDrawArrays`: the identity pass's single triangle-list call, the
    visible pass's strips (`drawTriangleStrips` in textured_cube_shader.cpp and the six explicit calls in
    cube_shader.cpp), and the overlay draws `drawQuad`, `drawTriangle` and `drawPrimitive` in win32_main.cpp. */
module Draws {
  import opened Geometry

  /** The primitive mode of a draw call. */
  datatype Mode = Triangles | TriangleStrip

  /** `glDrawArrays(mode, first, count)`. */
  datatype DrawCall = DrawArrays(mode: Mode, first: int, count: int)

  /** A draw call fetches vertex k. */
  predicate Fetches(call: DrawCall, k: int) {
    call.first <= k < call.first + call.count
  }

  /** Vertices in the axis overlay's quad buffer: two triangles. */
  const AxisQuadVertexCount: nat := 6

  /** `drawTriangleStrips(shaderContext, stripCount)`: strip i is drawn from vertex `i * 4`, four vertices long. */
  function DrawTriangleStrips(stripCount: nat): (calls: seq<DrawCall>)
    ensures |calls| == stripCount
    ensures forall i | 0 <= i < stripCount :: calls[i].mode == TriangleStrip && calls[i].count == StripLength
    ensures forall i | 0 <= i < stripCount :: calls[i].first == i * StripLength
  {
    if stripCount == 0 then [] else DrawTriangleStrips(stripCount - 1) + [DrawArrays(TriangleStrip, (stripCount - 1) * 4, 4)]
  }

  /** The six explicit strip draws of `drawCubeShader` in cube_shader.cpp. */
  function CubeShaderStrips(): seq<DrawCall> {
    [DrawArrays(TriangleStrip, 0, 4), DrawArrays(TriangleStrip, 4, 4), DrawArrays(TriangleStrip, 8, 4),
     DrawArrays(TriangleStrip, 12, 4), DrawArrays(TriangleStrip, 16, 4), DrawArrays(TriangleStrip, 20, 4)]
  }

  /** The identity pass of `drawCubeShaderToTexture`: `glDrawArrays(GL_TRIANGLES, 0, 3 * 12)`. */
  function IdentityPassDraw(): DrawCall {
    DrawArrays(Triangles, 0, 3 * 12)
  }

  /** `drawTriangle(index)`. */
  function DrawTriangle(index: int): DrawCall {
    DrawArrays(Triangles, index, 3)
  }

  /** `drawPrimitive(primitiveID)`: the triangle whose first vertex is `primitiveID * 3`. */
  function DrawPrimitive(primitive: int): DrawCall {
    DrawTriangle(primitive * 3)
  }

  /** `drawQuad()`: the six vertices of the axis overlay's quad. */
  function DrawQuad(): DrawCall {
    DrawArrays(Triangles, 0, 6)
  }

  /** The strips of the visible pass partition the strip table: every one of its 24 vertices is fetched by
      exactly one strip, strip `k / 4`, and no strip fetches anything outside it. */
  lemma StripsPartitionStripTable(k: int)
    ensures var calls := DrawTriangleStrips(StripCount);
      (0 <= k < StripVertexCount <==> exists i | 0 <= i < |calls| :: Fetches(calls[i], k)) &&
      forall i | 0 <= i < |calls| :: Fetches(calls[i], k) <==> (0 <= k && i == k / StripLength)
  {
    var calls := DrawTriangleStrips(StripCount);
    if 0 <= k < StripVertexCount {
      assert Fetches(calls[k / StripLength], k);
    }
  }

  /** The hand-written strip calls of cube_shader.cpp are exactly `drawTriangleStrips(..., 6)`. */
  lemma CubeShaderStripsMatchLoop()
    ensures CubeShaderStrips() == DrawTriangleStrips(StripCount)
  {
    var calls := DrawTriangleStrips(StripCount);
    assert forall i | 0 <= i < StripCount :: calls[i] == CubeShaderStrips()[i];
  }

  /** The identity pass fetches exactly the 36 vertices of the picking table, in one triangle-list call. */
  lemma IdentityPassCoversPickingTable(k: int)
    ensures IdentityPassDraw().mode == Triangles
    ensures Fetches(IdentityPassDraw(), k) <==> 0 <= k < PickingVertexCount
  {
  }

  /** The highlight of primitive p fetches exactly the three vertices of triangle p. It stays inside the
      picking table exactly when p < 12; `drawPrimitive` itself does not check the bound. */
  lemma HighlightFetchesPickedTriangle(primitive: int, k: int)
    ensures Fetches(DrawPrimitive(primitive), k) <==> 3 * primitive <= k < 3 * primitive + 3
    ensures 0 <= primitive ==>
      (DrawPrimitive(primitive).first + DrawPrimitive(primitive).count <= PickingVertexCount <==> primitive < PickingTriangleCount)
    ensures 0 <= primitive < PickingTriangleCount && Fetches(DrawPrimitive(primitive), k) ==>
      0 <= k && k / 3 == primitive && PickingVertex(k) == TriangleCorners(PickingTriangle(primitive))[k - 3 * primitive]
  {
    if 0 <= primitive < PickingTriangleCount && Fetches(DrawPrimitive(primitive), k) {
      PickingVertexOfTriangle(primitive, k - 3 * primitive);
    }
  }

  /** The axis overlay fetches exactly the six vertices of its quad buffer. */
  lemma AxisQuadCoversQuadBuffer(k: int)
    ensures Fetches(DrawQuad(), k) <==> 0 <= k < AxisQuadVertexCount
  {
  }
}
