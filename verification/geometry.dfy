/** The cube's vertex tables and the per-face texture coordinates: `cubeVertices`, the 36-vertex
    triangle list the picking pass draws, and `cubeStripVertices`, 24 vertices drawn as six four-vertex
    strips, in textured_cube_shader.cpp (cube_shader.cpp carries the same strip table under the name
    `cubeVertices`). Every coordinate in both tables is +1 or -1, so positions are integers here. */
module Geometry {

  /** A cube corner. */
  datatype Vertex = Vertex(x: int, y: int, z: int)

  /** Three consecutive vertices of the triangle list. */
  datatype Triangle = Triangle(a: Vertex, b: Vertex, c: Vertex)

  /** Four consecutive vertices of the strip table. */
  datatype Quad = Quad(v0: Vertex, v1: Vertex, v2: Vertex, v3: Vertex)

  /** The six faces, named by their outward normal. */
  datatype Face = Front | Back | Right | Left | Top | Bottom

  /** The outward normal: front z = +1, back z = -1, right x = +1, left x = -1, top y = +1, bottom y = -1. */
  function Normal(f: Face): Vertex {
    match f
    case Front => Vertex(0, 0, 1)
    case Back => Vertex(0, 0, -1)
    case Right => Vertex(1, 0, 0)
    case Left => Vertex(-1, 0, 0)
    case Top => Vertex(0, 1, 0)
    case Bottom => Vertex(0, -1, 0)
  }

  /** A position lies on a face when its coordinate along the face's axis has the normal's sign. */
  predicate OnFace(v: Vertex, f: Face) {
    match f
    case Front => v.z == 1
    case Back => v.z == -1
    case Right => v.x == 1
    case Left => v.x == -1
    case Top => v.y == 1
    case Bottom => v.y == -1
  }

  /** A cube corner: every coordinate is +1 or -1. */
  predicate IsCorner(v: Vertex) {
    (v.x == 1 || v.x == -1) && (v.y == 1 || v.y == -1) && (v.z == 1 || v.z == -1)
  }

  /** Number of triangles in `cubeVertices`, the `12` of the identity pass's `3 * 12`. */
  const PickingTriangleCount: nat := 12
  /** Number of vertices in `cubeVertices`. */
  const PickingVertexCount: nat := 3 * PickingTriangleCount
  /** Number of strips in `cubeStripVertices`, the `6` passed to `drawTriangleStrips`. */
  const StripCount: nat := 6
  /** Vertices per strip. */
  const StripLength: nat := 4
  /** Number of vertices in `cubeStripVertices`. */
  const StripVertexCount: nat := StripLength * StripCount
  /** Each position is three floats. */
  const FloatsPerPosition: nat := 3
  /** Each texture coordinate is two floats. */
  const FloatsPerUV: nat := 2
  /** `sizeof(GLfloat)`. */
  const BytesPerFloat: nat := 4

  /** Triangle t of `cubeVertices` (vertices 3t, 3t + 1, 3t + 2). */
  function PickingTriangle(t: nat): Triangle
    requires t < PickingTriangleCount
  {
    match t
    case 0 => Triangle(Vertex( 1, -1,  1), Vertex( 1,  1,  1), Vertex(-1, -1,  1))
    case 1 => Triangle(Vertex( 1,  1,  1), Vertex(-1,  1,  1), Vertex(-1, -1,  1))
    case 2 => Triangle(Vertex( 1,  1,  1), Vertex( 1, -1,  1), Vertex( 1, -1, -1))
    case 3 => Triangle(Vertex( 1,  1,  1), Vertex( 1, -1, -1), Vertex( 1,  1, -1))
    case 4 => Triangle(Vertex(-1,  1,  1), Vertex(-1, -1, -1), Vertex(-1, -1,  1))
    case 5 => Triangle(Vertex(-1,  1,  1), Vertex(-1,  1, -1), Vertex(-1, -1, -1))
    case 6 => Triangle(Vertex(-1,  1,  1), Vertex( 1,  1,  1), Vertex( 1,  1, -1))
    case 7 => Triangle(Vertex(-1,  1,  1), Vertex( 1,  1, -1), Vertex(-1,  1, -1))
    case 8 => Triangle(Vertex( 1, -1,  1), Vertex(-1, -1,  1), Vertex(-1, -1, -1))
    case 9 => Triangle(Vertex( 1, -1,  1), Vertex(-1, -1, -1), Vertex( 1, -1, -1))
    case 10 => Triangle(Vertex(-1, -1, -1), Vertex(-1,  1, -1), Vertex( 1, -1, -1))
    case _ => Triangle(Vertex( 1, -1, -1), Vertex(-1,  1, -1), Vertex( 1,  1, -1))
  }

  /** Strip s of `cubeStripVertices` (vertices 4s to 4s + 3). */
  function StripQuad(s: nat): Quad
    requires s < StripCount
  {
    match s
    case 0 => Quad(Vertex( 1, -1,  1), Vertex( 1,  1,  1), Vertex(-1, -1,  1), Vertex(-1,  1,  1))
    case 1 => Quad(Vertex(-1, -1, -1), Vertex(-1,  1, -1), Vertex( 1, -1, -1), Vertex( 1,  1, -1))
    case 2 => Quad(Vertex( 1, -1, -1), Vertex( 1,  1, -1), Vertex( 1, -1,  1), Vertex( 1,  1,  1))
    case 3 => Quad(Vertex(-1, -1,  1), Vertex(-1,  1,  1), Vertex(-1, -1, -1), Vertex(-1,  1, -1))
    case 4 => Quad(Vertex( 1,  1,  1), Vertex( 1,  1, -1), Vertex(-1,  1,  1), Vertex(-1,  1, -1))
    case _ => Quad(Vertex( 1, -1, -1), Vertex( 1, -1,  1), Vertex(-1, -1, -1), Vertex(-1, -1,  1))
  }

  /** Vertex k of `cubeVertices`, as `glDrawArrays(GL_TRIANGLES, ...)` fetches it. */
  function PickingVertex(k: nat): Vertex
    requires k < PickingVertexCount
  {
    var tri := PickingTriangle(k / 3);
    if k % 3 == 0 then tri.a else if k % 3 == 1 then tri.b else tri.c
  }

  /** Vertex k of `cubeStripVertices`, as `glDrawArrays(GL_TRIANGLE_STRIP, ...)` fetches it. */
  function StripVertex(k: nat): Vertex
    requires k < StripVertexCount
  {
    var quad := StripQuad(k / 4);
    if k % 4 == 0 then quad.v0 else if k % 4 == 1 then quad.v1 else if k % 4 == 2 then quad.v2 else quad.v3
  }

  /** The face of each triangle pair: pair k holds triangles 2k and 2k + 1. */
  const PickingFaceOrder: seq<Face> := [Front, Right, Left, Top, Bottom, Back]
  /** The face of each strip. */
  const StripFaceOrder: seq<Face> := [Front, Back, Right, Left, Top, Bottom]

  /** The face a picked primitive (the rasterizer's `gl_PrimitiveID` in the picking pass) lies on. */
  function PickedFace(primitive: nat): Face
    requires primitive < PickingTriangleCount
  {
    PickingFaceOrder[primitive / 2]
  }

  /** The strip that draws a face. */
  function StripOf(f: Face): (s: nat)
    ensures s < StripCount && StripFaceOrder[s] == f
  {
    match f
    case Front => 0
    case Back => 1
    case Right => 2
    case Left => 3
    case Top => 4
    case Bottom => 5
  }

  /** The texture coordinate along a face's u axis, in [-1, 1]: u grows to the right as the face is seen from outside. */
  function FaceU(f: Face, v: Vertex): int {
    match f
    case Front => v.x
    case Back => -v.x
    case Right => -v.z
    case Left => v.z
    case Top => v.x
    case Bottom => v.x
  }

  /** The texture coordinate along a face's v axis, in [-1, 1]. */
  function FaceV(f: Face, v: Vertex): int {
    match f
    case Front => v.y
    case Back => v.y
    case Right => v.y
    case Left => v.y
    case Top => -v.z
    case Bottom => v.z
  }

  /** A texture coordinate pair; every entry of `cubeUVs` is 0 or 1. */
  datatype UV = UV(u: int, v: int)

  /** One `CubeFaceUVCoordinates`: bottom right, top right, bottom left, top left. The six faces share it. */
  function FaceCornerUV(corner: nat): UV
    requires corner < StripLength
  {
    if corner == 0 then UV(1, 0) else if corner == 1 then UV(1, 1) else if corner == 2 then UV(0, 0) else UV(0, 1)
  }

  /** The texture coordinate the UV attribute supplies for strip vertex k: entry k of the flattened `cubeUVs[6]`. */
  function StripVertexUV(k: nat): UV
    requires k < StripVertexCount
  {
    FaceCornerUV(k % StripLength)
  }

  /** `sizeof(cubeStripVertices)`: the byte offset of the UV block, `UVOffset`. */
  const UVOffset: nat := StripVertexCount * FloatsPerPosition * BytesPerFloat
  /** `sizeof(cubeUVs)`: six faces of four two-float corners. */
  const UVBytes: nat := StripCount * StripLength * FloatsPerUV * BytesPerFloat
  /** The size given to `glBufferData`: positions followed by texture coordinates. */
  const StripBufferBytes: nat := UVOffset + UVBytes

  /** Byte offset of the UV that the attribute fetches for vertex k (tightly packed, two floats per vertex). */
  function UVByteOffset(k: nat): nat {
    UVOffset + k * FloatsPerUV * BytesPerFloat
  }

  /** The picking table has 36 vertices (108 floats), every one a cube corner; the strip table has 24
      vertices (72 floats), every one a cube corner. */
  lemma TablesHoldCubeCorners()
    ensures PickingVertexCount * FloatsPerPosition == 108 && StripVertexCount * FloatsPerPosition == 72
    ensures forall k | 0 <= k < PickingVertexCount :: IsCorner(PickingVertex(k))
    ensures forall k | 0 <= k < StripVertexCount :: IsCorner(StripVertex(k))
  {
  }

  /** The vertices of a triangle, in table order. */
  function TriangleCorners(tri: Triangle): seq<Vertex> {
    [tri.a, tri.b, tri.c]
  }

  /** The vertices of a strip, in table order. */
  function QuadCorners(q: Quad): seq<Vertex> {
    [q.v0, q.v1, q.v2, q.v3]
  }

  /** Vertex 3t + j of the flat triangle list is corner j of triangle t. */
  lemma PickingVertexOfTriangle(t: nat, j: nat)
    requires t < PickingTriangleCount && j < 3
    ensures PickingVertex(3 * t + j) == TriangleCorners(PickingTriangle(t))[j]
  {
    assert (3 * t + j) / 3 == t && (3 * t + j) % 3 == j;
  }

  /** Vertex 4s + j of the flat strip table is corner j of strip s. */
  lemma StripVertexOfQuad(s: nat, j: nat)
    requires s < StripCount && j < StripLength
    ensures StripVertex(4 * s + j) == QuadCorners(StripQuad(s))[j]
  {
    assert (4 * s + j) / 4 == s && (4 * s + j) % 4 == j;
  }

  /** Triangles 2k and 2k + 1 of the picking table lie on one face, `PickingFaceOrder[k]`: all six of their
      vertices share the coordinate along that face's axis. */
  lemma PickingPairsLieOnFaces(t: nat)
    requires t < PickingTriangleCount
    ensures forall j | 0 <= j < 3 :: OnFace(TriangleCorners(PickingTriangle(t))[j], PickedFace(t))
  {
  }

  /** Strip s lies on face `StripFaceOrder[s]` and its four vertices are four different corners, so the
      strip covers the whole face. */
  lemma StripsCoverFaces(s: nat)
    requires s < StripCount
    ensures forall j | 0 <= j < StripLength :: OnFace(QuadCorners(StripQuad(s))[j], StripFaceOrder[s])
    ensures forall i, j | 0 <= i < j < StripLength :: QuadCorners(StripQuad(s))[i] != QuadCorners(StripQuad(s))[j]
  {
  }

  /** Both face orders list each of the six faces exactly once: `StripOf` inverts `StripFaceOrder`, and
      `PickingFaceOrder` is another arrangement of the same six faces. */
  lemma FaceOrdersArePermutations()
    ensures |PickingFaceOrder| == StripCount && |StripFaceOrder| == StripCount
    ensures forall s | 0 <= s < StripCount :: StripOf(StripFaceOrder[s]) == s
    ensures forall f: Face :: f in PickingFaceOrder && f in StripFaceOrder
    ensures forall i, j | 0 <= i < j < StripCount :: PickingFaceOrder[i] != PickingFaceOrder[j]
  {
    forall f: Face ensures f in PickingFaceOrder && f in StripFaceOrder {
      assert StripFaceOrder[StripOf(f)] == f;
      match f
      case Front => assert PickingFaceOrder[0] == f;
      case Right => assert PickingFaceOrder[1] == f;
      case Left => assert PickingFaceOrder[2] == f;
      case Top => assert PickingFaceOrder[3] == f;
      case Bottom => assert PickingFaceOrder[4] == f;
      case Back => assert PickingFaceOrder[5] == f;
    }
  }

  /** `primitiveID / 2` names the picked face's position in the picking table, not its strip: the two agree
      only for the front face (primitives 0 and 1). Primitive 2 is on the right face, which is strip 2, while
      `2 / 2` is strip 1, the back face. */
  lemma PrimitivePairIsNotStrip(primitive: nat)
    requires primitive < PickingTriangleCount
    ensures StripOf(PickedFace(primitive)) == primitive / 2 <==> primitive < 2
  {
  }

  /** The texture coordinates the strip table gets are the face-plane coordinates of its vertices, mapped
      from [-1, 1] to [0, 1]: u runs along `FaceU`, v along `FaceV`, so each face shows the whole texture
      upright when seen from outside. */
  lemma StripUVsFollowFacePlane(k: nat)
    requires k < StripVertexCount
    ensures var f := StripFaceOrder[k / StripLength];
      2 * StripVertexUV(k).u - 1 == FaceU(f, StripVertex(k)) && 2 * StripVertexUV(k).v - 1 == FaceV(f, StripVertex(k))
  {
  }

  /** The UV block starts right after the 72 position floats (byte 288), is 192 bytes long, and holds
      exactly one two-float UV per strip vertex: the attribute's read for vertex k stays inside the buffer
      exactly when k is one of the 24 strip vertices. */
  lemma UVBlockFitsStripTable(k: nat)
    ensures UVOffset == 288 && UVBytes == 192 && StripBufferBytes == 480
    ensures UVBytes == StripVertexCount * FloatsPerUV * BytesPerFloat
    ensures UVOffset <= UVByteOffset(k)
    ensures UVByteOffset(k) + FloatsPerUV * BytesPerFloat <= StripBufferBytes <==> k < StripVertexCount
  {
  }
}
