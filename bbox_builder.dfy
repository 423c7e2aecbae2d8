/**
 * `BBoxBuilder` (bbox_builder.cpp): the eight corners of an axis-aligned box as vertices,
 * and index lists that draw its outline as a line strip or its faces as two triangle fans.
 */
module BoxBuilder {
  import opened MathFunctions
  import opened CppTypes
  import opened GlVertex

  /** Corner k uses bbmax in x for k mod 4 in {2, 3}, in y for k >= 4, in z for k mod 4 in {1, 2}. */
  predicate MaxX(k: int) { k % 4 == 2 || k % 4 == 3 }
  predicate MaxY(k: int) { k >= 4 }
  predicate MaxZ(k: int) { k % 4 == 1 || k % 4 == 2 }

  function Corner(k: int, bbmin: Vec3, bbmax: Vec3): Vec3
  {
    Vec3(if MaxX(k) then bbmax.x else bbmin.x,
         if MaxY(k) then bbmax.y else bbmin.y,
         if MaxZ(k) then bbmax.z else bbmin.z)
  }

  /** Corners 0-3 lie on the bbmin.y face and corner k + 4 is corner k moved to bbmax.y. */
  lemma CornersStackInY(bbmin: Vec3, bbmax: Vec3)
    ensures forall k :: 0 <= k < 4 ==> Corner(k, bbmin, bbmax).y == bbmin.y
    ensures forall k :: 4 <= k < 8 ==> Corner(k, bbmin, bbmax) == Corner(k - 4, bbmin, bbmax).(y := bbmax.y)
  {
  }

  /** For a box with positive extent in every axis the eight corners are pairwise distinct. */
  lemma {:induction false} CornersDistinct(bbmin: Vec3, bbmax: Vec3, i: int, j: int)
    requires bbmin.x < bbmax.x && bbmin.y < bbmax.y && bbmin.z < bbmax.z
    requires 0 <= i < 8 && 0 <= j < 8 && i != j
    ensures Corner(i, bbmin, bbmax) != Corner(j, bbmin, bbmax)
  {
    assert MaxX(i) != MaxX(j) || MaxY(i) != MaxY(j) || MaxZ(i) != MaxZ(j);
  }

  /** Two corners are joined by a box edge when they differ in exactly one axis. */
  predicate Adjacent(i: int, j: int)
  {
    (if MaxX(i) != MaxX(j) then 1 else 0) + (if MaxY(i) != MaxY(j) then 1 else 0)
      + (if MaxZ(i) != MaxZ(j) then 1 else 0) == 1
  }

  /** The outline as a strip: a bottom loop, a top loop, then three vertical edges after restarts. */
  function LineStrip(restart: u32): seq<u32>
  {
    [0, 1, 2, 3, 0, 4, 5, 6, 7, 4, restart, 1, 5, restart, 2, 6, restart, 3, 7]
  }

  /** The faces as two fans: around corner 0, a restart, then around corner 6. */
  function TriangleFans(restart: u32): seq<u32>
  {
    [0, 1, 2, 3, 7, 4, 5, 1, restart, 6, 5, 4, 7, 3, 2, 1, 5]
  }

  /** The twelve edges of the box, each as (lower corner, higher corner). */
  const BOX_EDGES: set<(int, int)> :=
    {(0, 1), (1, 2), (2, 3), (0, 3), (4, 5), (5, 6), (6, 7), (4, 7), (0, 4), (1, 5), (2, 6), (3, 7)}

  /** Entries k and k + 1 of a strip are joined: neither is a restart. */
  predicate Joined(strip: seq<u32>, restart: u32, k: int)
    requires 0 <= k < |strip| - 1
  {
    strip[k] != restart && strip[k + 1] != restart
  }

  /** The segment from entry k to entry k + 1, lower corner first. */
  function SegmentAt(strip: seq<u32>, k: int): (int, int)
    requires 0 <= k < |strip| - 1
  {
    if strip[k] < strip[k + 1] then (strip[k] as int, strip[k + 1] as int) else (strip[k + 1] as int, strip[k] as int)
  }

  /** The segments a line strip draws. */
  function Segments(strip: seq<u32>, restart: u32): set<(int, int)>
  {
    set k | 0 <= k < |strip| - 1 && Joined(strip, restart, k) :: SegmentAt(strip, k)
  }

  /** Every segment of the outline strip is a box edge. */
  lemma LineStripSegmentsAreEdges(restart: u32)
    requires restart >= 8
    ensures forall k :: 0 <= k < 18 && Joined(LineStrip(restart), restart, k) ==> SegmentAt(LineStrip(restart), k) in BOX_EDGES
  {
    var s := LineStrip(restart);
    forall k | 0 <= k < 18 && Joined(s, restart, k)
      ensures SegmentAt(s, k) in BOX_EDGES
    {
      assert k !in {9, 10, 12, 13, 15, 16};
    }
  }

  /** Every box edge is a segment of the outline strip. */
  lemma EdgesAreLineStripSegments(restart: u32)
    requires restart >= 8
    ensures forall e :: e in BOX_EDGES ==> e in Segments(LineStrip(restart), restart)
  {
    var s := LineStrip(restart);
    assert Joined(s, restart, 0) && SegmentAt(s, 0) == (0, 1);
    assert Joined(s, restart, 1) && SegmentAt(s, 1) == (1, 2);
    assert Joined(s, restart, 2) && SegmentAt(s, 2) == (2, 3);
    assert Joined(s, restart, 3) && SegmentAt(s, 3) == (0, 3);
    assert Joined(s, restart, 4) && SegmentAt(s, 4) == (0, 4);
    assert Joined(s, restart, 5) && SegmentAt(s, 5) == (4, 5);
    assert Joined(s, restart, 6) && SegmentAt(s, 6) == (5, 6);
    assert Joined(s, restart, 7) && SegmentAt(s, 7) == (6, 7);
    assert Joined(s, restart, 8) && SegmentAt(s, 8) == (4, 7);
    assert Joined(s, restart, 11) && SegmentAt(s, 11) == (1, 5);
    assert Joined(s, restart, 14) && SegmentAt(s, 14) == (2, 6);
    assert Joined(s, restart, 17) && SegmentAt(s, 17) == (3, 7);
  }

  /**
   * The strip has 19 entries with restarts at exactly 10, 13 and 16 (for a marker that
   * is not a corner index) and corner indices everywhere else.
   */
  lemma LineStripShape(restart: u32)
    requires restart >= 8
    ensures |LineStrip(restart)| == 19
    ensures forall k :: 0 <= k < 19 ==> (LineStrip(restart)[k] == restart <==> k == 10 || k == 13 || k == 16)
    ensures forall k :: 0 <= k < 19 && LineStrip(restart)[k] != restart ==> LineStrip(restart)[k] < 8
  {
  }

  /** Each listed edge joins corners that differ in exactly one axis. */
  lemma BoxEdgesAreAdjacent()
    ensures forall e :: e in BOX_EDGES ==> Adjacent(e.0, e.1)
  {
  }

  /** The outline strip draws exactly the twelve box edges. */
  lemma LineStripDrawsBoxEdges(restart: u32)
    requires restart >= 8
    ensures Segments(LineStrip(restart), restart) == BOX_EDGES
  {
    var s := LineStrip(restart);
    LineStripSegmentsAreEdges(restart);
    EdgesAreLineStripSegments(restart);
    forall e | e in Segments(s, restart)
      ensures e in BOX_EDGES
    {
      var k :| 0 <= k < |s| - 1 && Joined(s, restart, k) && SegmentAt(s, k) == e;
    }
  }

  /** The triangles a fan starting at position `start` and running to `end` draws. */
  function FanTriangles(fan: seq<u32>, start: nat, end: nat): seq<(int, int, int)>
    requires start < end <= |fan|
  {
    seq(if end - start >= 3 then end - start - 2 else 0,
        k requires 0 <= k < (if end - start >= 3 then end - start - 2 else 0) =>
          (fan[start] as int, fan[start + k + 1] as int, fan[start + k + 2] as int))
  }

  /** Three corners on one face of the box: they agree in some axis. */
  predicate OnOneFace(t: (int, int, int))
  {
    (MaxX(t.0) == MaxX(t.1) == MaxX(t.2)) || (MaxY(t.0) == MaxY(t.1) == MaxY(t.2))
      || (MaxZ(t.0) == MaxZ(t.1) == MaxZ(t.2))
  }

  /**
   * The fan list has 17 entries with its only restart at 8, for a marker that is not a
   * corner index, and corner indices everywhere else.
   */
  lemma TriangleFansShape(restart: u32)
    requires restart >= 8
    ensures |TriangleFans(restart)| == 17
    ensures forall k :: 0 <= k < 17 ==> (TriangleFans(restart)[k] == restart <==> k == 8)
    ensures forall k :: 0 <= k < 17 && TriangleFans(restart)[k] != restart ==> TriangleFans(restart)[k] < 8
  {
  }

  /** The fan around corner 0 draws six triangles, each on a face of the box. */
  lemma FirstFanOnFaces(restart: u32)
    ensures |FanTriangles(TriangleFans(restart), 0, 8)| == 6
    ensures forall t :: t in FanTriangles(TriangleFans(restart), 0, 8) ==> OnOneFace(t)
  {
    assert FanTriangles(TriangleFans(restart), 0, 8) == [(0, 1, 2), (0, 2, 3), (0, 3, 7), (0, 7, 4), (0, 4, 5), (0, 5, 1)];
  }

  /** The fan around corner 6 draws six triangles, each on a face of the box. */
  lemma SecondFanOnFaces(restart: u32)
    ensures |FanTriangles(TriangleFans(restart), 9, 17)| == 6
    ensures forall t :: t in FanTriangles(TriangleFans(restart), 9, 17) ==> OnOneFace(t)
  {
    assert FanTriangles(TriangleFans(restart), 9, 17) == [(6, 5, 4), (6, 4, 7), (6, 7, 3), (6, 3, 2), (6, 2, 1), (6, 1, 5)];
  }

  class BBoxBuilder {
    var vertices: seq<GlVertex>
    var indices: seq<u32>

    constructor ()
      ensures vertices == [] && indices == []
    {
      vertices := [];
      indices := [];
    }

    /**
     * `build_vertices`: exactly eight vertices, all bound to `boneIndex`, at the box
     * corners; normals and texture coordinates of surviving vertices are kept (new ones
     * are zero), and the indices are untouched.
     */
    method BuildVertices(bbmin: Vec3, bbmax: Vec3, boneIndex: int)
      modifies this
      ensures |vertices| == 8 && indices == old(indices)
      ensures forall k :: 0 <= k < 8 ==> vertices[k].boneid == boneIndex && vertices[k].position == Corner(k, bbmin, bbmax)
      ensures forall k :: 0 <= k < 8 ==>
        var kept := Resize(old(vertices), 8, ZERO_VERTEX)[k];
        vertices[k].normal == kept.normal && vertices[k].uv == kept.uv
    {
      vertices := Resize(vertices, 8, ZERO_VERTEX);
      ghost var resized := vertices;
      for k := 0 to 8
        invariant |vertices| == 8 && indices == old(indices)
        invariant forall j :: 0 <= j < 8 ==> vertices[j] == if j < k then resized[j].(boneid := boneIndex) else resized[j]
      {
        vertices := vertices[k := vertices[k].(boneid := boneIndex)];
      }
      for k := 0 to 8
        invariant |vertices| == 8 && indices == old(indices)
        invariant forall j :: 0 <= j < 8 ==>
          vertices[j] == if j < k then resized[j].(boneid := boneIndex, position := Corner(j, bbmin, bbmax))
                         else resized[j].(boneid := boneIndex)
      {
        vertices := vertices[k := vertices[k].(position := Corner(k, bbmin, bbmax))];
      }
    }

    /** `build_line_strip_indices`: replaces the indices with the outline strip. */
    method BuildLineStripIndices(primitiveRestartIndex: u32)
      modifies this
      ensures indices == LineStrip(primitiveRestartIndex) && vertices == old(vertices)
    {
      var strip := LineStrip(primitiveRestartIndex);
      indices := Resize(indices, 19, 0);
      for k := 0 to 19
        invariant |indices| == 19 && vertices == old(vertices)
        invariant forall j :: 0 <= j < k ==> indices[j] == strip[j]
      {
        indices := indices[k := strip[k]];
      }
    }

    /** `build_triangle_fan_indices`: replaces the indices with the two fans. */
    method BuildTriangleFanIndices(primitiveRestartIndex: u32)
      modifies this
      ensures indices == TriangleFans(primitiveRestartIndex) && vertices == old(vertices)
    {
      var fans := TriangleFans(primitiveRestartIndex);
      indices := Resize(indices, 17, 0);
      for k := 0 to 17
        invariant |indices| == 17 && vertices == old(vertices)
        invariant forall j :: 0 <= j < k ==> indices[j] == fans[j]
      {
        indices := indices[k := fans[k]];
      }
    }

    /** `build_line_strip`: the corners, then the outline. */
    method BuildLineStrip(bbmin: Vec3, bbmax: Vec3, primitiveRestartIndex: u32, boneIndex: int)
      modifies this
      ensures |vertices| == 8 && indices == LineStrip(primitiveRestartIndex)
      ensures forall k :: 0 <= k < 8 ==> vertices[k].boneid == boneIndex && vertices[k].position == Corner(k, bbmin, bbmax)
      ensures forall k :: 0 <= k < 8 ==>
        var kept := Resize(old(vertices), 8, ZERO_VERTEX)[k];
        vertices[k].normal == kept.normal && vertices[k].uv == kept.uv
    {
      BuildVertices(bbmin, bbmax, boneIndex);
      BuildLineStripIndices(primitiveRestartIndex);
    }

    /** `build_triangle_fan`: the corners, then the faces. */
    method BuildTriangleFan(bbmin: Vec3, bbmax: Vec3, primitiveRestartIndex: u32, boneIndex: int)
      modifies this
      ensures |vertices| == 8 && indices == TriangleFans(primitiveRestartIndex)
      ensures forall k :: 0 <= k < 8 ==> vertices[k].boneid == boneIndex && vertices[k].position == Corner(k, bbmin, bbmax)
      ensures forall k :: 0 <= k < 8 ==>
        var kept := Resize(old(vertices), 8, ZERO_VERTEX)[k];
        vertices[k].normal == kept.normal && vertices[k].uv == kept.uv
    {
      BuildVertices(bbmin, bbmax, boneIndex);
      BuildTriangleFanIndices(primitiveRestartIndex);
    }
  }
}
