/**
 * `BufferBuilder` (buffer_builder.cpp): append-only vertex and index buffers shared by
 * several meshes. Appended indices are rebased by the mesh's first vertex, in unsigned
 * 32-bit arithmetic, except the primitive-restart marker, which passes through.
 */
module Buffers {
  import opened CppTypes
  import opened GlVertex
  import opened Stride

  /** The indices as stored: restart markers kept, every other index offset by `vertexStart` modulo 2^32. */
  function Rebased(indices: seq<u32>, primitiveRestartIndex: u32, vertexStart: int): (r: seq<u32>)
    ensures |r| == |indices|
    ensures forall k :: 0 <= k < |r| && indices[k] == primitiveRestartIndex ==> r[k] == primitiveRestartIndex
    ensures forall k :: 0 <= k < |r| && indices[k] != primitiveRestartIndex ==>
      (r[k] as int - vertexStart - indices[k] as int) % TWO_TO_32 == 0
  {
    seq(|indices|, k requires 0 <= k < |indices| =>
      if indices[k] == primitiveRestartIndex then indices[k] else ToU32(vertexStart + indices[k] as int))
  }

  /** No rebased index wraps around or lands on the marker. */
  predicate FitsBelowMarker(indices: seq<u32>, primitiveRestartIndex: u32, vertexStart: int)
  {
    forall k :: 0 <= k < |indices| && indices[k] != primitiveRestartIndex ==>
      0 <= vertexStart + indices[k] as int < primitiveRestartIndex as int
  }

  /**
   * While the offset indices stay below the marker, rebasing is exact and reversible:
   * markers stay exactly where they were and every other index moves by `vertexStart`.
   */
  lemma RebasedKeepsMarkersExactly(indices: seq<u32>, primitiveRestartIndex: u32, vertexStart: int)
    requires FitsBelowMarker(indices, primitiveRestartIndex, vertexStart)
    ensures var r := Rebased(indices, primitiveRestartIndex, vertexStart);
      && (forall k :: 0 <= k < |r| ==> (r[k] == primitiveRestartIndex <==> indices[k] == primitiveRestartIndex))
      && (forall k :: 0 <= k < |r| && indices[k] != primitiveRestartIndex ==> r[k] as int - vertexStart == indices[k] as int)
  {
  }

  /** Rebasing in two steps is rebasing by the sum, when nothing wraps or hits the marker. */
  lemma RebasedTwice(indices: seq<u32>, primitiveRestartIndex: u32, a: int, b: int)
    requires a >= 0 && b >= 0 && FitsBelowMarker(indices, primitiveRestartIndex, a + b)
    ensures FitsBelowMarker(indices, primitiveRestartIndex, b)
    ensures Rebased(Rebased(indices, primitiveRestartIndex, b), primitiveRestartIndex, a)
         == Rebased(indices, primitiveRestartIndex, a + b)
  {
    var once := Rebased(indices, primitiveRestartIndex, b);
    RebasedKeepsMarkersExactly(indices, primitiveRestartIndex, b);
  }

  /** A value the source rebases into the marker is indistinguishable from a restart afterwards. */
  lemma OverflowCanForgeMarker()
    ensures Rebased([0xFFFF_FFFE], PRIMITIVE_RESTART_INDEX, 1) == [PRIMITIVE_RESTART_INDEX]
  {
    assert ToU32(1 + 0xFFFF_FFFE) == PRIMITIVE_RESTART_INDEX;
  }

  class BufferBuilder {
    var vertices: seq<GlVertex>
    var indices: seq<u32>

    constructor ()
      ensures vertices == [] && indices == []
    {
      vertices := [];
      indices := [];
    }

    /** Pushes each index, keeping markers and offsetting the rest by `vertexStart`. */
    method PushRebased(newIndices: seq<u32>, primitiveRestartIndex: u32, vertexStart: int)
      modifies this
      ensures vertices == old(vertices)
      ensures indices == old(indices) + Rebased(newIndices, primitiveRestartIndex, vertexStart)
    {
      ghost var expected := Rebased(newIndices, primitiveRestartIndex, vertexStart);
      for k := 0 to |newIndices|
        invariant vertices == old(vertices)
        invariant indices == old(indices) + expected[..k]
      {
        assert expected[..k + 1] == expected[..k] + [expected[k]];
        if newIndices[k] == primitiveRestartIndex {
          indices := indices + [newIndices[k]];
        } else {
          indices := indices + [ToU32(vertexStart + newIndices[k] as int)];
        }
      }
      assert expected[..|newIndices|] == expected;
    }

    /**
     * `append(vertices, indices, restart, stride)`: records where the mesh starts and how
     * big it is, then pushes its vertices and its rebased indices after everything
     * already stored, which stays as it was.
     */
    method Append(newVertices: seq<GlVertex>, newIndices: seq<u32>, primitiveRestartIndex: u32, stride: MeshBufferStride)
      modifies this, stride
      ensures stride.vertexStartIndex == ToInt32(|old(vertices)|)
      ensures stride.indiceStartIndex == ToInt32(|old(indices)|)
      ensures stride.numVertices == ToInt32(|newVertices|)
      ensures stride.numIndices == ToInt32(|newIndices|)
      ensures vertices == old(vertices) + newVertices
      ensures indices == old(indices) + Rebased(newIndices, primitiveRestartIndex, stride.vertexStartIndex)
    {
      stride.vertexStartIndex := ToInt32(|vertices|);
      stride.indiceStartIndex := ToInt32(|indices|);
      stride.numVertices := ToInt32(|newVertices|);
      stride.numIndices := ToInt32(|newIndices|);

      for k := 0 to |newVertices|
        invariant vertices == old(vertices) + newVertices[..k]
        invariant indices == old(indices)
        invariant stride.vertexStartIndex == ToInt32(|old(vertices)|) && stride.indiceStartIndex == ToInt32(|old(indices)|)
        invariant stride.numVertices == ToInt32(|newVertices|) && stride.numIndices == ToInt32(|newIndices|)
      {
        assert newVertices[..k + 1] == newVertices[..k] + [newVertices[k]];
        vertices := vertices + [newVertices[k]];
      }
      assert newVertices[..|newVertices|] == newVertices;

      PushRebased(newIndices, primitiveRestartIndex, stride.vertexStartIndex);
    }

    /**
     * `append_indices(previous, indices, restart, stride)`: a second index list over the
     * vertices of an earlier mesh; no vertex is added.
     */
    method AppendIndices(previousStride: MeshBufferStride, newIndices: seq<u32>, primitiveRestartIndex: u32,
                         stride: MeshBufferStride)
      modifies this, stride
      ensures stride.vertexStartIndex == old(previousStride.vertexStartIndex)
      ensures stride.indiceStartIndex == ToInt32(|old(indices)|)
      ensures stride.numVertices == old(previousStride.numVertices)
      ensures stride.numIndices == ToInt32(|newIndices|)
      ensures vertices == old(vertices)
      ensures indices == old(indices) + Rebased(newIndices, primitiveRestartIndex, old(previousStride.vertexStartIndex))
    {
      var vertexStart := previousStride.vertexStartIndex;
      stride.vertexStartIndex := previousStride.vertexStartIndex;
      stride.indiceStartIndex := ToInt32(|indices|);
      stride.numVertices := previousStride.numVertices;
      stride.numIndices := ToInt32(|newIndices|);
      PushRebased(newIndices, primitiveRestartIndex, vertexStart);
    }

    /** `reserve`: capacity only; neither buffer's contents change. */
    method Reserve(numVertices: nat, numIndices: nat)
      modifies this
      ensures vertices == old(vertices) && indices == old(indices)
    {
    }
  }
}
