/** `MeshBufferStride` (mesh_buffer_stride.h): where one mesh's vertices and indices sit in the shared buffers. */
module Stride {

  class MeshBufferStride {
    var vertexStartIndex: int
    var indiceStartIndex: int
    var numVertices: int
    var numIndices: int

    /** Both starts -1 ("never appended") and both counts 0. */
    ghost predicate IsUnset()
      reads this
    {
      vertexStartIndex == -1 && indiceStartIndex == -1 && numVertices == 0 && numIndices == 0
    }

    constructor ()
      ensures IsUnset()
    {
      vertexStartIndex := -1;
      indiceStartIndex := -1;
      numVertices := 0;
      numIndices := 0;
    }

    /** `reset`: back to the constructed state, whatever the fields held. */
    method Reset()
      modifies this
      ensures IsUnset()
    {
      vertexStartIndex := -1;
      indiceStartIndex := -1;
      numVertices := 0;
      numIndices := 0;
    }
  }
}
