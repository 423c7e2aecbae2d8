/** The GPU vertex record and the primitive-restart marker of glvertex.h. */
module GlVertex {
  import opened MathFunctions
  import opened CppTypes

  /** `PRIMITIVE_RESTART_INDEX = UINT_MAX`. */
  const PRIMITIVE_RESTART_INDEX: u32 := 0xFFFF_FFFF

  /** `glvertex`; a value-initialised vertex is all zeros. */
  datatype GlVertex = GlVertex(position: Vec3, normal: Vec3, uv: Vec2, boneid: int)

  const ZERO_VERTEX: GlVertex := GlVertex(ZERO3, ZERO3, ZERO2, 0)
}
