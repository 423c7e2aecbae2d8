/**
 * Scalar helpers and the Assimp -> glm conversions of math_functions.h.
 * Single-precision floats are modelled as exact reals; the constants below are
 * the exact values of the single-precision numbers the viewer uses.
 */
module MathFunctions {

  /** `M_PI_F`: pi rounded to single precision. */
  const PI_F: real := 3.1415927410125732421875
  /** `HALF_PI`: pi/2 rounded to single precision. */
  const HALF_PI: real := 1.57079637050628662109375
  /** `TWO_PI`: 2*pi rounded to single precision. */
  const TWO_PI: real := 6.283185482025146484375

  datatype Vec2 = Vec2(x: real, y: real)
  datatype Vec3 = Vec3(x: real, y: real, z: real)

  const ZERO2: Vec2 := Vec2(0.0, 0.0)
  const ZERO3: Vec3 := Vec3(0.0, 0.0, 0.0)

  /**
   * `clamp(value, min, max)`: min when value is below min, otherwise max when
   * value is above max, otherwise value itself.
   */
  function Clamp(value: real, min: real, max: real): (r: real)
    ensures value < min ==> r == min
    ensures min <= value ==> r == (if value > max then max else value)
    ensures min <= max ==> min <= r <= max
    ensures min <= value <= max ==> r == value
  {
    if value < min then min else if value > max then max else value
  }

  /** Clamping twice with the same bounds gives what clamping once gives. */
  lemma ClampIdempotent(value: real, min: real, max: real)
    requires min <= max
    ensures Clamp(Clamp(value, min, max), min, max) == Clamp(value, min, max)
  {
  }

  /** The C++ conversion `(int)x` of a float: truncation toward zero. */
  function TruncToInt(x: real): (r: int)
    ensures 0.0 <= x ==> r as real <= x < r as real + 1.0
    ensures x < 0.0 ==> r as real - 1.0 < x <= r as real
    ensures 0.0 <= x ==> r == x.Floor
  {
    if 0.0 <= x then x.Floor else -((-x).Floor)
  }

  /** An Assimp quaternion, stored w first. */
  datatype AiQuaternion = AiQuaternion(w: real, x: real, y: real, z: real)

  /** A glm quaternion; its constructor takes (w, x, y, z). */
  datatype GlmQuat = GlmQuat(x: real, y: real, z: real, w: real)

  /** `to_glm_quat`: `glm::quat(q.w, q.x, q.y, q.z)`. */
  function ToGlmQuat(q: AiQuaternion): (r: GlmQuat)
  {
    GlmQuat(x := q.x, y := q.y, z := q.z, w := q.w)
  }

  /** Reads a glm quaternion back into Assimp's layout. */
  function FromGlmQuat(q: GlmQuat): (r: AiQuaternion)
  {
    AiQuaternion(q.w, q.x, q.y, q.z)
  }

  /** The conversion loses nothing: each named component keeps its value, both ways round. */
  lemma QuatConversionLossless(q: AiQuaternion, g: GlmQuat)
    ensures ToGlmQuat(q).w == q.w && ToGlmQuat(q).x == q.x
    ensures ToGlmQuat(q).y == q.y && ToGlmQuat(q).z == q.z
    ensures FromGlmQuat(ToGlmQuat(q)) == q
    ensures ToGlmQuat(FromGlmQuat(g)) == g
  {
  }

  ghost predicate Is4x4(m: seq<seq<real>>)
  {
    |m| == 4 && forall i :: 0 <= i < 4 ==> |m[i]| == 4
  }

  /** An Assimp matrix: `rows[0]` is (a1, a2, a3, a4), ..., `rows[3]` is (d1, d2, d3, d4). */
  datatype AiMatrix4x4 = AiMatrix4x4(rows: seq<seq<real>>)
  {
    ghost predicate Valid() { Is4x4(rows) }
    function Entry(row: nat, col: nat): real
      requires Valid() && row < 4 && col < 4
    {
      rows[row][col]
    }
  }

  /** A glm matrix: column-major, `columns[j][i]` is the entry in row i and column j. */
  datatype GlmMat4 = GlmMat4(columns: seq<seq<real>>)
  {
    ghost predicate Valid() { Is4x4(columns) }
    function Entry(row: nat, col: nat): real
      requires Valid() && row < 4 && col < 4
    {
      columns[col][row]
    }
  }

  /** `to_glm_mat4`: glm column j is built from (a_j, b_j, c_j, d_j). */
  function ToGlmMat4(m: AiMatrix4x4): (r: GlmMat4)
    requires m.Valid()
    ensures r.Valid()
    ensures forall row, col :: 0 <= row < 4 && 0 <= col < 4 ==> r.Entry(row, col) == m.Entry(row, col)
  {
    GlmMat4(seq(4, j requires 0 <= j < 4 => seq(4, i requires 0 <= i < 4 => m.rows[i][j])))
  }

  /** Reads a glm matrix back into Assimp's row layout. */
  function FromGlmMat4(g: GlmMat4): (r: AiMatrix4x4)
    requires g.Valid()
    ensures r.Valid()
    ensures forall row, col :: 0 <= row < 4 && 0 <= col < 4 ==> r.Entry(row, col) == g.Entry(row, col)
  {
    AiMatrix4x4(seq(4, i requires 0 <= i < 4 => seq(4, j requires 0 <= j < 4 => g.columns[j][i])))
  }

  /** Converting to glm and back gives the same Assimp matrix. */
  lemma Mat4RoundTrip(m: AiMatrix4x4)
    requires m.Valid()
    ensures FromGlmMat4(ToGlmMat4(m)) == m
  {
    var back := FromGlmMat4(ToGlmMat4(m));
    forall i | 0 <= i < 4
      ensures back.rows[i] == m.rows[i]
    {
      assert forall j :: 0 <= j < 4 ==> back.rows[i][j] == back.Entry(i, j) == m.Entry(i, j);
    }
  }
}
