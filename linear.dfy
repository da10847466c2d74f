/**
 * Small fixed-size linear algebra over the reals, standing in for the Eigen and
 * GLM vector, matrix and quaternion types the animation code uses.
 *
 * Matrices follow GLM's convention: a `Mat4` is given by its four COLUMNS, so
 * `m.c3` is what the source writes as `m[3]`.  Norms and lengths need a square
 * root, which has no closed form here; every operation that needs one takes the
 * norm as a function-valued parameter.
 */
module Linear {

  datatype Vec3 = Vec3(x: real, y: real, z: real)

  datatype Vec4 = Vec4(x: real, y: real, z: real, w: real)

  /** Columns c0..c3, as GLM stores a mat4. */
  datatype Mat4 = Mat4(c0: Vec4, c1: Vec4, c2: Vec4, c3: Vec4)

  /** Quaternion with real part w, as glm::quat(w, x, y, z). */
  datatype Quat = Quat(w: real, x: real, y: real, z: real)

  /** The Euclidean norm of a vector, supplied by the caller (Eigen's norm(), glm::length). */
  type Norm = Vec3 -> real

  const Zero3 := Vec3(0.0, 0.0, 0.0)

  function Add(a: Vec3, b: Vec3): Vec3 { Vec3(a.x + b.x, a.y + b.y, a.z + b.z) }

  function Sub(a: Vec3, b: Vec3): Vec3 { Vec3(a.x - b.x, a.y - b.y, a.z - b.z) }

  function Neg(a: Vec3): Vec3 { Vec3(-a.x, -a.y, -a.z) }

  function Scale(s: real, a: Vec3): Vec3 { Vec3(s * a.x, s * a.y, s * a.z) }

  function Dot(a: Vec3, b: Vec3): real { a.x * b.x + a.y * b.y + a.z * b.z }

  function Cross(a: Vec3, b: Vec3): Vec3
  {
    Vec3(a.y * b.z - a.z * b.y, a.z * b.x - a.x * b.z, a.x * b.y - a.y * b.x)
  }

  /** Component c (0, 1 or 2) of a vector, as Eigen's x(c). */
  function Comp(a: Vec3, c: int): real
    requires 0 <= c < 3
  {
    if c == 0 then a.x else if c == 1 then a.y else a.z
  }

  /** Division as the source's floating point performs it, except that a zero divisor
      (which yields an infinity or NaN there) yields 0 here. */
  function Div(a: real, b: real): real
  {
    if b != 0.0 then a / b else 0.0
  }

  /** Eigen's normalized(): the vector divided by its norm, or the vector itself when
      the norm is zero. */
  function Normalized(norm: Norm, a: Vec3): Vec3
  {
    var l := norm(a);
    if l > 0.0 then Scale(1.0 / l, a) else a
  }

  // ---- 4-vectors and 4x4 matrices (GLM) ----

  function Xyz(a: Vec4): Vec3 { Vec3(a.x, a.y, a.z) }

  function Point(a: Vec3): Vec4 { Vec4(a.x, a.y, a.z, 1.0) }

  function Direction(a: Vec3): Vec4 { Vec4(a.x, a.y, a.z, 0.0) }

  function Add4(a: Vec4, b: Vec4): Vec4 { Vec4(a.x + b.x, a.y + b.y, a.z + b.z, a.w + b.w) }

  function Scale4(s: real, a: Vec4): Vec4 { Vec4(s * a.x, s * a.y, s * a.z, s * a.w) }


  /** m * a: the combination of m's columns weighted by a's components. */
  function MulVec(m: Mat4, a: Vec4): Vec4
  {
    Add4(Add4(Scale4(a.x, m.c0), Scale4(a.y, m.c1)), Add4(Scale4(a.z, m.c2), Scale4(a.w, m.c3)))
  }

  /** m * n, column by column. */
  function MulMat(m: Mat4, n: Mat4): Mat4
  {
    Mat4(MulVec(m, n.c0), MulVec(m, n.c1), MulVec(m, n.c2), MulVec(m, n.c3))
  }

  /** A matrix times a direction (w = 0) does not depend on the matrix's translation
      column. */
  lemma DirectionIgnoresTranslation(m: Mat4, t: Vec4, a: Vec3)
    ensures MulVec(m, Direction(a)) == MulVec(m.(c3 := t), Direction(a))
  {
  }

  // ---- quaternions ----

  const IdentityQuat := Quat(1.0, 0.0, 0.0, 0.0)

  function QDot(a: Quat, b: Quat): real { a.w * b.w + a.x * b.x + a.y * b.y + a.z * b.z }

  function QNeg(a: Quat): Quat { Quat(-a.w, -a.x, -a.y, -a.z) }

  function QAdd(a: Quat, b: Quat): Quat { Quat(a.w + b.w, a.x + b.x, a.y + b.y, a.z + b.z) }

  function QScale(s: real, a: Quat): Quat { Quat(s * a.w, s * a.x, s * a.y, s * a.z) }

  /** glm::normalize for quaternions, given glm::length: the identity when the length
      is not positive. */
  function QNormalized(qlength: Quat -> real, q: Quat): Quat
  {
    var l := qlength(q);
    if l <= 0.0 then IdentityQuat else QScale(1.0 / l, q)
  }

  // ---- C library rounding (over the reals) ----

  /** Truncation toward zero, as a C cast from floating point to int. */
  function Trunc(a: real): (t: int)
    ensures a >= 0.0 ==> t as real <= a < t as real + 1.0
    ensures a < 0.0 ==> t as real - 1.0 < a <= t as real
  {
    if a >= 0.0 then a.Floor else -((-a).Floor)
  }

  /** The fractional part of q, rounded toward zero (what modf leaves). */
  function Frac(q: real): (d: real)
    ensures q >= 0.0 ==> 0.0 <= d < 1.0
    ensures q < 0.0 ==> -1.0 < d <= 0.0
  {
    q - Trunc(q) as real
  }

  /** C's fmod: the remainder of a / m with the sign of a, written as m times the
      fractional part (rounded toward zero) of a / m. */
  function FMod(a: real, m: real): (r: real)
    requires m > 0.0
    ensures a >= 0.0 ==> 0.0 <= r < m
    ensures a < 0.0 ==> -m < r <= 0.0
  {
    FModBounds(a, m);
    m * Frac(a / m)
  }

  lemma FModBounds(a: real, m: real)
    requires m > 0.0
    ensures a >= 0.0 ==> 0.0 <= m * Frac(a / m) < m
    ensures a < 0.0 ==> -m < m * Frac(a / m) <= 0.0
  {
    QuotientSign(a, m);
    FractionBounds(m, Frac(a / m));
  }

  /** Dividing by a positive number keeps the sign. */
  lemma QuotientSign(a: real, m: real)
    requires m > 0.0
    ensures a >= 0.0 <==> a / m >= 0.0
  {
    var q := a / m;
    assert a == m * q;
    MulMonotone(m, q, 0.0);
    MulMonotone(m, 0.0, q);
  }

  lemma FractionBounds(m: real, d: real)
    requires m > 0.0
    ensures 0.0 <= d < 1.0 ==> 0.0 <= m * d < m
    ensures -1.0 < d <= 0.0 ==> -m < m * d <= 0.0
  {
    MulMonotone(m, d, 1.0);
    MulMonotone(m, 0.0, d);
    MulMonotone(m, -1.0, d);
    MulMonotone(m, d, 0.0);
  }

  lemma MulMonotone(m: real, a: real, b: real)
    requires m > 0.0
    ensures a <= b ==> m * a <= m * b
    ensures a < b ==> m * a < m * b
  {
  }
}
