/**
 * The part of cgmath's Vector3<f64> the renderer uses, over real numbers
 * (an idealisation of f64 without rounding, NaN or infinities), and the
 * library maths the model leaves abstract.
 */
module Vectors {

  datatype Vec3 = Vec3(x: real, y: real, z: real)

  const Zero: Vec3 := Vec3(0.0, 0.0, 0.0)

  function Add(a: Vec3, b: Vec3): Vec3 {
    Vec3(a.x + b.x, a.y + b.y, a.z + b.z)
  }

  function Sub(a: Vec3, b: Vec3): Vec3 {
    Vec3(a.x - b.x, a.y - b.y, a.z - b.z)
  }

  /** Vector times scalar (`v * k`). */
  function Scale(a: Vec3, k: real): Vec3 {
    Vec3(a.x * k, a.y * k, a.z * k)
  }

  function Neg(a: Vec3): Vec3 {
    Vec3(-a.x, -a.y, -a.z)
  }

  function Dot(a: Vec3, b: Vec3): real {
    a.x * b.x + a.y * b.y + a.z * b.z
  }

  function Max(a: real, b: real): real {
    if a >= b then a else b
  }

  function Abs(a: real): real {
    if a < 0.0 then -a else a
  }

  /**
   * The library functions the renderer calls whose values involve square
   * roots or trigonometry: cgmath's `normalize` and f64's `tan`. They are
   * parameters of the model, so nothing is assumed about them.
   */
  datatype Maths = Maths(normalize: Vec3 -> Vec3, tan: real -> real)

  /** std::f64::consts::PI, written as the shortest decimal that rounds to that f64 value (not the exact binary value). */
  const Pi: real := 3.141592653589793

  /** f64::to_radians: degrees times PI / 180. */
  function ToRadians(degrees: real): real {
    degrees * (Pi / 180.0)
  }

  /** The dot product along a ray: Dot(o + d*t, n) == Dot(o, n) + t * Dot(d, n). */
  lemma DotAlongRay(o: Vec3, d: Vec3, t: real, n: Vec3)
    ensures Dot(Add(o, Scale(d, t)), n) == Dot(o, n) + t * Dot(d, n)
  {
  }

  lemma DotSymmetric(a: Vec3, b: Vec3)
    ensures Dot(a, b) == Dot(b, a)
  {
  }
}
