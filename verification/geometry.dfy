/** Vectors of the engine's transform system, with real components instead of
    single-precision floats. Only the operations the face selector and the
    animations use are defined. */
module Geometry {

  datatype Vec3 = Vec3(x: real, y: real, z: real)

  /** The orientation basis of the tracked cube: its right, up and forward axes. */
  datatype Basis = Basis(right: Vec3, up: Vec3, forward: Vec3)

  const Zero: Vec3 := Vec3(0.0, 0.0, 0.0)

  function Add(a: Vec3, b: Vec3): Vec3 {
    Vec3(a.x + b.x, a.y + b.y, a.z + b.z)
  }

  function Sub(a: Vec3, b: Vec3): Vec3 {
    Vec3(a.x - b.x, a.y - b.y, a.z - b.z)
  }

  function Neg(a: Vec3): Vec3 {
    Vec3(-a.x, -a.y, -a.z)
  }

  function Scale(c: real, a: Vec3): Vec3 {
    Vec3(c * a.x, c * a.y, c * a.z)
  }

  function Dot(a: Vec3, b: Vec3): real {
    a.x * b.x + a.y * b.y + a.z * b.z
  }

  /** A negated face normal gives the negated dot product. */
  lemma DotNeg(d: Vec3, v: Vec3)
    ensures Dot(d, Neg(v)) == -Dot(d, v)
  {
  }

  /** Scaling the direction scales every dot product by the same factor. */
  lemma DotScale(c: real, d: Vec3, v: Vec3)
    ensures Dot(Scale(c, d), v) == c * Dot(d, v)
  {
    calc {
      Dot(Scale(c, d), v);
      (c * d.x) * v.x + (c * d.y) * v.y + (c * d.z) * v.z;
      c * (d.x * v.x) + c * (d.y * v.y) + c * (d.z * v.z);
      c * Dot(d, v);
    }
  }

  /** The zero direction is orthogonal to everything. */
  lemma DotZero(v: Vec3)
    ensures Dot(Zero, v) == 0.0
  {
  }
}
