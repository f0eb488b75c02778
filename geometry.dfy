/** The vector types the renderer borrows from raymath, with the few
    operations on them the core uses. Floats are reals; rounding is not
    modelled. */
module Geometry {

  datatype Vector2 = Vector2(x: real, y: real)
  datatype Vector3 = Vector3(x: real, y: real, z: real)
  datatype Vector4 = Vector4(x: real, y: real, z: real, w: real)

  /** A line primitive with its brightness (the Renderer's Line). */
  datatype Line = Line(a: Vector2, b: Vector2, brightness: real)

  /** A point primitive with its brightness (the Renderer's Point). */
  datatype Point = Point(x: real, y: real, brightness: real)

  /** Line<Vector2> of types.h: two endpoints, no brightness. */
  datatype Line2D = Line2D(a: Vector2, b: Vector2)

  function Sub2(u: Vector2, v: Vector2): Vector2 { Vector2(u.x - v.x, u.y - v.y) }

  function Dot2(u: Vector2, v: Vector2): real { u.x * v.x + u.y * v.y }

  /** The point a fraction t of the way from a to b: a + t(b - a). */
  function At(a: Vector2, b: Vector2, t: real): Vector2
  {
    Vector2(a.x + t * (b.x - a.x), a.y + t * (b.y - a.y))
  }

  function Scale3(v: Vector3, s: real): Vector3 { Vector3(v.x * s, v.y * s, v.z * s) }

  /** The (x, y) part of a homogeneous coordinate. */
  function Xy(v: Vector4): Vector2 { Vector2(v.x, v.y) }

  lemma AtEnds(a: Vector2, b: Vector2)
    ensures At(a, b, 0.0) == a && At(a, b, 1.0) == b
  {
  }
}
