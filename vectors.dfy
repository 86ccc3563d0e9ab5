/** Small vector algebra over exact reals, standing in for the float32
    vectors of the mgl32 package (Vec2, Vec3) and the engine's BoundingBox. */
module Vectors {

  datatype Vec3 = Vec3(x: real, y: real, z: real) {

    function Add(o: Vec3): Vec3 { Vec3(x + o.x, y + o.y, z + o.z) }

    function Sub(o: Vec3): Vec3 { Vec3(x - o.x, y - o.y, z - o.z) }

    /** Scalar multiplication (mgl32's Vec3.Mul). */
    function Mul(s: real): Vec3 { Vec3(x * s, y * s, z * s) }

    /** Component-wise product, written out by hand in tryPickObject. */
    function CompMul(o: Vec3): Vec3 { Vec3(x * o.x, y * o.y, z * o.z) }

    function Cross(o: Vec3): Vec3 {
      Vec3(y * o.z - z * o.y, z * o.x - x * o.z, x * o.y - y * o.x)
    }

    /** Component `i` (0 = X, 1 = Y, 2 = Z), as `v[i]` in Go. */
    function At(i: nat): real
      requires i < 3
    {
      if i == 0 then x else if i == 1 then y else z
    }

    /** The vector with component `i` replaced by `r`. */
    function With(i: nat, r: real): Vec3
      requires i < 3
    {
      if i == 0 then Vec3(r, y, z) else if i == 1 then Vec3(x, r, z) else Vec3(x, y, r)
    }
  }

  const Zero: Vec3 := Vec3(0.0, 0.0, 0.0)
  const One: Vec3 := Vec3(1.0, 1.0, 1.0)

  datatype Vec2 = Vec2(x: real, y: real)

  /** An axis-aligned box given by two corners. Nothing forces min <= max. */
  datatype Box = Box(min: Vec3, max: Vec3)

  /** An RGBA colour, as the UI's mgl32.Vec4 colours. */
  datatype Color = Color(r: real, g: real, b: real, a: real)
}
