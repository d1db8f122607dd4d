/** The engine's Vector2 and Vector3 values, with exact real components. */
module Vectors {

  datatype Vec2 = Vec2(x: real, y: real)

  datatype Vec3 = Vec3(x: real, y: real, z: real)

  const Origin2: Vec2 := Vec2(0.0, 0.0)
  const Zero3: Vec3 := Vec3(0.0, 0.0, 0.0)

  /** `(a - b).sqrMagnitude`. */
  function SqrDistance(a: Vec3, b: Vec3): real
  {
    (a.x - b.x) * (a.x - b.x) + (a.y - b.y) * (a.y - b.y) + (a.z - b.z) * (a.z - b.z)
  }

  /** `Mathf.Abs(a - b)`. */
  function AbsDiff(a: real, b: real): real
  {
    if a >= b then a - b else b - a
  }
}
