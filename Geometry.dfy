/** Three-component vectors (THREE.Vector3) over the reals. Float rounding is not modelled. */
module Geometry {

  datatype Vec3 = Vec3(x: real, y: real, z: real)

  const Origin: Vec3 := Vec3(0.0, 0.0, 0.0)

  /** `Math.abs` */
  function Abs(x: real): real
  {
    if x < 0.0 then -x else x
  }

  /** The range of a `Math.random()` result. */
  predicate InUnit(r: real)
  {
    0.0 <= r < 1.0
  }

  /** `v.addScaledVector(w, k)` */
  function AddScaled(v: Vec3, w: Vec3, k: real): Vec3
  {
    Vec3(v.x + w.x * k, v.y + w.y * k, v.z + w.z * k)
  }

  /** The square of `a.distanceTo(b)`; comparing it with r*r avoids the square root. */
  function DistanceSquared(a: Vec3, b: Vec3): (d: real)
    ensures d >= 0.0
  {
    var dx, dy, dz := a.x - b.x, a.y - b.y, a.z - b.z;
    assert dx * dx >= 0.0 && dy * dy >= 0.0 && dz * dz >= 0.0;
    dx * dx + dy * dy + dz * dz
  }
}
