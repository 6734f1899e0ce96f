/**
 * Cartesian values the facade moves around: 3-d vectors over the reals, the
 * (position, velocity, acceleration) state of one linear or Euler-angle
 * trajectory, and the base state made of a linear and an angular part.
 */
module Geometry {

  datatype Vec3 = Vec3(x: real, y: real, z: real)

  const Zero3: Vec3 := Vec3(0.0, 0.0, 0.0)

  /** Component-wise sum, the only Eigen operation the facade itself performs. */
  function Add(a: Vec3, b: Vec3): Vec3
  {
    Vec3(a.x + b.x, a.y + b.y, a.z + b.z)
  }

  /** The coordinate axes a bound may pin. */
  datatype Dim = X | Y | Z

  function Coord(v: Vec3, d: Dim): real
  {
    match d
    case X => v.x
    case Y => v.y
    case Z => v.z
  }

  /** A 3-d vector as the dynamically sized vector a variable set is seeded with. */
  function AsSeq(v: Vec3): seq<real>
  {
    [v.x, v.y, v.z]
  }

  /** `bottomRows<1>()`: the last coordinate alone. */
  function BottomRow(v: Vec3): seq<real>
  {
    [v.z]
  }

  /** Position, velocity and acceleration of one 3-d trajectory. */
  datatype StateLin3d = StateLin3d(p: Vec3, v: Vec3, a: Vec3)

  const ZeroState: StateLin3d := StateLin3d(Zero3, Zero3, Zero3)

  /** The base: linear position and orientation as Euler angles (roll, pitch, yaw). */
  datatype BaseState = BaseState(lin: StateLin3d, ang: StateLin3d)

  const ZeroBase: BaseState := BaseState(ZeroState, ZeroState)

  /** Orientation in the form consumed downstream of the sampler. */
  datatype Quaternion = Quaternion(w: real, x: real, y: real, z: real)

  datatype StateAng3d = StateAng3d(q: Quaternion, w: Vec3, wd: Vec3)
}
