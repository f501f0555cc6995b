/**
 * Vectors and transforms as the redirection code sees them.
 *
 * Component-wise vector arithmetic (Unity's `Vector3` operators) is defined
 * here. The angle, flattening and frame-change helpers of the `Utilities`
 * class and Unity's `Vector3.Angle` / `Quaternion.Euler(0, yaw, 0) * v` are not
 * part of this model: they are gathered in a `Geometry` record of functions
 * that the model receives as a parameter, so every property proved below holds
 * for whatever those helpers compute.
 */
module Geometry {

  /** A `Vector3`, with reals in place of single-precision floats. */
  datatype Vec3 = Vec3(x: real, y: real, z: real)

  const Zero: Vec3 := Vec3(0.0, 0.0, 0.0)

  function Add(a: Vec3, b: Vec3): Vec3 {
    Vec3(a.x + b.x, a.y + b.y, a.z + b.z)
  }

  function Sub(a: Vec3, b: Vec3): Vec3 {
    Vec3(a.x - b.x, a.y - b.y, a.z - b.z)
  }

  function Scale(k: real, v: Vec3): Vec3 {
    Vec3(k * v.x, k * v.y, k * v.z)
  }

  /** The part of a scene object's `Transform` the core reads: where it is and where it faces. */
  datatype Transform = Transform(position: Vec3, forward: Vec3)

  /**
   * The geometry helpers the core calls but does not define.
   *  - flattenedPos:   Utilities.FlattenedPos3D (projection onto the ground plane)
   *  - flattenedDir:   Utilities.FlattenedDir3D
   *  - relativePos:    Utilities.GetRelativePosition(p, frame)
   *  - relativeDir:    Utilities.GetRelativeDirection(d, frame)
   *  - signedAngle:    Utilities.GetSignedAngle(from, to), in degrees
   *  - angle:          Vector3.Angle(a, b), the unsigned angle in degrees
   *  - yawRotate:      Quaternion.Euler(0, yaw, 0) * v, a rotation about the vertical axis
   */
  datatype Geometry = Geometry(
    flattenedPos: Vec3 -> Vec3,
    flattenedDir: Vec3 -> Vec3,
    relativePos: (Vec3, Transform) -> Vec3,
    relativeDir: (Vec3, Transform) -> Vec3,
    signedAngle: (Vec3, Vec3) -> real,
    angle: (Vec3, Vec3) -> real,
    yawRotate: (real, Vec3) -> Vec3)
}
