/**
  The `nalgebra_glm::Vec3` arithmetic the core uses, over reals.
  `nalgebra_glm`'s f32 rounding is not modelled.
*/
module Vectors {

  datatype Vec3 = Vec3(x: real, y: real, z: real)

  function Add(a: Vec3, b: Vec3): Vec3 {
    Vec3(a.x + b.x, a.y + b.y, a.z + b.z)
  }

  function Sub(a: Vec3, b: Vec3): Vec3 {
    Vec3(a.x - b.x, a.y - b.y, a.z - b.z)
  }

  function Scale(a: Vec3, k: real): Vec3 {
    Vec3(a.x * k, a.y * k, a.z * k)
  }

  function Cross(a: Vec3, b: Vec3): Vec3 {
    Vec3(a.y * b.z - a.z * b.y, a.z * b.x - a.x * b.z, a.x * b.y - a.y * b.x)
  }

  /** `glm::lerp(a, b, t)`, that is `a * (1 - t) + b * t`. */
  function Lerp(a: Vec3, b: Vec3, t: real): (r: Vec3)
    ensures t == 0.0 ==> r == a
    ensures t == 1.0 ==> r == b
    ensures a == b ==> r == a
  {
    Add(Scale(a, 1.0 - t), Scale(b, t))
  }

  /**
    The square root, trigonometry and normalisation the camera relies on,
    left abstract: `normalize` is `Vec3::normalize`, `magnitude` is
    `Vec3::magnitude` and `rotate(v, angle, axis)` is `glm::rotate_vec3`.
  */
  datatype Geometry = Geometry(
    normalize: Vec3 -> Vec3,
    magnitude: Vec3 -> real,
    rotate: (Vec3, real, Vec3) -> Vec3)

  /** Rotating by a zero angle leaves every vector where it was. */
  ghost predicate ZeroRotationIsIdentity(g: Geometry) {
    forall v, axis :: g.rotate(v, 0.0, axis) == v
  }

  /** Scaling the normalised form of a non-zero vector by its length gives it back. */
  ghost predicate NormalizeRecovers(g: Geometry) {
    forall v :: v != Vec3(0.0, 0.0, 0.0) ==> Scale(g.normalize(v), g.magnitude(v)) == v
  }

  /** Rotations keep lengths. */
  ghost predicate RotationKeepsLength(g: Geometry) {
    forall v, angle, axis :: g.magnitude(g.rotate(v, angle, axis)) == g.magnitude(v)
  }
}
