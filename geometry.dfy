// Vectors, 4x4 matrices and the depth reconstruction of sched_common.h
// (`depth_transform`). All arithmetic is over `real`: floating-point rounding
// is not modelled.

module Geometry {

  datatype Vec3 = Vec3(x: real, y: real, z: real)

  datatype Vec4 = Vec4(x: real, y: real, z: real, w: real)

  /** A 4x4 matrix, stored as its four rows. */
  datatype Mat4 = Mat4(r0: Vec4, r1: Vec4, r2: Vec4, r3: Vec4)

  /** The matrix form of the camera: view and projection with their inverses. */
  datatype ViewProj = ViewProj(view: Mat4, invView: Mat4, proj: Mat4, invProj: Mat4)

  function Dot(a: Vec4, b: Vec4): real
  {
    a.x * b.x + a.y * b.y + a.z * b.z + a.w * b.w
  }

  /** Matrix times column vector. */
  function MulMV(m: Mat4, v: Vec4): Vec4
  {
    Vec4(Dot(m.r0, v), Dot(m.r1, v), Dot(m.r2, v), Dot(m.r3, v))
  }

  /** A point in homogeneous coordinates (w = 1). */
  function Point(p: Vec3): Vec4
  {
    Vec4(p.x, p.y, p.z, 1.0)
  }

  /** `proj * (view * (p, 1))`: the hit position in clip space. */
  function ClipPosition(p: Vec3, cam: ViewProj): Vec4
  {
    MulMV(cam.proj, MulMV(cam.view, Point(p)))
  }

  /** The perspective divide needs a non-zero clip-space w. */
  predicate Projectable(p: Vec3, cam: ViewProj)
  {
    ClipPosition(p, cam).w != 0.0
  }

  /** The final remap `(z + 1) * 0.5` from normalised-device z to depth.
      It sends [-1, 1] onto [0, 1] (and only that interval), keeps the order,
      and is undone by `2d - 1`. */
  function DepthRemap(z: real): (d: real)
    ensures -1.0 <= z <= 1.0 <==> 0.0 <= d <= 1.0
    ensures z == -1.0 <==> d == 0.0
    ensures z == 1.0 <==> d == 1.0
    ensures 2.0 * d - 1.0 == z
  {
    (z + 1.0) * 0.5
  }

  /** `depth_transform`: project, divide by w, remap z. The inverse matrices
      are passed but unused, as in the source. */
  function DepthTransform(p: Vec3, cam: ViewProj): (d: real)
    requires Projectable(p, cam)
    ensures var c := ClipPosition(p, cam);
      -1.0 <= c.z / c.w <= 1.0 <==> 0.0 <= d <= 1.0
  {
    var c := ClipPosition(p, cam);
    DepthRemap(c.z / c.w)
  }

  /** The depth does not depend on the inverse matrices. */
  lemma DepthTransformIgnoresInverses(p: Vec3, cam: ViewProj, iv: Mat4, ip: Mat4)
    requires Projectable(p, cam)
    ensures Projectable(p, cam.(invView := iv, invProj := ip))
    ensures DepthTransform(p, cam.(invView := iv, invProj := ip)) == DepthTransform(p, cam)
  {
  }

  /** The remap is strictly increasing: nearer points get smaller depth. */
  lemma DepthRemapMonotone(z1: real, z2: real)
    requires z1 < z2
    ensures DepthRemap(z1) < DepthRemap(z2)
  {
  }
}
