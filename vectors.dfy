/**
 * Three-component vectors over the reals, and the numeric routines of the
 * game's vector and math libraries that this model does not define.
 */
module Vectors {

  datatype Vec3 = Vec3(x: real, y: real, z: real)

  const ZERO: Vec3 := Vec3(0.0, 0.0, 0.0)

  function Add(a: Vec3, b: Vec3): Vec3 {
    Vec3(a.x + b.x, a.y + b.y, a.z + b.z)
  }

  function Sub(a: Vec3, b: Vec3): Vec3 {
    Vec3(a.x - b.x, a.y - b.y, a.z - b.z)
  }

  function Scale(k: real, v: Vec3): Vec3 {
    Vec3(k * v.x, k * v.y, k * v.z)
  }

  /**
   * Euclidean length, normalisation and the trigonometric functions are
   * computed in floating point by code outside this model; they are
   * supplied by the caller and treated as uninterpreted.
   */
  datatype MathLib = MathLib(
    length: Vec3 -> real,
    normalize: Vec3 -> Vec3,
    sin: real -> real,
    cos: real -> real)
}
