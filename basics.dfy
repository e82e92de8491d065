/** Small value types shared by the particle engine and the scene helpers. */
module Basics {

  datatype Option<+T> = None | Some(value: T)

  /** A three.js `Vector3` taken as a value. */
  datatype Vec3 = Vec3(x: real, y: real, z: real)

  const Origin: Vec3 := Vec3(0.0, 0.0, 0.0)

  function Min(a: int, b: int): int { if a <= b then a else b }

  function MaxInt(a: int, b: int): int { if a >= b then a else b }

  function MinReal(a: real, b: real): real { if a <= b then a else b }

  /** A draw of `Math.random()`: a number in [0, 1). */
  predicate IsUniform(u: real) { 0.0 <= u < 1.0 }

  predicate IsUniform3(u: Vec3) { IsUniform(u.x) && IsUniform(u.y) && IsUniform(u.z) }

  /** `MathUtils.randFloat(low, high)` for the draw `u`: `low + u * (high - low)`. */
  function RandFloat(low: real, high: real, u: real): (r: real)
    requires IsUniform(u)
    ensures low <= high ==> low <= r <= high
    ensures low < high ==> r < high
  {
    if low <= high then
      var width := high - low;
      UniformScale(u, width);
      var step := u * width;
      assert 0.0 <= step <= width;
      low + step
    else
      low + u * (high - low)
  }

  /** `MathUtils.randInt(low, high)` for the draw `u`: `low + floor(u * (high - low + 1))`. */
  function RandInt(low: int, high: int, u: real): (r: int)
    requires IsUniform(u)
    ensures low <= high ==> low <= r <= high
  {
    var span := (high - low + 1) as real;
    if low <= high then
      UniformScale(u, span);
      low + (u * span).Floor
    else
      low + (u * span).Floor
  }

  /** Component-wise `randFloat` between two corner vectors. */
  function RandVec(lo: Vec3, hi: Vec3, u: Vec3): (r: Vec3)
    requires IsUniform3(u)
    ensures Within(lo, hi, r)
  {
    Vec3(RandFloat(lo.x, hi.x, u.x), RandFloat(lo.y, hi.y, u.y), RandFloat(lo.z, hi.z, u.z))
  }

  /** `v` lies in the box spanned by `lo` and `hi`, on every axis where `lo <= hi`. */
  predicate Within(lo: Vec3, hi: Vec3, v: Vec3) {
    && (lo.x <= hi.x ==> lo.x <= v.x <= hi.x)
    && (lo.y <= hi.y ==> lo.y <= v.y <= hi.y)
    && (lo.z <= hi.z ==> lo.z <= v.z <= hi.z)
  }

  function Add(a: Vec3, b: Vec3): Vec3 { Vec3(a.x + b.x, a.y + b.y, a.z + b.z) }

  lemma UniformScale(u: real, w: real)
    requires IsUniform(u) && 0.0 <= w
    ensures 0.0 <= u * w <= w
    ensures 0.0 < w ==> u * w < w
  {
  }
}
