/// The value types SceneKit works with (SCNVector3, SCNQuaternion, SCNMatrix4),
/// modelled over exact reals, and the foreign numeric routines the code calls
/// (sqrtf, sinf/cosf, SCNMatrix4Mult/Invert/Translate/Scale and the GLKit
/// quaternion routines) gathered in a `Platform` record of function values.
/// Only the facts listed in `Platform.Valid` are assumed of those routines.
module Numerics {
  datatype Vector3 = Vector3(x: real, y: real, z: real)

  /// SCNQuaternion: (x, y, z) vector part, w scalar part.
  datatype Quaternion = Quaternion(x: real, y: real, z: real, w: real)

  /// SCNMatrix4, entries named row by row as SceneKit names them.
  datatype Matrix4 = Matrix4(
    m11: real, m12: real, m13: real, m14: real,
    m21: real, m22: real, m23: real, m24: real,
    m31: real, m32: real, m33: real, m34: real,
    m41: real, m42: real, m43: real, m44: real)

  const Zero := Vector3(0.0, 0.0, 0.0)
  const One := Vector3(1.0, 1.0, 1.0)

  /// SCNMatrix4Identity.
  const Identity4 := Matrix4(
    1.0, 0.0, 0.0, 0.0,
    0.0, 1.0, 0.0, 0.0,
    0.0, 0.0, 1.0, 0.0,
    0.0, 0.0, 0.0, 1.0)

  /// GLKQuaternionIdentity.
  const QuatIdentity := Quaternion(0.0, 0.0, 0.0, 1.0)

  /// Float.pi, the single-precision value.
  const Pi: real := 3.1415927410125732421875

  /// Float.leastNormalMagnitude, 2^-126.
  const LeastNormalMagnitude: real := 0.000000000000000000000000000000000000011754943508222875079687365372222456778186655567720875215087517062784172594547271728515625

  /// The foreign routines, passed to the model as values.
  datatype Platform = Platform(
    sqrt: real -> real,                          // sqrtf, simd length
    sin: real -> real,                           // sinf
    cos: real -> real,                           // cosf
    matMult: (Matrix4, Matrix4) -> Matrix4,      // SCNMatrix4Mult
    matInvert: Matrix4 -> Matrix4,               // SCNMatrix4Invert
    translate: (Matrix4, Vector3) -> Matrix4,    // SCNMatrix4Translate
    scale: (Matrix4, Vector3) -> Matrix4,        // SCNMatrix4Scale
    quatMul: (Quaternion, Quaternion) -> Quaternion,   // GLKQuaternionMultiply
    quatRotate: (Quaternion, Vector3) -> Vector3,      // GLKQuaternionRotateVector3
    quatAngleAxis: (real, Vector3) -> Quaternion)      // GLKQuaternionMakeWithAngleAndVector3Axis
  {
    /// The facts the proofs rely on: sqrt is the non-negative square root,
    /// sin/cos take their values at 0 and satisfy the Pythagorean identity,
    /// the identity matrix and quaternion are neutral, and translating by
    /// zero or scaling by one leaves the identity matrix as it is.
    ghost predicate Valid() {
      && (forall t :: t >= 0.0 ==> sqrt(t) >= 0.0 && sqrt(t) * sqrt(t) == t)
      && sin(0.0) == 0.0 && cos(0.0) == 1.0
      && (forall t :: sin(t) * sin(t) + cos(t) * cos(t) == 1.0)
      && (forall m :: matMult(Identity4, m) == m && matMult(m, Identity4) == m)
      && translate(Identity4, Zero) == Identity4
      && scale(Identity4, One) == Identity4
      && (forall q :: quatMul(QuatIdentity, q) == q)
    }
  }

  /// 1 / s, with 0 standing for the IEEE infinity that 1 / 0 gives.
  function Recip(s: real): (r: real)
    ensures s != 0.0 ==> r * s == 1.0
    ensures s == 0.0 ==> r == 0.0
  {
    if s == 0.0 then 0.0 else 1.0 / s
  }

  // ---- small facts of real arithmetic, kept free of any function symbol ----

  lemma ZeroProduct(a: real, b: real)
    requires a * b == 0.0
    ensures a == 0.0 || b == 0.0
  {
    if a != 0.0 {
      assert b == (a * b) / a;
    }
  }

  lemma SquareNonneg(a: real)
    ensures a * a >= 0.0
  {
    if a < 0.0 {
      assert a * a == (-a) * (-a);
    }
  }

  lemma SumSquaresZero(a: real, b: real, c: real)
    requires a * a + b * b + c * c == 0.0
    ensures a == 0.0 && b == 0.0 && c == 0.0
  {
    SquareNonneg(a); SquareNonneg(b); SquareNonneg(c);
    var p, q, r := a * a, b * b, c * c;
    assert p == 0.0 && q == 0.0 && r == 0.0;
    ZeroProduct(a, a); ZeroProduct(b, b); ZeroProduct(c, c);
  }

  /// A non-negative square root is unique.
  lemma SqrtUnique(r: real, t: real)
    requires r >= 0.0 && t >= 0.0
    requires r * r == t * t
    ensures r == t
  {
    assert (r - t) * (r + t) == 0.0;
    ZeroProduct(r - t, r + t);
  }
}
