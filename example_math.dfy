/// The example application's own SCNVector3 / SCNMatrix4 / SCNQuaternion
/// extensions: the in-place `replace` and its copying `replacing`, the
/// `inverted` negation and its in-place `invert`, `multiplyPoint`, and the
/// example's shortest-arc quaternion constructor, which goes through the
/// simd helpers (`normalized`, `dotProduct`, `crossProduct`, `/`). Each is
/// tied to its library counterpart where there is one. The SCNNode matrix
/// extension of the same file repeats the library's and is modelled by
/// `NodeExt`.
module ExampleMath {
  import opened Wrappers
  import opened Numerics
  import opened SceneKitExt

  // ---------------- replace / replacing ----------------

  /// `replacing(x:y:z:)`: a copy with every supplied component substituted.
  function Replacing(v: Vector3, x: Option<real>, y: Option<real>, z: Option<real>): (r: Vector3)
    ensures x.Some? ==> r.x == x.value
    ensures y.Some? ==> r.y == y.value
    ensures z.Some? ==> r.z == z.value
    ensures x.None? ==> r.x == v.x
    ensures y.None? ==> r.y == v.y
    ensures z.None? ==> r.z == v.z
  {
    Vector3(if x.Some? then x.value else v.x,
            if y.Some? then y.value else v.y,
            if z.Some? then z.value else v.z)
  }

  /// The mutating `replace(x:y:z:)`: each supplied component overwritten in
  /// turn; the result is what `replacing` returns.
  method Replace(v: Vector3, x: Option<real>, y: Option<real>, z: Option<real>) returns (v': Vector3)
    ensures v' == Replacing(v, x, y, z)
  {
    v' := v;
    if x.Some? {
      v' := v'.(x := x.value);
    }
    if y.Some? {
      v' := v'.(y := y.value);
    }
    if z.Some? {
      v' := v'.(z := z.value);
    }
  }

  /// Supplying nothing changes nothing.
  lemma ReplacingNothing(v: Vector3)
    ensures Replacing(v, None, None, None) == v
  {
  }

  /// Replacing twice with the same components is replacing once.
  lemma ReplacingIdempotent(v: Vector3, x: Option<real>, y: Option<real>, z: Option<real>)
    ensures Replacing(Replacing(v, x, y, z), x, y, z) == Replacing(v, x, y, z)
  {
  }

  /// Supplying every component makes the result independent of the input.
  lemma ReplacingAll(v: Vector3, w: Vector3)
    ensures Replacing(v, Some(w.x), Some(w.y), Some(w.z)) == w
  {
  }

  // ---------------- inverted / invert ----------------

  /// `inverted()`: (0, 0, 0) - v.
  function Inverted(v: Vector3): Vector3 {
    Sub(Zero, v)
  }

  /// The mutating `invert()`.
  method Invert(v: Vector3) returns (v': Vector3)
    ensures v' == Inverted(v)
  {
    v' := Inverted(v);
  }

  /// Negation is scaling by -1, undoes itself, and adds up to zero with its
  /// input.
  lemma InvertedProperties(v: Vector3)
    ensures Inverted(v) == Scale(v, -1.0)
    ensures Inverted(Inverted(v)) == v
    ensures Add(v, Inverted(v)) == Zero
  {
  }

  // ---------------- multiplyPoint ----------------

  /// `multiplyPoint(_:)`: the upper three rows applied to (x, y, z, 1), each
  /// component then multiplied by 1 / (fourth row applied to the point).
  function MultiplyPoint(m: Matrix4, v: Vector3): Vector3 {
    var vector3 := Vector3(
      (m.m11 * v.x + m.m12 * v.y + m.m13 * v.z) + m.m14,
      (m.m21 * v.x + m.m22 * v.y + m.m23 * v.z) + m.m24,
      (m.m31 * v.x + m.m32 * v.y + m.m33 * v.z) + m.m34);
    var num := Recip((m.m41 * v.x + m.m42 * v.y + m.m43 * v.z) + m.m44);
    vector3.(x := vector3.x * num).(y := vector3.y * num).(z := vector3.z * num)
  }

  /// The example's `multiplyPoint` is the library's `matrix * point`, so
  /// the identity leaves a point where it is and an affine matrix adds its
  /// translation column to the linear part.
  lemma MultiplyPointIsMulPoint(m: Matrix4, v: Vector3)
    ensures MultiplyPoint(m, v) == MulPoint(m, v)
    ensures MultiplyPoint(Identity4, v) == v
    ensures Affine(m) ==> MultiplyPoint(m, v) == Vector3(
      m.m11 * v.x + m.m12 * v.y + m.m13 * v.z + m.m14,
      m.m21 * v.x + m.m22 * v.y + m.m23 * v.z + m.m24,
      m.m31 * v.x + m.m32 * v.y + m.m33 * v.z + m.m34)
  {
    MulPointIdentity(v);
    if Affine(m) {
      MulPointAffine(m, v);
    }
  }

  // ---------------- SCNQuaternion(from:to:) ----------------

  /// `normalized()` through simd: v times the reciprocal square root of
  /// v . v.
  function SimdNormalized(p: Platform, v: Vector3): Vector3 {
    Scale(v, Recip(p.sqrt(Dot(v, v))))
  }

  /// `divided(by:)` with a scalar: v times recip(s).
  function DividedBy(v: Vector3, s: real): Vector3 {
    Scale(v, Recip(s))
  }

  /// The example's `SCNQuaternion(from:to:opposing180Axis:)`, written with
  /// the example's own vector helpers.
  function ExampleFromTo(p: Platform, a: Vector3, b: Vector3, axis: Vector3): Quaternion {
    var aNormal := SimdNormalized(p, a);
    var bNormal := SimdNormalized(p, b);
    var dotProduct := Dot(aNormal, bNormal);
    if dotProduct >= 1.0 then QuatIdentity
    else if dotProduct < -1.0 + LeastNormalMagnitude then p.quatAngleAxis(Pi, axis)
    else
      var s := p.sqrt((1.0 + dotProduct) * 2.0);
      var xyz := DividedBy(Cross(aNormal, bNormal), s);
      Quaternion(xyz.x, xyz.y, xyz.z, s * 0.5)
  }

  /// The simd helpers agree with the library's `normalized` and `/`.
  lemma SimdHelpersAgree(p: Platform, v: Vector3, s: real)
    ensures SimdNormalized(p, v) == Normalized(p, v)
    ensures DividedBy(v, s) == Div(v, s)
  {
    assert Dot(v, v) == v.x * v.x + v.y * v.y + v.z * v.z;
  }

  /// The example's constructor takes the same three branches as the
  /// library's and builds the same quaternion in each, so it is the
  /// identity for agreeing directions, the half turn for opposite ones and
  /// a unit quaternion in between.
  lemma ExampleFromToAgrees(p: Platform, a: Vector3, b: Vector3, axis: Vector3)
    ensures ExampleFromTo(p, a, b, axis) == FromTo(p, a, b, axis)
  {
    SimdHelpersAgree(p, a, 0.0);
    SimdHelpersAgree(p, b, 0.0);
    var d := Dot(Normalized(p, a), Normalized(p, b));
    SimdHelpersAgree(p, Cross(Normalized(p, a), Normalized(p, b)), p.sqrt((1.0 + d) * 2.0));
  }

  /// Outside the two special branches the example's quaternion has norm 1.
  lemma ExampleFromToUnit(p: Platform, a: Vector3, b: Vector3, axis: Vector3)
    requires p.Valid()
    requires a != Zero && b != Zero
    requires var d := Dot(SimdNormalized(p, a), SimdNormalized(p, b));
      -1.0 + LeastNormalMagnitude <= d < 1.0
    ensures QuatNorm2(ExampleFromTo(p, a, b, axis)) == 1.0
  {
    SimdHelpersAgree(p, a, 0.0);
    SimdHelpersAgree(p, b, 0.0);
    ExampleFromToAgrees(p, a, b, axis);
    FromToUnit(p, a, b, axis);
  }
}
