/// The SceneKit extensions of the library: SCNVector3 arithmetic, cross and
/// dot products, the 16-value SCNMatrix4 constructor, the matrix-times-point
/// operator and the shortest-arc quaternion constructor.
module SceneKitExt {
  import opened Wrappers
  import opened Numerics

  // ---------------- SCNVector3 operators ----------------

  function Add(a: Vector3, b: Vector3): Vector3 {
    Vector3(a.x + b.x, a.y + b.y, a.z + b.z)
  }

  function Sub(a: Vector3, b: Vector3): Vector3 {
    Vector3(a.x - b.x, a.y - b.y, a.z - b.z)
  }

  /// `v * s`
  function Scale(v: Vector3, s: real): Vector3 {
    Vector3(v.x * s, v.y * s, v.z * s)
  }

  /// `v / s` is `v * (1 / s)`.
  function Div(v: Vector3, s: real): (r: Vector3)
    ensures s != 0.0 ==> r == Vector3(v.x / s, v.y / s, v.z / s)
  {
    Scale(v, Recip(s))
  }

  /// Subtraction undoes addition.
  lemma AddSubInverse(a: Vector3, b: Vector3)
    ensures Sub(Add(a, b), b) == a && Add(Sub(a, b), b) == a
  {
  }

  /// Division undoes scaling by a nonzero factor.
  lemma DivUndoesScale(v: Vector3, s: real)
    requires s != 0.0
    ensures Div(Scale(v, s), s) == v
  {
    var k := Recip(s);
    assert s * k == 1.0;
    assert Scale(v, s).x * k == v.x * (s * k);
    assert Scale(v, s).y * k == v.y * (s * k);
    assert Scale(v, s).z * k == v.z * (s * k);
  }

  /// `left += right`
  method AddAssign(left: Vector3, right: Vector3) returns (left': Vector3)
    ensures left' == Add(left, right)
  {
    left' := Add(left, right);
  }

  /// `left -= right`
  method SubAssign(left: Vector3, right: Vector3) returns (left': Vector3)
    ensures left' == Sub(left, right)
  {
    left' := Sub(left, right);
  }

  /// `left *= right`
  method ScaleAssign(left: Vector3, right: real) returns (left': Vector3)
    ensures left' == Scale(left, right)
  {
    left' := Scale(left, right);
  }

  /// `left /= right`
  method DivAssign(left: Vector3, right: real) returns (left': Vector3)
    ensures left' == Div(left, right)
  {
    left' := Div(left, right);
  }

  // ---------------- products, length, normalisation ----------------

  /// `dot(a, b)`, simd.dot in exact arithmetic.
  function Dot(a: Vector3, b: Vector3): real {
    a.x * b.x + a.y * b.y + a.z * b.z
  }

  /// `cross(a, b)`: orthogonal to both arguments.
  function Cross(a: Vector3, b: Vector3): (r: Vector3)
    ensures Dot(r, a) == 0.0 && Dot(r, b) == 0.0
  {
    Vector3(a.y * b.z - a.z * b.y, a.z * b.x - a.x * b.z, a.x * b.y - a.y * b.x)
  }

  lemma CrossAntiCommutative(a: Vector3, b: Vector3)
    ensures Cross(a, b) == Scale(Cross(b, a), -1.0)
  {
  }

  lemma CrossSelfZero(a: Vector3)
    ensures Cross(a, a) == Zero
  {
  }

  /// Lagrange's identity: |a x b|^2 = |a|^2 |b|^2 - (a . b)^2.
  lemma Lagrange(a: Vector3, b: Vector3)
    ensures Dot(Cross(a, b), Cross(a, b)) == Dot(a, a) * Dot(b, b) - Dot(a, b) * Dot(a, b)
  {
  }

  /// `length`: sqrtf(x*x + y*y + z*z). `magnitude` (simd.length) is the same
  /// value in exact arithmetic and is modelled by this function as well.
  function Length(p: Platform, v: Vector3): real {
    p.sqrt(v.x * v.x + v.y * v.y + v.z * v.z)
  }

  /// `normalized`: v * (1 / length).
  function Normalized(p: Platform, v: Vector3): Vector3 {
    Scale(v, Recip(Length(p, v)))
  }

  /// The mutating `normalize()`.
  method Normalize(p: Platform, v: Vector3) returns (v': Vector3)
    ensures v' == Normalized(p, v)
  {
    v' := Normalized(p, v);
  }

  lemma DotSelfNonneg(v: Vector3)
    ensures Dot(v, v) >= 0.0
  {
    SquareNonneg(v.x); SquareNonneg(v.y); SquareNonneg(v.z);
  }

  /// Only the zero vector has zero squared length.
  lemma DotSelfPositive(v: Vector3)
    ensures v != Zero <==> Dot(v, v) > 0.0
  {
    DotSelfNonneg(v);
    if Dot(v, v) == 0.0 {
      SumSquaresZero(v.x, v.y, v.z);
    }
  }

  lemma ScaleSquared(v: Vector3, s: real)
    ensures Dot(Scale(v, s), Scale(v, s)) == s * s * Dot(v, v)
  {
  }

  /// `length` squares back to the squared length and is never negative.
  lemma LengthSquared(p: Platform, v: Vector3)
    requires p.Valid()
    ensures Length(p, v) >= 0.0
    ensures Length(p, v) * Length(p, v) == Dot(v, v)
  {
    DotSelfNonneg(v);
  }

  /// A nonzero vector normalises to length 1.
  lemma NormalizedUnit(p: Platform, v: Vector3)
    requires p.Valid()
    requires v != Zero
    ensures Dot(Normalized(p, v), Normalized(p, v)) == 1.0
  {
    DotSelfPositive(v);
    var q := Dot(v, v);
    var l := Length(p, v);
    LengthSquared(p, v);
    assert l * l == q;
    assert l != 0.0;
    ScaleSquared(v, 1.0 / l);
    assert (1.0 / l) * (1.0 / l) * q == 1.0;
  }

  /// Scaling by `k` and then by `a` is scaling by `k * a`.
  lemma ScaleCompose(v: Vector3, k: real, a: real, b: real)
    requires k * a == b
    ensures Scale(Scale(v, k), a) == Scale(v, b)
  {
    assert (v.x * k) * a == v.x * (k * a);
    assert (v.y * k) * a == v.y * (k * a);
    assert (v.z * k) * a == v.z * (k * a);
  }

  /// 1 / (k l) times k is 1 / l.
  lemma RecipScale(k: real, l: real, lk: real)
    requires k > 0.0 && l > 0.0 && lk == k * l
    ensures k * Recip(lk) == Recip(l)
  {
    assert lk != 0.0;
    assert k * (1.0 / (k * l)) == 1.0 / l;
  }

  /// The length of `v * k` is `k` times that of `v`, for positive `k`.
  lemma LengthPositiveScale(p: Platform, v: Vector3, k: real)
    requires p.Valid()
    requires v != Zero && k > 0.0
    ensures Length(p, v) > 0.0
    ensures Length(p, Scale(v, k)) == k * Length(p, v)
  {
    DotSelfPositive(v);
    var l := Length(p, v);
    LengthSquared(p, v);
    LengthSquared(p, Scale(v, k));
    ScaleSquared(v, k);
    var lk := Length(p, Scale(v, k));
    assert lk * lk == (k * l) * (k * l);
    assert l != 0.0;
    SqrtUnique(lk, k * l);
  }

  /// Scaling by a positive factor does not change the direction.
  lemma NormalizedPositiveScale(p: Platform, v: Vector3, k: real)
    requires p.Valid()
    requires v != Zero && k > 0.0
    ensures Normalized(p, Scale(v, k)) == Normalized(p, v)
  {
    LengthPositiveScale(p, v, k);
    RecipScale(k, Length(p, v), Length(p, Scale(v, k)));
    ScaleCompose(v, k, Recip(Length(p, Scale(v, k))), Recip(Length(p, v)));
  }

  /// The length of `-v` is that of `v`.
  lemma LengthNegate(p: Platform, v: Vector3)
    requires p.Valid()
    ensures Length(p, Scale(v, -1.0)) == Length(p, v)
  {
    var w := Scale(v, -1.0);
    assert Dot(w, w) == Dot(v, v);
    LengthCongruent(p, w, v);
  }

  /// Vectors of equal squared length have equal length.
  lemma LengthCongruent(p: Platform, a: Vector3, b: Vector3)
    requires Dot(a, a) == Dot(b, b)
    ensures Length(p, a) == Length(p, b)
  {
  }

  /// Scaling by a negative factor reverses the direction.
  lemma NormalizedNegativeScale(p: Platform, v: Vector3, k: real)
    requires p.Valid()
    requires v != Zero && k < 0.0
    ensures Normalized(p, Scale(v, k)) == Scale(Normalized(p, v), -1.0)
  {
    var w := Scale(v, -1.0);
    ScaleCompose(v, -1.0, -k, k);
    assert w != Zero;
    NormalizedPositiveScale(p, w, -k);
    LengthNegate(p, v);
    var r := Recip(Length(p, v));
    ScaleCompose(v, -1.0, r, -r);
    ScaleCompose(v, r, -1.0, -r);
  }

  /// `normal(v0, v1, v2)`: the normalised cross product of the two edges.
  function Normal(p: Platform, v0: Vector3, v1: Vector3, v2: Vector3): Vector3 {
    Normalized(p, Cross(Sub(v1, v0), Sub(v2, v0)))
  }

  /// The normal is orthogonal to both edges, and of length 1 unless the
  /// edges are parallel.
  lemma NormalProperties(p: Platform, v0: Vector3, v1: Vector3, v2: Vector3)
    requires p.Valid()
    ensures var n := Normal(p, v0, v1, v2);
      Dot(n, Sub(v1, v0)) == 0.0 && Dot(n, Sub(v2, v0)) == 0.0
    ensures Cross(Sub(v1, v0), Sub(v2, v0)) != Zero ==>
      Dot(Normal(p, v0, v1, v2), Normal(p, v0, v1, v2)) == 1.0
  {
    var c := Cross(Sub(v1, v0), Sub(v2, v0));
    var k := Recip(Length(p, c));
    assert Dot(Scale(c, k), Sub(v1, v0)) == k * Dot(c, Sub(v1, v0));
    assert Dot(Scale(c, k), Sub(v2, v0)) == k * Dot(c, Sub(v2, v0));
    if c != Zero {
      NormalizedUnit(p, c);
    }
  }

  // ---------------- SCNMatrix4 ----------------

  /// Entry (i, j), counting rows and columns from 0.
  function Entry(m: Matrix4, i: nat, j: nat): real
    requires i < 4 && j < 4
  {
    match (i, j)
    case (0, 0) => m.m11 case (0, 1) => m.m12 case (0, 2) => m.m13 case (0, 3) => m.m14
    case (1, 0) => m.m21 case (1, 1) => m.m22 case (1, 2) => m.m23 case (1, 3) => m.m24
    case (2, 0) => m.m31 case (2, 1) => m.m32 case (2, 2) => m.m33 case (2, 3) => m.m34
    case (3, 0) => m.m41 case (3, 1) => m.m42 case (3, 2) => m.m43 case _ => m.m44
  }

  /// `SCNMatrix4(values)`: fails unless there are exactly 16 values, which
  /// are then read row by row.
  function FromValues(v: seq<real>): (r: Result<Matrix4>)
    ensures r.Ok? <==> |v| == 16
    ensures r.Ok? ==> forall i: nat, j: nat :: i < 4 && j < 4 ==> Entry(r.value, i, j) == v[4 * i + j]
  {
    if |v| != 16 then Err("SCNMatrix4: values.count must be 16")
    else
      Ok(Matrix4(v[0], v[1], v[2], v[3],
                 v[4], v[5], v[6], v[7],
                 v[8], v[9], v[10], v[11],
                 v[12], v[13], v[14], v[15]))
  }

  /// The row-major values of a matrix, in the order `FromValues` reads them.
  function Values(m: Matrix4): seq<real> {
    [m.m11, m.m12, m.m13, m.m14, m.m21, m.m22, m.m23, m.m24,
     m.m31, m.m32, m.m33, m.m34, m.m41, m.m42, m.m43, m.m44]
  }

  lemma FromValuesRoundTrip(m: Matrix4)
    ensures FromValues(Values(m)) == Ok(m)
  {
  }

  /// `matrix * point`: the upper three rows applied to (x, y, z, 1), divided
  /// by the fourth row applied to the same point.
  function MulPoint(m: Matrix4, v: Vector3): Vector3 {
    var vector3 := Vector3(
      (m.m11 * v.x + m.m12 * v.y + m.m13 * v.z) + m.m14,
      (m.m21 * v.x + m.m22 * v.y + m.m23 * v.z) + m.m24,
      (m.m31 * v.x + m.m32 * v.y + m.m33 * v.z) + m.m34);
    var num := Recip((m.m41 * v.x + m.m42 * v.y + m.m43 * v.z) + m.m44);
    Scale(vector3, num)
  }

  /// Bottom row (0, 0, 0, 1): no perspective division.
  predicate Affine(m: Matrix4) {
    m.m41 == 0.0 && m.m42 == 0.0 && m.m43 == 0.0 && m.m44 == 1.0
  }

  /// An affine matrix maps a point to its linear part plus the translation
  /// column (m14, m24, m34).
  lemma MulPointAffine(m: Matrix4, v: Vector3)
    requires Affine(m)
    ensures MulPoint(m, v) == Vector3(
      m.m11 * v.x + m.m12 * v.y + m.m13 * v.z + m.m14,
      m.m21 * v.x + m.m22 * v.y + m.m23 * v.z + m.m24,
      m.m31 * v.x + m.m32 * v.y + m.m33 * v.z + m.m34)
  {
  }

  lemma MulPointIdentity(v: Vector3)
    ensures MulPoint(Identity4, v) == v
  {
    MulPointAffine(Identity4, v);
  }

  /// The ordinary product of two matrices, used to state what an inverse is.
  function Product(a: Matrix4, b: Matrix4): Matrix4 {
    Matrix4(
      a.m11 * b.m11 + a.m12 * b.m21 + a.m13 * b.m31 + a.m14 * b.m41,
      a.m11 * b.m12 + a.m12 * b.m22 + a.m13 * b.m32 + a.m14 * b.m42,
      a.m11 * b.m13 + a.m12 * b.m23 + a.m13 * b.m33 + a.m14 * b.m43,
      a.m11 * b.m14 + a.m12 * b.m24 + a.m13 * b.m34 + a.m14 * b.m44,
      a.m21 * b.m11 + a.m22 * b.m21 + a.m23 * b.m31 + a.m24 * b.m41,
      a.m21 * b.m12 + a.m22 * b.m22 + a.m23 * b.m32 + a.m24 * b.m42,
      a.m21 * b.m13 + a.m22 * b.m23 + a.m23 * b.m33 + a.m24 * b.m43,
      a.m21 * b.m14 + a.m22 * b.m24 + a.m23 * b.m34 + a.m24 * b.m44,
      a.m31 * b.m11 + a.m32 * b.m21 + a.m33 * b.m31 + a.m34 * b.m41,
      a.m31 * b.m12 + a.m32 * b.m22 + a.m33 * b.m32 + a.m34 * b.m42,
      a.m31 * b.m13 + a.m32 * b.m23 + a.m33 * b.m33 + a.m34 * b.m43,
      a.m31 * b.m14 + a.m32 * b.m24 + a.m33 * b.m34 + a.m34 * b.m44,
      a.m41 * b.m11 + a.m42 * b.m21 + a.m43 * b.m31 + a.m44 * b.m41,
      a.m41 * b.m12 + a.m42 * b.m22 + a.m43 * b.m32 + a.m44 * b.m42,
      a.m41 * b.m13 + a.m42 * b.m23 + a.m43 * b.m33 + a.m44 * b.m43,
      a.m41 * b.m14 + a.m42 * b.m24 + a.m43 * b.m34 + a.m44 * b.m44)
  }

  /// One row (a1, a2, a3, a4) of a matrix applied to the image of a point
  /// under an affine matrix, expanded into the entries of the product row.
  lemma RowExpansion(a1: real, a2: real, a3: real, a4: real, m: Matrix4, v: Vector3)
    requires Affine(m)
    ensures var w := MulPoint(m, v);
      a1 * w.x + a2 * w.y + a3 * w.z + a4
         == (a1 * m.m11 + a2 * m.m21 + a3 * m.m31 + a4 * m.m41) * v.x
          + (a1 * m.m12 + a2 * m.m22 + a3 * m.m32 + a4 * m.m42) * v.y
          + (a1 * m.m13 + a2 * m.m23 + a3 * m.m33 + a4 * m.m43) * v.z
          + (a1 * m.m14 + a2 * m.m24 + a3 * m.m34 + a4 * m.m44)
  {
    MulPointAffine(m, v);
  }

  /// Applying an affine matrix and then an affine left inverse of it gives
  /// the point back.
  lemma MulPointInverse(inv: Matrix4, m: Matrix4, v: Vector3)
    requires Affine(m) && Affine(inv)
    requires Product(inv, m) == Identity4
    ensures MulPoint(inv, MulPoint(m, v)) == v
  {
    var w := MulPoint(m, v);
    MulPointAffine(inv, w);
    var e := Product(inv, m);
    RowExpansion(inv.m11, inv.m12, inv.m13, inv.m14, m, v);
    UnitRow(e.m11, e.m12, e.m13, e.m14, v.x, v.y, v.z);
    RowExpansion(inv.m21, inv.m22, inv.m23, inv.m24, m, v);
    UnitRow(e.m21, e.m22, e.m23, e.m24, v.x, v.y, v.z);
    RowExpansion(inv.m31, inv.m32, inv.m33, inv.m34, m, v);
    UnitRow(e.m31, e.m32, e.m33, e.m34, v.x, v.y, v.z);
  }

  /// A row (c1, c2, c3, c4) of the identity picks out one coordinate.
  lemma UnitRow(c1: real, c2: real, c3: real, c4: real, x: real, y: real, z: real)
    ensures c1 == 1.0 && c2 == 0.0 && c3 == 0.0 && c4 == 0.0 ==> c1 * x + c2 * y + c3 * z + c4 == x
    ensures c1 == 0.0 && c2 == 1.0 && c3 == 0.0 && c4 == 0.0 ==> c1 * x + c2 * y + c3 * z + c4 == y
    ensures c1 == 0.0 && c2 == 0.0 && c3 == 1.0 && c4 == 0.0 ==> c1 * x + c2 * y + c3 * z + c4 == z
  {
  }

  // ---------------- SCNQuaternion ----------------

  /// `SCNQuaternion.identityUpVector`, the default axis of a half turn.
  const IdentityUpVector := Vector3(0.0, 1.0, 0.0)

  function QuatNorm2(q: Quaternion): real {
    q.x * q.x + q.y * q.y + q.z * q.z + q.w * q.w
  }

  /// `SCNQuaternion(from:to:opposing180Axis:)`: the identity when the
  /// normalised directions agree, a half turn about `axis` when they are
  /// opposite, and otherwise (cross / s, s / 2) with s = sqrt(2 (1 + dot)).
  function FromTo(p: Platform, from: Vector3, to: Vector3, axis: Vector3): Quaternion {
    var fromNormal := Normalized(p, from);
    var toNormal := Normalized(p, to);
    var dotProduct := Dot(fromNormal, toNormal);
    if dotProduct >= 1.0 then QuatIdentity
    else if dotProduct < -1.0 + LeastNormalMagnitude then p.quatAngleAxis(Pi, axis)
    else
      var s := p.sqrt((1.0 + dotProduct) * 2.0);
      var xyz := Div(Cross(fromNormal, toNormal), s);
      Quaternion(xyz.x, xyz.y, xyz.z, s * 0.5)
  }

  /// The scalar identity behind `UnitQuat`: with s^2 = 2 (1 + d) and
  /// c2 = 1 - d^2, (c2 / s^2) + (s / 2)^2 = 1.
  lemma UnitQuatScalar(s: real, d: real, c2: real)
    requires s > 0.0 && s * s == (1.0 + d) * 2.0 && c2 == 1.0 - d * d
    ensures (1.0 / s) * (1.0 / s) * c2 + (s * 0.5) * (s * 0.5) == 1.0
  {
    assert (1.0 / s) * (1.0 / s) == 1.0 / (s * s);
    assert c2 == (1.0 - d) * (1.0 + d);
    assert (1.0 / (s * s)) * c2 == (1.0 - d) / 2.0;
    assert (s * 0.5) * (s * 0.5) == (s * s) / 4.0;
  }

  /// A positive number whose square is positive.
  lemma PositiveRoot(s: real, t: real)
    requires s >= 0.0 && s * s == t && t > 0.0
    ensures s > 0.0
  {
    if s == 0.0 {
      assert false;
    }
  }

  lemma UnitQuat(p: Platform, a: Vector3, b: Vector3)
    requires p.Valid()
    requires Dot(a, a) == 1.0 && Dot(b, b) == 1.0
    requires -1.0 < Dot(a, b)
    ensures var s := p.sqrt((1.0 + Dot(a, b)) * 2.0);
            var xyz := Scale(Cross(a, b), Recip(s));
            Dot(xyz, xyz) + (s * 0.5) * (s * 0.5) == 1.0
  {
    var d := Dot(a, b);
    var t := (1.0 + d) * 2.0;
    var s := p.sqrt(t);
    assert t > 0.0;
    PositiveRoot(s, t);
    Lagrange(a, b);
    var c := Cross(a, b);
    ScaleSquared(c, 1.0 / s);
    UnitQuatScalar(s, d, Dot(c, c));
  }

  /// Outside the two special branches the constructed quaternion is a unit
  /// quaternion.
  lemma FromToUnit(p: Platform, from: Vector3, to: Vector3, axis: Vector3)
    requires p.Valid()
    requires from != Zero && to != Zero
    requires var d := Dot(Normalized(p, from), Normalized(p, to));
      -1.0 + LeastNormalMagnitude <= d < 1.0
    ensures QuatNorm2(FromTo(p, from, to, axis)) == 1.0
  {
    NormalizedUnit(p, from);
    NormalizedUnit(p, to);
    UnitQuat(p, Normalized(p, from), Normalized(p, to));
  }

  /// Two directions that agree give the identity rotation.
  lemma FromToSameDirection(p: Platform, v: Vector3, k: real, axis: Vector3)
    requires p.Valid()
    requires v != Zero && k > 0.0
    ensures FromTo(p, v, Scale(v, k), axis) == QuatIdentity
  {
    NormalizedPositiveScale(p, v, k);
    NormalizedUnit(p, v);
  }

  /// Two opposite directions give the half turn about `axis`.
  lemma FromToOppositeDirection(p: Platform, v: Vector3, k: real, axis: Vector3)
    requires p.Valid()
    requires v != Zero && k < 0.0
    ensures FromTo(p, v, Scale(v, k), axis) == p.quatAngleAxis(Pi, axis)
  {
    NormalizedNegativeScale(p, v, k);
    NormalizedUnit(p, v);
    var n := Normalized(p, v);
    hide Normalized, Length;
    assert Dot(n, Scale(n, -1.0)) == -Dot(n, n);
    assert Dot(Normalized(p, v), Normalized(p, Scale(v, k))) == -1.0;
  }
}
