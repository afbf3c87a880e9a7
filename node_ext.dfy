/// The SCNNode extension of the library: Unity-style local-to-world and
/// world-to-local matrices built from translate x rotate x scale, point
/// transforms through them, `traverse`, and the degree/radian constants.
/// The same extension appears a second time in the example application's
/// math file with identical bodies; both are modelled by this module.
module NodeExt {
  import opened Numerics
  import opened SceneGraph
  import opened SceneKitExt

  /// `Float.deg2rad`: (pi * 2) / 360.
  function Deg2Rad(): real {
    (Pi * 2.0) / 360.0
  }

  /// `Float.rad2deg`: 360 / (pi * 2), the reciprocal of `Deg2Rad`.
  function Rad2Deg(): (r: real)
    ensures r * Deg2Rad() == 1.0
  {
    360.0 / (Pi * 2.0)
  }

  /// The elementary rotation about x by `deg` degrees: the identity with
  /// the (y, z) block replaced by cos/sin.
  function RotX(p: Platform, deg: real): Matrix4 {
    var rad := deg * Deg2Rad();
    var sin := p.sin(rad);
    var cos := p.cos(rad);
    Identity4.(m22 := cos, m23 := -sin, m32 := sin, m33 := cos)
  }

  /// The elementary rotation about y: the (z, x) block.
  function RotY(p: Platform, deg: real): Matrix4 {
    var rad := deg * Deg2Rad();
    var sin := p.sin(rad);
    var cos := p.cos(rad);
    Identity4.(m33 := cos, m31 := -sin, m13 := sin, m11 := cos)
  }

  /// The elementary rotation about z: the (x, y) block.
  function RotZ(p: Platform, deg: real): Matrix4 {
    var rad := deg * Deg2Rad();
    var sin := p.sin(rad);
    var cos := p.cos(rad);
    Identity4.(m11 := cos, m12 := -sin, m21 := sin, m22 := cos)
  }

  /// `rotate(euler:)`: y(e.y) * x(e.x) * z(e.z).
  function RotateEuler(p: Platform, euler: Vector3): Matrix4 {
    p.matMult(p.matMult(RotY(p, euler.y), RotX(p, euler.x)), RotZ(p, euler.z))
  }

  /// `translate(vec:)`: the identity translated by `v`.
  function TranslateMatrix(p: Platform, v: Vector3): Matrix4 {
    p.translate(Identity4, v)
  }

  /// `scale(scale:)`: the identity scaled by `s`.
  function ScaleMatrix(p: Platform, s: Vector3): Matrix4 {
    p.scale(Identity4, s)
  }

  /// `trs`: translate * rotate * scale.
  function Trs(p: Platform, trans: Vector3, euler: Vector3, scale: Vector3): Matrix4 {
    p.matMult(p.matMult(TranslateMatrix(p, trans), RotateEuler(p, euler)), ScaleMatrix(p, scale))
  }

  /// `localToParent(transform:)`: trs of the node's position, euler angles
  /// and scale.
  function LocalToParent(p: Platform, n: Node): Matrix4 {
    Trs(p, n.position, n.eulerAngles, n.scale)
  }

  /// The node has a parent in the arena (the force unwrap of `parent!`).
  predicate HasParent(nodes: seq<Node>, i: nat) {
    i < |nodes| && nodes[i].parent.Some? && nodes[i].parent.value < |nodes|
  }

  /// `localToWorldMatrix`: the parent's local matrix times the node's own,
  /// two levels only, whatever the depth of the node.
  function LocalToWorld(p: Platform, nodes: seq<Node>, i: nat): Matrix4
    requires HasParent(nodes, i)
  {
    p.matMult(LocalToParent(p, nodes[nodes[i].parent.value]), LocalToParent(p, nodes[i]))
  }

  /// `worldToLocalMatrix`: the foreign inverse of `LocalToWorld`.
  function WorldToLocal(p: Platform, nodes: seq<Node>, i: nat): Matrix4
    requires HasParent(nodes, i)
  {
    p.matInvert(LocalToWorld(p, nodes, i))
  }

  /// `transformPoint`
  function TransformPoint(p: Platform, nodes: seq<Node>, i: nat, point: Vector3): Vector3
    requires HasParent(nodes, i)
  {
    MulPoint(LocalToWorld(p, nodes, i), point)
  }

  /// `inverseTransformPoint`
  function InverseTransformPoint(p: Platform, nodes: seq<Node>, i: nat, point: Vector3): Vector3
    requires HasParent(nodes, i)
  {
    MulPoint(WorldToLocal(p, nodes, i), point)
  }

  /// `traverse`: the node's direct children only, in order.
  function Traverse(nodes: seq<Node>, i: nat): seq<nat>
    requires i < |nodes|
  {
    nodes[i].children
  }

  // ---------------- properties ----------------

  lemma SinCosBlock(s: real, c: real, y: real, z: real)
    requires s * s + c * c == 1.0
    ensures (c * y - s * z) * (c * y - s * z) + (s * y + c * z) * (s * y + c * z) == y * y + z * z
  {
    assert (c * y - s * z) * (c * y - s * z) + (s * y + c * z) * (s * y + c * z)
        == (s * s + c * c) * (y * y + z * z);
  }

  /// The rotation about x leaves the x axis fixed and preserves lengths.
  lemma RotXProperties(p: Platform, deg: real, v: Vector3)
    requires p.Valid()
    ensures MulPoint(RotX(p, deg), Vector3(v.x, 0.0, 0.0)) == Vector3(v.x, 0.0, 0.0)
    ensures Dot(MulPoint(RotX(p, deg), v), MulPoint(RotX(p, deg), v)) == Dot(v, v)
  {
    var rad := deg * Deg2Rad();
    var m := RotX(p, deg);
    MulPointAffine(m, v);
    MulPointAffine(m, Vector3(v.x, 0.0, 0.0));
    SinCosBlock(p.sin(rad), p.cos(rad), v.y, v.z);
  }

  /// The rotation about y leaves the y axis fixed and preserves lengths.
  lemma RotYProperties(p: Platform, deg: real, v: Vector3)
    requires p.Valid()
    ensures MulPoint(RotY(p, deg), Vector3(0.0, v.y, 0.0)) == Vector3(0.0, v.y, 0.0)
    ensures Dot(MulPoint(RotY(p, deg), v), MulPoint(RotY(p, deg), v)) == Dot(v, v)
  {
    var rad := deg * Deg2Rad();
    var m := RotY(p, deg);
    MulPointAffine(m, v);
    MulPointAffine(m, Vector3(0.0, v.y, 0.0));
    SinCosBlock(p.sin(rad), p.cos(rad), v.z, v.x);
  }

  /// The rotation about z leaves the z axis fixed and preserves lengths.
  lemma RotZProperties(p: Platform, deg: real, v: Vector3)
    requires p.Valid()
    ensures MulPoint(RotZ(p, deg), Vector3(0.0, 0.0, v.z)) == Vector3(0.0, 0.0, v.z)
    ensures Dot(MulPoint(RotZ(p, deg), v), MulPoint(RotZ(p, deg), v)) == Dot(v, v)
  {
    var rad := deg * Deg2Rad();
    var m := RotZ(p, deg);
    MulPointAffine(m, v);
    MulPointAffine(m, Vector3(0.0, 0.0, v.z));
    SinCosBlock(p.sin(rad), p.cos(rad), v.x, v.y);
  }

  /// Zero angles give the identity, and so does the rest pose of `trs`.
  lemma RestPoseIdentity(p: Platform)
    requires p.Valid()
    ensures RotX(p, 0.0) == Identity4 && RotY(p, 0.0) == Identity4 && RotZ(p, 0.0) == Identity4
    ensures RotateEuler(p, Zero) == Identity4
    ensures Trs(p, Zero, Zero, One) == Identity4
  {
    assert 0.0 * Deg2Rad() == 0.0;
  }

  /// A node at rest under a parent at rest has the identity as its
  /// local-to-world matrix, so `transformPoint` returns the point itself.
  lemma TransformPointAtRest(p: Platform, nodes: seq<Node>, i: nat, point: Vector3)
    requires p.Valid() && HasParent(nodes, i)
    requires var n := nodes[i]; n.position == Zero && n.eulerAngles == Zero && n.scale == One
    requires var n := nodes[nodes[i].parent.value]; n.position == Zero && n.eulerAngles == Zero && n.scale == One
    ensures LocalToWorld(p, nodes, i) == Identity4
    ensures TransformPoint(p, nodes, i, point) == point
  {
    RestPoseIdentity(p);
    MulPointIdentity(point);
  }

  /// Only the node and its parent enter `localToWorldMatrix`: two arenas
  /// that agree on them agree on the matrix, however the grandparents differ.
  lemma LocalToWorldTwoLevels(p: Platform, nodes: seq<Node>, nodes': seq<Node>, i: nat)
    requires HasParent(nodes, i) && HasParent(nodes', i)
    requires nodes'[i] == nodes[i]
    requires nodes'[nodes[i].parent.value] == nodes[nodes[i].parent.value]
    ensures LocalToWorld(p, nodes', i) == LocalToWorld(p, nodes, i)
  {
  }

  /// When the local-to-world matrix is affine and its foreign inverse is an
  /// affine left inverse of it, `inverseTransformPoint` undoes
  /// `transformPoint`.
  lemma InverseTransformRoundTrip(p: Platform, nodes: seq<Node>, i: nat, point: Vector3)
    requires HasParent(nodes, i)
    requires Affine(LocalToWorld(p, nodes, i)) && Affine(WorldToLocal(p, nodes, i))
    requires Product(WorldToLocal(p, nodes, i), LocalToWorld(p, nodes, i)) == Identity4
    ensures InverseTransformPoint(p, nodes, i, TransformPoint(p, nodes, i, point)) == point
  {
    MulPointInverse(WorldToLocal(p, nodes, i), LocalToWorld(p, nodes, i), point);
  }
}
