/// `VRMSpringBoneColliderGroup`: the node a group of sphere colliders is
/// attached to, looked up by its glTF node index, and the colliders
/// themselves, converted one by one from the file's records.
module ColliderGroups {
  import opened Wrappers
  import opened Numerics

  /// The file's vector type (`VRM.Vector3`).
  datatype SourceVector = SourceVector(x: real, y: real, z: real)

  /// `VRM.SecondaryAnimation.ColliderGroup.Collider`
  datatype SourceCollider = SourceCollider(offset: SourceVector, radius: real)

  /// `VRM.SecondaryAnimation.ColliderGroup`: a node index and its colliders.
  datatype SourceGroup = SourceGroup(node: int, colliders: seq<SourceCollider>)

  /// `VRMSpringBoneColliderGroup.SphereCollider`: an offset in the group
  /// node's local space and a radius.
  datatype GroupCollider = GroupCollider(offset: Vector3, radius: real)

  /// `VRMSpringBoneColliderGroup`: the resolved node and the colliders.
  datatype ColliderGroup = ColliderGroup(node: nat, colliders: seq<GroupCollider>)

  /// `SphereCollider.init(collider:)`; `toSCN` is the file vector's
  /// `createSCNVector3`.
  function MakeCollider(toSCN: SourceVector -> Vector3, c: SourceCollider): GroupCollider {
    GroupCollider(toSCN(c.offset), c.radius)
  }

  /// `colliderGroup.colliders.map(SphereCollider.init)`
  function MapColliders(toSCN: SourceVector -> Vector3, cs: seq<SourceCollider>): (r: seq<GroupCollider>)
    ensures |r| == |cs|
  {
    if cs == [] then [] else [MakeCollider(toSCN, cs[0])] + MapColliders(toSCN, cs[1..])
  }

  /// One collider per source collider, in the same order, its radius copied
  /// and its offset converted.
  lemma {:induction false} MapCollidersPointwise(toSCN: SourceVector -> Vector3, cs: seq<SourceCollider>)
    ensures forall k :: 0 <= k < |cs| ==>
      && MapColliders(toSCN, cs)[k].radius == cs[k].radius
      && MapColliders(toSCN, cs)[k].offset == toSCN(cs[k].offset)
    decreases |cs|
  {
    if cs != [] {
      MapCollidersPointwise(toSCN, cs[1..]);
      var r := MapColliders(toSCN, cs);
      forall k | 0 <= k < |cs|
        ensures r[k].radius == cs[k].radius && r[k].offset == toSCN(cs[k].offset)
      {
        if k > 0 {
          assert r[k] == MapColliders(toSCN, cs[1..])[k - 1];
          assert cs[k] == cs[1..][k - 1];
        }
      }
    }
  }

  /// `init(colliderGroup:loader:)`: `lookup` is the loader's throwing
  /// `node(withNodeIndex:)`. A failed lookup is the constructor's error and
  /// no group is made; otherwise the group holds the node found and the
  /// converted colliders.
  function MakeGroup(lookup: int -> Result<nat>, toSCN: SourceVector -> Vector3, g: SourceGroup): (r: Result<ColliderGroup>)
    ensures r.Ok? <==> lookup(g.node).Ok?
    ensures r.Err? ==> r.message == lookup(g.node).message
    ensures r.Ok? ==> r.value.node == lookup(g.node).value && |r.value.colliders| == |g.colliders|
  {
    match lookup(g.node)
    case Err(message) => Err(message)
    case Ok(node) => Ok(ColliderGroup(node, MapColliders(toSCN, g.colliders)))
  }

  /// A group made from a file record carries the record's colliders, one
  /// for one: same radius, converted offset.
  lemma MakeGroupColliders(lookup: int -> Result<nat>, toSCN: SourceVector -> Vector3, g: SourceGroup)
    requires lookup(g.node).Ok?
    ensures var r := MakeGroup(lookup, toSCN, g);
      && r.Ok?
      && forall k :: 0 <= k < |g.colliders| ==>
           && r.value.colliders[k].radius == g.colliders[k].radius
           && r.value.colliders[k].offset == toSCN(g.colliders[k].offset)
  {
    MapCollidersPointwise(toSCN, g.colliders);
  }
}
