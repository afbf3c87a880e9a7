/// The example application's own `VRMSpringBone`: the same spring-bone
/// component as the library's, with every tuning value a constant, no
/// collider groups, nodes wrapped in a hashable `Transform`, and frame time
/// read from a `Time` singleton that never advances its reference time.
/// Its logics are `BoneLogic`s of the `Example` variant, which read
/// SceneKit's own `worldTransform` and `transform` matrices.
module ExampleSpringBones {
  import opened Wrappers
  import opened Numerics
  import opened SceneGraph
  import opened SceneKitExt
  import opened SpringBoneLogic
  import opened SpringBoneChain
  import opened ColliderGroups
  import opened SpringBones

  // ---------------- Transform ----------------

  /// `Transform`: a wrapper around one node of the arena.
  datatype Transform = Transform(node: nat)

  /// `==` on transforms compares hash values; `hash` is the value the
  /// hasher produces for a node.
  predicate TransformEquals(hash: nat -> int, lhs: Transform, rhs: Transform) {
    hash(lhs.node) == hash(rhs.node)
  }

  /// Two wrappers of the same node are equal, whatever the hasher, and the
  /// equality is an equivalence; so the rotation map, keyed by transforms
  /// in the source, is keyed by node here.
  lemma TransformEqualsSameNode(hash: nat -> int, a: Transform, b: Transform, c: Transform)
    ensures a.node == b.node ==> TransformEquals(hash, a, b)
    ensures TransformEquals(hash, a, a)
    ensures TransformEquals(hash, a, b) ==> TransformEquals(hash, b, a)
    ensures TransformEquals(hash, a, b) && TransformEquals(hash, b, c) ==> TransformEquals(hash, a, c)
  {
  }

  /// `getChildren(parent:)`: the children collected one index at a time.
  method GetChildren(nodes: seq<Node>, parent: Transform) returns (res: seq<Transform>)
    requires parent.node < |nodes|
    ensures |res| == |nodes[parent.node].children|
    ensures forall i :: 0 <= i < |res| ==> res[i].node == nodes[parent.node].children[i]
  {
    var children := nodes[parent.node].children;
    res := [];
    var i := 0;
    while i < |children|
      invariant 0 <= i <= |children|
      invariant |res| == i
      invariant forall k :: 0 <= k < i ==> res[k].node == children[k]
    {
      res := res + [Transform(children[i])];
      i := i + 1;
    }
  }

  // ---------------- Time ----------------

  /// The reference time after one `update(at:)`: set by the first call
  /// (any call while it is still 0), never moved afterwards.
  function Reference(last: real, time: real): real {
    if last == 0.0 then time else last
  }

  /// The reference time after calls at `times`, in order.
  function ReferenceAfter(last: real, times: seq<real>): real {
    if times == [] then last
    else Reference(ReferenceAfter(last, times[..|times| - 1]), times[|times| - 1])
  }

  /// Once set, the reference time never changes.
  lemma {:induction false} ReferenceSettled(last: real, times: seq<real>)
    requires last != 0.0
    ensures ReferenceAfter(last, times) == last
    decreases |times|
  {
    if times != [] {
      ReferenceSettled(last, times[..|times| - 1]);
    }
  }

  /// Calls at time 0 leave an unset reference unset.
  lemma {:induction false} ReferenceZeros(times: seq<real>)
    requires forall j :: 0 <= j < |times| ==> times[j] == 0.0
    ensures ReferenceAfter(0.0, times) == 0.0
    decreases |times|
  {
    if times != [] {
      ReferenceZeros(times[..|times| - 1]);
    }
  }

  /// From a fresh `Time`, the reference is the first nonzero call time, so
  /// `deltaTime` is the time elapsed since that call.
  lemma {:induction false} ReferenceFirstNonzero(times: seq<real>, i: nat)
    requires i < |times| && times[i] != 0.0
    requires forall j :: 0 <= j < i ==> times[j] == 0.0
    ensures ReferenceAfter(0.0, times) == times[i]
    decreases |times|
  {
    var n := |times| - 1;
    if n == i {
      ReferenceZeros(times[..n]);
    } else {
      ReferenceFirstNonzero(times[..n], i);
    }
  }

  /// `Time`: the shared frame clock of the example application.
  class Time {
    var lastUpdateTime: real
    var deltaTime: real

    constructor ()
      ensures lastUpdateTime == 0.0 && deltaTime == 0.0
    {
      lastUpdateTime := 0.0;
      deltaTime := 0.0;
    }

    /// `update(at:)`: the reference is set only while it is 0; `deltaTime`
    /// is the time since the reference.
    method Update(time: real)
      modifies this
      ensures lastUpdateTime == Reference(old(lastUpdateTime), time)
      ensures deltaTime == time - lastUpdateTime
    {
      if lastUpdateTime == 0.0 {
        lastUpdateTime := time;
      }
      var deltaTime := time - lastUpdateTime;
      this.deltaTime := deltaTime;
    }
  }

  // ---------------- VRMSpringBone ----------------

  /// The matrix translating by `t`.
  function Translation(t: Vector3): Matrix4 {
    Identity4.(m14 := t.x, m24 := t.y, m34 := t.z)
  }

  /// The example's `worldToLocalMatrix` is the node's own local `transform`,
  /// not the inverse of `worldTransform`: for a node whose two matrices are
  /// the same translation by `t`, mapping a point to world space and back
  /// moves it by `2 t`, and a nonzero `t` never brings it back.
  lemma InverseTransformPointIsLocal(p: Platform, nodes: seq<Node>, i: nat, t: Vector3, x: Vector3)
    requires i < |nodes| && nodes[i].worldTransform == Translation(t) && nodes[i].transform == Translation(t)
    ensures ToLocal(p, Example, nodes, i, ToWorld(p, Example, nodes, i, x)) == Add(Add(x, t), t)
    ensures t != Zero ==> ToLocal(p, Example, nodes, i, ToWorld(p, Example, nodes, i, x)) != x
  {
    var m := Translation(t);
    MulPointAffine(m, x);
    var w := MulPoint(m, x);
    assert w == Add(x, t);
    MulPointAffine(m, w);
    assert MulPoint(m, w) == Add(w, t);
  }

  /// `VRMSpringBone` of the example application.
  class VRMSpringBone {
    const scene: Scene
    const stiffnessForce: real := 1.0
    const gravityPower: real := 0.0
    const gravityDir: Vector3 := Vector3(0.0, -1.0, 0.0)
    const dragForce: real := 0.4
    var center: Option<nat>
    var rootBones: seq<nat>
    var initialLocalRotationMap: map<nat, Quaternion>
    const hitRadius: real := 0.02
    const colliderGroups: seq<ColliderGroup> := []
    var verlet: seq<BoneLogic>
    var colliderList: seq<SphereCollider>

    /// What `setup` and `lateUpdate` rely on.
    ghost predicate Valid()
      reads this, scene
    {
      Ready(Example, scene.nodes, center, rootBones, initialLocalRotationMap, colliderGroups)
      && LogicsOk(Example, scene.nodes, verlet)
    }

    /// The property initialisers: no center, no root bones, nothing set up.
    constructor (scene: Scene)
      ensures this.scene == scene
      ensures center == None && rootBones == [] && initialLocalRotationMap == map[]
      ensures verlet == [] && colliderList == []
      ensures WellFormed(scene.nodes) ==> Valid()
    {
      this.scene := scene;
      center := None;
      rootBones := [];
      initialLocalRotationMap := map[];
      verlet := [];
      colliderList := [];
    }

    /// `setup(_ force:)`: the library's policy, with `Example` logics.
    method Setup(p: Platform, force: bool)
      requires Valid()
      modifies this`initialLocalRotationMap, this`verlet, scene
      ensures Valid()
      ensures rootBones == [] ==>
        && scene.nodes == old(scene.nodes)
        && initialLocalRotationMap == old(initialLocalRotationMap)
        && verlet == old(verlet)
      ensures rootBones != [] ==>
        && scene.nodes == SetupNodes(old(scene.nodes), old(initialLocalRotationMap), force)
        && initialLocalRotationMap == Snapshot(scene.nodes, rootBones)
        && (forall k :: 0 <= k < |verlet| ==> fresh(verlet[k]))
        && States(verlet) == SetupStates(p, Example, scene.nodes, center.value, rootBones)
    {
      hide Ready, Snapshot, SetupStates, InitialStates, Forest, Restore, InitialState, ChildPosition, SetupNodes;
      if rootBones != [] {
        SetupArenaReady(Example, scene.nodes, center, rootBones, initialLocalRotationMap, colliderGroups, force);
        ResetArena(force);
        verlet := [];
        var snapshot, logics := SetupRoots(p, Example, scene.nodes, center.value, rootBones);
        SetupStatesAre(p, Example, scene.nodes, center.value, rootBones);
        initialLocalRotationMap := snapshot;
        verlet := logics;
      }
    }

    /// The first half of `setup` with root bones: saved rotations written
    /// back through `localRotation` unless `force` is set or none were
    /// saved, then the map emptied.
    method ResetArena(force: bool)
      requires KeysInRange(initialLocalRotationMap, |scene.nodes|)
      modifies this`initialLocalRotationMap, scene
      ensures scene.nodes == SetupNodes(old(scene.nodes), old(initialLocalRotationMap), force)
      ensures initialLocalRotationMap == map[]
    {
      if !force && initialLocalRotationMap != map[] {
        RestoreRotations(scene, initialLocalRotationMap);
      }
      initialLocalRotationMap := map[];
    }

    /// `setLocalRotationsIdentity()`
    method SetLocalRotationsIdentity()
      requires Valid()
      modifies scene
      ensures Valid()
      ensures scene.nodes == ResetRotations(old(scene.nodes), Heads(verlet))
    {
      assert forall k :: 0 <= k < |verlet| ==> verlet[k].node == States(verlet)[k].node;
      SpringBoneChain.SetLocalRotationsIdentity(scene, verlet);
      ResetRotationsContents(old(scene.nodes), Heads(verlet));
      assert SameShape(old(scene.nodes), scene.nodes);
      SameShapeKeepsTree(Example, old(scene.nodes), scene.nodes);
    }

    /// `lateUpdate()`: nothing without logics and root bones, a lazy
    /// `setup()` without logics; then, the collider groups being empty and
    /// the gravity power 0, every logic stepped with stiffness
    /// `1.0 * deltaTime`, no external force and no colliders.
    method LateUpdate(p: Platform, time: Time)
      requires Valid()
      modifies this`initialLocalRotationMap, this`verlet, this`colliderList, scene, verlet
      ensures Valid()
      ensures old(verlet) == [] && rootBones == [] ==>
        && scene.nodes == old(scene.nodes)
        && verlet == [] && colliderList == old(colliderList)
        && initialLocalRotationMap == old(initialLocalRotationMap)
      ensures old(verlet) != [] ==> verlet == old(verlet) && initialLocalRotationMap == old(initialLocalRotationMap)
      ensures old(verlet) == [] && rootBones != [] ==>
        && (forall k :: 0 <= k < |verlet| ==> fresh(verlet[k]))
        && initialLocalRotationMap
           == Snapshot(FrameStart(p, Example, old(scene.nodes), old(initialLocalRotationMap), center, rootBones, old(States(verlet))).0,
                       rootBones)
      ensures old(verlet) != [] || rootBones != [] ==>
        var start := FrameStart(p, Example, old(scene.nodes), old(initialLocalRotationMap), center, rootBones, old(States(verlet)));
        && colliderList == []
        && States(verlet) == StepAll(p, Example, start.0, center, start.1, time.deltaTime, 0.4, Zero, [], 0.02).0
        && scene.nodes == StepAll(p, Example, start.0, center, start.1, time.deltaTime, 0.4, Zero, [], 0.02).1
    {
      hide FrameStart, StepAll, Step, Snapshot, SetupStates, InitialStates, Forest, SetupNodes;
      if verlet == [] && rootBones == [] {
        FrameStartCases(p, Example, scene.nodes, initialLocalRotationMap, center, rootBones, States(verlet));
        return;
      }
      Prepare(p);
      Advance(p, time);
    }

    /// The start of `lateUpdate()`: logics already built are kept;
    /// otherwise `setup()` runs.
    method Prepare(p: Platform)
      requires Valid() && (verlet != [] || rootBones != [])
      modifies this`initialLocalRotationMap, this`verlet, scene
      ensures Valid()
      ensures var start := FrameStart(p, Example, old(scene.nodes), old(initialLocalRotationMap), center, rootBones, old(States(verlet)));
        scene.nodes == start.0 && States(verlet) == start.1
      ensures old(verlet) != [] ==> verlet == old(verlet) && initialLocalRotationMap == old(initialLocalRotationMap)
      ensures old(verlet) == [] ==>
        && (forall k :: 0 <= k < |verlet| ==> fresh(verlet[k]))
        && initialLocalRotationMap == Snapshot(scene.nodes, rootBones)
    {
      hide FrameStart, StepAll, Step, Snapshot, SetupStates, InitialStates, Forest, SetupNodes;
      FrameStartCases(p, Example, scene.nodes, initialLocalRotationMap, center, rootBones, States(verlet));
      if verlet == [] {
        Setup(p, false);
      }
    }

    /// The rest of `lateUpdate()`: the collider list emptied (there are no
    /// groups to fill it from), then every logic stepped with the frame's
    /// stiffness and external force.
    method Advance(p: Platform, time: Time)
      requires Valid()
      modifies this`colliderList, scene, verlet
      ensures Valid()
      ensures colliderList == []
      ensures States(verlet) == StepAll(p, Example, old(scene.nodes), center, old(States(verlet)), time.deltaTime, 0.4, Zero, [], 0.02).0
      ensures scene.nodes == StepAll(p, Example, old(scene.nodes), center, old(States(verlet)), time.deltaTime, 0.4, Zero, [], 0.02).1
    {
      hide StepAll, Step;
      colliderList := [];
      var stiffness := stiffnessForce * time.deltaTime;
      var external := Scale(gravityDir, gravityPower * time.deltaTime);
      assert stiffness == time.deltaTime && external == Zero;
      ghost var nodes0 := scene.nodes;
      LogicsStepOk(Example, scene.nodes, verlet);
      UpdateAll(p, Example, scene, center, verlet, stiffness, dragForce, external, colliderList, hitRadius);
      ReadyKeptByShape(Example, nodes0, scene.nodes, center, rootBones, initialLocalRotationMap, initialLocalRotationMap, colliderGroups);
    }
  }
}
