/// `VRMSpringBone` of the library: the component that owns one spring-bone
/// group of a model. `setup` builds a logic per node under its root bones;
/// each `update(deltaTime:)` gathers the world-space colliders of its
/// collider groups and steps every logic once.
module SpringBones {
  import opened Wrappers
  import opened Numerics
  import opened SceneGraph
  import opened SceneKitExt
  import opened NodeExt
  import opened SpringBoneLogic
  import opened SpringBoneChain
  import opened ColliderGroups

  // ---------------- colliders ----------------

  /// Every group node can map points: `transformPoint` unwraps its parent.
  predicate GroupsOk(nodes: seq<Node>, groups: seq<ColliderGroup>) {
    forall j :: 0 <= j < |groups| ==> HasParent(nodes, groups[j].node)
  }

  /// The world-space colliders of one group, one per collider, in order.
  function GroupColliders(p: Platform, nodes: seq<Node>, node: nat, cs: seq<GroupCollider>): (r: seq<SphereCollider>)
    requires HasParent(nodes, node)
    ensures |r| == |cs|
  {
    if cs == [] then []
    else
      var n := |cs| - 1;
      GroupColliders(p, nodes, node, cs[..n]) + [SphereCollider(TransformPoint(p, nodes, node, cs[n].offset), cs[n].radius)]
  }

  /// How many colliders the groups hold together.
  function ColliderCount(groups: seq<ColliderGroup>): nat {
    if groups == [] then 0
    else ColliderCount(groups[..|groups| - 1]) + |groups[|groups| - 1].colliders|
  }

  /// `colliderList` as `update(deltaTime:)` rebuilds it: the colliders of
  /// each group in turn.
  function ColliderList(p: Platform, nodes: seq<Node>, groups: seq<ColliderGroup>): (r: seq<SphereCollider>)
    requires GroupsOk(nodes, groups)
    ensures |r| == ColliderCount(groups)
  {
    if groups == [] then []
    else
      var n := |groups| - 1;
      ColliderList(p, nodes, groups[..n]) + GroupColliders(p, nodes, groups[n].node, groups[n].colliders)
  }

  /// Collider `k` of a group sits at its offset mapped through the group
  /// node, with its own radius.
  lemma {:induction false} GroupCollidersAt(p: Platform, nodes: seq<Node>, node: nat, cs: seq<GroupCollider>, k: nat)
    requires HasParent(nodes, node) && k < |cs|
    ensures GroupColliders(p, nodes, node, cs)[k] == SphereCollider(TransformPoint(p, nodes, node, cs[k].offset), cs[k].radius)
    decreases |cs|
  {
    var n := |cs| - 1;
    if k < n {
      GroupCollidersAt(p, nodes, node, cs[..n], k);
    }
  }

  /// Collider `k` of group `j` is entry `ColliderCount(groups[..j]) + k` of
  /// the list: groups in order, each group's colliders in order.
  lemma {:induction false} ColliderListAt(p: Platform, nodes: seq<Node>, groups: seq<ColliderGroup>, j: nat, k: nat)
    requires GroupsOk(nodes, groups) && j < |groups| && k < |groups[j].colliders|
    ensures ColliderCount(groups[..j]) + k < |ColliderList(p, nodes, groups)|
    ensures ColliderList(p, nodes, groups)[ColliderCount(groups[..j]) + k]
         == SphereCollider(TransformPoint(p, nodes, groups[j].node, groups[j].colliders[k].offset),
                           groups[j].colliders[k].radius)
    decreases |groups|
  {
    hide ColliderList, GroupColliders;
    var n := |groups| - 1;
    var init := groups[..n];
    ColliderListSnoc(p, nodes, groups, n);
    assert groups[..n + 1] == groups;
    var a := ColliderList(p, nodes, init);
    var b := GroupColliders(p, nodes, groups[n].node, groups[n].colliders);
    if j == n {
      GroupCollidersAt(p, nodes, groups[n].node, groups[n].colliders, k);
      assert (a + b)[|a| + k] == b[k];
    } else {
      assert init[..j] == groups[..j] && init[j] == groups[j];
      ColliderListAt(p, nodes, init, j, k);
      assert (a + b)[ColliderCount(groups[..j]) + k] == a[ColliderCount(groups[..j]) + k];
    }
  }

  /// No groups, or no colliders yet, give an empty list.
  lemma ColliderListEmpty(p: Platform, nodes: seq<Node>, groups: seq<ColliderGroup>)
    requires GroupsOk(nodes, groups)
    ensures GroupsOk(nodes, groups[..0]) && ColliderList(p, nodes, groups[..0]) == []
    ensures groups == [] ==> ColliderList(p, nodes, groups) == []
    ensures forall j :: 0 <= j < |groups| ==> GroupColliders(p, nodes, groups[j].node, groups[j].colliders[..0]) == []
  {
    assert groups[..0] == [];
  }

  /// One more group appends its colliders.
  lemma ColliderListSnoc(p: Platform, nodes: seq<Node>, groups: seq<ColliderGroup>, j: nat)
    requires GroupsOk(nodes, groups) && j < |groups|
    ensures GroupsOk(nodes, groups[..j]) && GroupsOk(nodes, groups[..j + 1])
    ensures ColliderList(p, nodes, groups[..j + 1])
         == ColliderList(p, nodes, groups[..j]) + GroupColliders(p, nodes, groups[j].node, groups[j].colliders)
  {
    assert groups[..j + 1][..j] == groups[..j];
  }

  /// One more collider of a group appends its sphere.
  lemma GroupCollidersSnoc(p: Platform, nodes: seq<Node>, node: nat, cs: seq<GroupCollider>, k: nat)
    requires HasParent(nodes, node) && k < |cs|
    ensures GroupColliders(p, nodes, node, cs[..k + 1])
         == GroupColliders(p, nodes, node, cs[..k]) + [SphereCollider(TransformPoint(p, nodes, node, cs[k].offset), cs[k].radius)]
  {
    assert cs[..k + 1][..k] == cs[..k];
  }

  // ---------------- the frame ----------------

  /// The first half of `setup` keeps the tree, and whatever could map
  /// points or be set up still can.
  lemma SetupArenaShape(v: Variant, nodes: seq<Node>, m: map<nat, Quaternion>, roots: seq<nat>, force: bool)
    requires WellFormed(nodes) && RootsOk(v, nodes, roots)
    ensures var nodes' := SetupNodes(nodes, m, force);
      && WellFormed(nodes') && SameShape(nodes, nodes') && RootsOk(v, nodes', roots)
      && (forall i :: HasParent(nodes, i) ==> HasParent(nodes', i))
      && (forall i :: CanTransform(v, nodes, i) ==> CanTransform(v, nodes', i))
  {
    hide Restore;
    var nodes' := SetupNodes(nodes, m, force);
    RestoreKeepsTree(nodes, m);
    assert SameShape(nodes, nodes');
    SameShapeKeepsTree(v, nodes, nodes');
  }

  /// The arena and logic states the update loop starts from: the current
  /// ones, or, for a component without logics yet, those of the lazy
  /// `setup()` (saved rotations restored, logics built for `roots`).
  function FrameStart(p: Platform, v: Variant, nodes: seq<Node>, m: map<nat, Quaternion>, center: Option<nat>,
                      roots: seq<nat>, states: seq<LogicState>): (r: (seq<Node>, seq<LogicState>))
    requires WellFormed(nodes) && RootsOk(v, nodes, roots)
    requires roots != [] ==> center.Some? && CanTransform(v, nodes, center.value)
    requires forall k :: 0 <= k < |states| ==> states[k].node < |nodes|
    ensures WellFormed(r.0) && SameShape(nodes, r.0) && AllStepOk(r.0, r.1) && RootsOk(v, r.0, roots)
    ensures forall i :: HasParent(nodes, i) ==> HasParent(r.0, i)
    ensures forall i :: CanTransform(v, nodes, i) ==> CanTransform(v, r.0, i)
  {
    if states != [] || roots == [] then
      assert forall k :: 0 <= k < |states| ==> StepOk(nodes, states[k].node);
      (nodes, states)
    else
      SetupArenaShape(v, nodes, m, roots, false);
      var nodes1 := SetupNodes(nodes, m, false);
      (nodes1, SetupStates(p, v, nodes1, center.value, roots))
  }

  /// A force or power applied over `seconds` of frame time; kept as a
  /// named function so that equal frame parameters are recognised as equal.
  function PerFrame(force: real, seconds: real): real {
    force * seconds
  }

  /// `FrameStart` in its two cases.
  lemma FrameStartCases(p: Platform, v: Variant, nodes: seq<Node>, m: map<nat, Quaternion>, center: Option<nat>,
                        roots: seq<nat>, states: seq<LogicState>)
    requires WellFormed(nodes) && RootsOk(v, nodes, roots)
    requires roots != [] ==> center.Some? && CanTransform(v, nodes, center.value)
    requires forall k :: 0 <= k < |states| ==> states[k].node < |nodes|
    ensures states != [] || roots == [] ==>
      FrameStart(p, v, nodes, m, center, roots, states).0 == nodes && FrameStart(p, v, nodes, m, center, roots, states).1 == states
    ensures states == [] && roots != [] ==>
      && FrameStart(p, v, nodes, m, center, roots, states).0 == SetupNodes(nodes, m, false)
      && FrameStart(p, v, nodes, m, center, roots, states).1
         == SetupStates(p, v, FrameStart(p, v, nodes, m, center, roots, states).0, center.value, roots)
  {
  }

  /// The arena, center, root bones, saved rotations and collider groups fit
  /// together: a well-formed tree; a center whenever there are root bones
  /// (`setupRecursive` takes it unwrapped); and nodes that can map points
  /// wherever the code maps through them.
  ghost predicate Ready(v: Variant, nodes: seq<Node>, center: Option<nat>, roots: seq<nat>, m: map<nat, Quaternion>,
                        groups: seq<ColliderGroup>) {
    && WellFormed(nodes)
    && CenterOk(v, nodes, center)
    && (roots != [] ==> center.Some?)
    && RootsOk(v, nodes, roots)
    && KeysInRange(m, |nodes|)
    && GroupsOk(nodes, groups)
  }

  /// Distinct library logics of nodes of the arena.
  predicate LogicsOk(v: Variant, nodes: seq<Node>, ls: seq<BoneLogic>) {
    && Distinct(ls)
    && forall k :: 0 <= k < |ls| ==> ls[k].variant == v && ls[k].node < |nodes|
  }

  /// An arena of the same shape, with saved rotations of its own nodes, is
  /// as ready.
  lemma ReadyKeptByShape(v: Variant, nodes: seq<Node>, nodes': seq<Node>, center: Option<nat>, roots: seq<nat>,
                         m: map<nat, Quaternion>, m': map<nat, Quaternion>, groups: seq<ColliderGroup>)
    requires Ready(v, nodes, center, roots, m, groups) && SameShape(nodes, nodes') && KeysInRange(m', |nodes|)
    ensures Ready(v, nodes', center, roots, m', groups)
  {
    SameShapeKeepsTree(v, nodes, nodes');
    assert forall j :: 0 <= j < |groups| ==> CanTransform(v, nodes, groups[j].node);
  }

  /// The per-frame step can drive every logic of a well-formed arena.
  lemma LogicsStepOk(v: Variant, nodes: seq<Node>, ls: seq<BoneLogic>)
    requires WellFormed(nodes) && LogicsOk(v, nodes, ls)
    ensures AllStepOk(nodes, States(ls))
  {
    forall k | 0 <= k < |ls| ensures StepOk(nodes, States(ls)[k].node) {
      WellFormedStepOk(nodes, ls[k].node);
    }
  }

  /// The first half of `setup` on a ready component with root bones: the
  /// arena it leaves can be set up, and is ready with the new snapshot.
  lemma SetupArenaReady(v: Variant, nodes: seq<Node>, center: Option<nat>, roots: seq<nat>, m: map<nat, Quaternion>,
                        groups: seq<ColliderGroup>, force: bool)
    requires Ready(v, nodes, center, roots, m, groups) && roots != []
    ensures KeysInRange(m, |nodes|) && center.Some?
    ensures var nodes' := SetupNodes(nodes, m, force);
      && WellFormed(nodes') && SameShape(nodes, nodes')
      && CanTransform(v, nodes', center.value) && RootsOk(v, nodes', roots)
      && Ready(v, nodes', center, roots, Snapshot(nodes', roots), groups)
  {
    var nodes' := SetupNodes(nodes, m, force);
    SetupArenaShape(v, nodes, m, roots, force);
    SnapshotContents(nodes', roots);
    ReadyKeptByShape(v, nodes, nodes', center, roots, m, Snapshot(nodes', roots), groups);
  }

  /// `VRMSpringBone`: the settings, the root bones and collider groups, the
  /// saved rest rotations, the logics (`verlet`) and the collider list.
  class VRMSpringBone {
    const scene: Scene
    var stiffnessForce: real
    var gravityPower: real
    var gravityDir: Vector3
    var dragForce: real
    var center: Option<nat>
    var rootBones: seq<nat>
    var initialLocalRotationMap: map<nat, Quaternion>
    const hitRadius: real
    var colliderGroups: seq<ColliderGroup>
    var verlet: seq<BoneLogic>
    var colliderList: seq<SphereCollider>

    /// What `setup` and `update` rely on.
    ghost predicate Valid()
      reads this, scene
    {
      Ready(Library, scene.nodes, center, rootBones, initialLocalRotationMap, colliderGroups) && LogicsOk(Library, scene.nodes, verlet)
    }

    /// The property initialisers: default settings, nothing set up.
    constructor (scene: Scene)
      ensures this.scene == scene
      ensures stiffnessForce == 1.0 && gravityPower == 0.0 && gravityDir == Vector3(0.0, -1.0, 0.0) && dragForce == 0.4
      ensures center == None && rootBones == [] && initialLocalRotationMap == map[] && hitRadius == 0.02
      ensures colliderGroups == [] && verlet == [] && colliderList == []
      ensures WellFormed(scene.nodes) ==> Valid()
    {
      this.scene := scene;
      stiffnessForce := 1.0;
      gravityPower := 0.0;
      gravityDir := Vector3(0.0, -1.0, 0.0);
      dragForce := 0.4;
      center := None;
      rootBones := [];
      initialLocalRotationMap := map[];
      hitRadius := 0.02;
      colliderGroups := [];
      verlet := [];
      colliderList := [];
    }

    /// `setup(_ force:)`: without root bones nothing happens. Otherwise the
    /// saved rotations are written back (unless `force` is set or none were
    /// saved), the roots' direct children are snapshotted afresh and one new
    /// logic is built per node of the roots' subtrees.
    method Setup(p: Platform, force: bool)
      requires Valid()
      modifies this`initialLocalRotationMap, this`verlet, scene
      ensures Valid()
      ensures rootBones == [] ==>
        && scene.nodes == old(scene.nodes)
        && initialLocalRotationMap == old(initialLocalRotationMap)
        && verlet == old(verlet)
      ensures rootBones != [] ==>
        && scene.nodes == SetupNodes(old(scene.nodes), old(initialLocalRotationMap), force)
        && initialLocalRotationMap == Snapshot(scene.nodes, rootBones)
        && (forall k :: 0 <= k < |verlet| ==> fresh(verlet[k]))
        && States(verlet) == SetupStates(p, Library, scene.nodes, center.value, rootBones)
    {
      hide Ready, Snapshot, SetupStates, InitialStates, Forest, Restore, InitialState, ChildPosition, SetupNodes;
      if rootBones != [] {
        SetupArenaReady(Library, scene.nodes, center, rootBones, initialLocalRotationMap, colliderGroups, force);
        ResetArena(force);
        verlet := [];
        var snapshot, logics := SetupRoots(p, Library, scene.nodes, center.value, rootBones);
        SetupStatesAre(p, Library, scene.nodes, center.value, rootBones);
        initialLocalRotationMap := snapshot;
        verlet := logics;
      }
    }

    /// The first half of `setup` with root bones: the saved rotations are
    /// written back unless `force` is set or none were saved, and the map is
    /// emptied.
    method ResetArena(force: bool)
      requires KeysInRange(initialLocalRotationMap, |scene.nodes|)
      modifies this`initialLocalRotationMap, scene
      ensures scene.nodes == SetupNodes(old(scene.nodes), old(initialLocalRotationMap), force)
      ensures initialLocalRotationMap == map[]
    {
      if !force && initialLocalRotationMap != map[] {
        RestoreRotations(scene, initialLocalRotationMap);
      }
      initialLocalRotationMap := map[];
    }

    /// `setLocalRotationsIdentity()`: every logic's node back to the
    /// identity rotation.
    method SetLocalRotationsIdentity()
      requires Valid()
      modifies scene
      ensures Valid()
      ensures scene.nodes == ResetRotations(old(scene.nodes), Heads(verlet))
    {
      assert forall k :: 0 <= k < |verlet| ==> verlet[k].node == States(verlet)[k].node;
      SpringBoneChain.SetLocalRotationsIdentity(scene, verlet);
      ResetRotationsContents(old(scene.nodes), Heads(verlet));
      assert SameShape(old(scene.nodes), scene.nodes);
      SameShapeKeepsTree(Library, old(scene.nodes), scene.nodes);
    }

    /// The collider loop of `update(deltaTime:)`: the list emptied, then
    /// refilled from every collider of every group.
    method CollectColliders(p: Platform)
      requires GroupsOk(scene.nodes, colliderGroups)
      modifies this`colliderList
      ensures colliderList == ColliderList(p, scene.nodes, colliderGroups)
    {
      hide ColliderList, GroupColliders;
      ColliderListEmpty(p, scene.nodes, colliderGroups);
      colliderList := [];
      if colliderGroups != [] {
        var j := 0;
        while j < |colliderGroups|
          invariant 0 <= j <= |colliderGroups|
          invariant GroupsOk(scene.nodes, colliderGroups[..j])
          invariant colliderList == ColliderList(p, scene.nodes, colliderGroups[..j])
        {
          var group := colliderGroups[j];
          ColliderListSnoc(p, scene.nodes, colliderGroups, j);
          assert HasParent(scene.nodes, group.node);
          var k := 0;
          while k < |group.colliders|
            invariant 0 <= k <= |group.colliders|
            invariant colliderList == ColliderList(p, scene.nodes, colliderGroups[..j])
                                      + GroupColliders(p, scene.nodes, group.node, group.colliders[..k])
          {
            var collider := group.colliders[k];
            GroupCollidersSnoc(p, scene.nodes, group.node, group.colliders, k);
            colliderList := colliderList + [SphereCollider(TransformPoint(p, scene.nodes, group.node, collider.offset), collider.radius)];
            k := k + 1;
          }
          assert group.colliders[..k] == group.colliders;
          j := j + 1;
        }
      }
      assert colliderGroups[..|colliderGroups|] == colliderGroups;
    }

    /// `update(deltaTime:)`: a component with neither logics nor root bones
    /// does nothing; one without logics sets up first. Then the collider
    /// list is rebuilt and every logic stepped with stiffness
    /// `stiffnessForce * seconds` and external force
    /// `gravityDir * (gravityPower * seconds)`.
    method Update(p: Platform, seconds: real)
      requires Valid()
      modifies this`initialLocalRotationMap, this`verlet, this`colliderList, scene, verlet
      ensures Valid()
      ensures old(verlet) == [] && rootBones == [] ==>
        && scene.nodes == old(scene.nodes)
        && verlet == [] && colliderList == old(colliderList)
        && initialLocalRotationMap == old(initialLocalRotationMap)
      ensures old(verlet) != [] ==> verlet == old(verlet) && initialLocalRotationMap == old(initialLocalRotationMap)
      ensures old(verlet) == [] && rootBones != [] ==>
        && (forall k :: 0 <= k < |verlet| ==> fresh(verlet[k]))
        && initialLocalRotationMap
           == Snapshot(FrameStart(p, Library, old(scene.nodes), old(initialLocalRotationMap), center, rootBones, old(States(verlet))).0,
                       rootBones)
      ensures old(verlet) != [] || rootBones != [] ==>
        var start := FrameStart(p, Library, old(scene.nodes), old(initialLocalRotationMap), center, rootBones, old(States(verlet)));
        && colliderList == ColliderList(p, start.0, colliderGroups)
        && States(verlet)
           == StepAll(p, Library, start.0, center, start.1, PerFrame(stiffnessForce, seconds), dragForce,
                      Scale(gravityDir, PerFrame(gravityPower, seconds)), colliderList, hitRadius).0
        && scene.nodes
           == StepAll(p, Library, start.0, center, start.1, PerFrame(stiffnessForce, seconds), dragForce,
                      Scale(gravityDir, PerFrame(gravityPower, seconds)), colliderList, hitRadius).1
    {
      hide PerFrame, FrameStart, StepAll, Step, ColliderList, Snapshot, SetupStates, InitialStates, Forest, SetupNodes;
      if verlet == [] && rootBones == [] {
        FrameStartCases(p, Library, scene.nodes, initialLocalRotationMap, center, rootBones, States(verlet));
        return;
      }
      Prepare(p);
      Advance(p, seconds);
    }

    /// The start of `update(deltaTime:)`: logics already built are kept;
    /// otherwise `setup()` runs.
    method Prepare(p: Platform)
      requires Valid() && (verlet != [] || rootBones != [])
      modifies this`initialLocalRotationMap, this`verlet, scene
      ensures Valid()
      ensures var start := FrameStart(p, Library, old(scene.nodes), old(initialLocalRotationMap), center, rootBones, old(States(verlet)));
        scene.nodes == start.0 && States(verlet) == start.1
      ensures old(verlet) != [] ==> verlet == old(verlet) && initialLocalRotationMap == old(initialLocalRotationMap)
      ensures old(verlet) == [] ==>
        && (forall k :: 0 <= k < |verlet| ==> fresh(verlet[k]))
        && initialLocalRotationMap == Snapshot(scene.nodes, rootBones)
    {
      hide FrameStart, StepAll, Step, ColliderList, Snapshot, SetupStates, InitialStates, Forest, SetupNodes;
      FrameStartCases(p, Library, scene.nodes, initialLocalRotationMap, center, rootBones, States(verlet));
      if verlet == [] {
        Setup(p, false);
      }
    }

    /// The rest of `update(deltaTime:)`: the collider list rebuilt from the
    /// arena, then every logic stepped with the frame's stiffness and
    /// external force.
    method Advance(p: Platform, seconds: real)
      requires Valid()
      modifies this`colliderList, scene, verlet
      ensures Valid()
      ensures colliderList == ColliderList(p, old(scene.nodes), colliderGroups)
      ensures States(verlet)
           == StepAll(p, Library, old(scene.nodes), center, old(States(verlet)), PerFrame(stiffnessForce, seconds), dragForce,
                      Scale(gravityDir, PerFrame(gravityPower, seconds)), colliderList, hitRadius).0
      ensures scene.nodes
           == StepAll(p, Library, old(scene.nodes), center, old(States(verlet)), PerFrame(stiffnessForce, seconds), dragForce,
                      Scale(gravityDir, PerFrame(gravityPower, seconds)), colliderList, hitRadius).1
    {
      hide PerFrame, StepAll, Step, ColliderList;
      CollectColliders(p);
      var stiffness := PerFrame(stiffnessForce, seconds);
      var external := Scale(gravityDir, PerFrame(gravityPower, seconds));
      ghost var nodes0 := scene.nodes;
      LogicsStepOk(Library, scene.nodes, verlet);
      UpdateAll(p, Library, scene, center, verlet, stiffness, dragForce, external, colliderList, hitRadius);
      ReadyKeptByShape(Library, nodes0, scene.nodes, center, rootBones, initialLocalRotationMap, initialLocalRotationMap, colliderGroups);
    }
  }
}
