/// One spring bone (`SpringBoneLogic` in the library, `VRMSpringBoneLogic`
/// in the example application): its initial state, the per-frame verlet
/// step with length re-projection and sphere push-out, and the rotation it
/// writes back to its node. The two copies differ only in how a node maps
/// points between local and world space, which `Variant` selects.
module SpringBoneLogic {
  import opened Wrappers
  import opened Numerics
  import opened SceneGraph
  import opened SceneKitExt
  import opened NodeExt

  /// The library reads node matrices through its SCNNode extension; the
  /// example application's `Transform` wrapper reads SceneKit's own
  /// `worldTransform` (to world) and `transform` (to local).
  datatype Variant = Library | Example

  /// What mapping a point through node `i` needs: a parent for the library
  /// (`parent!` in `localToWorldMatrix`), only the node for the example.
  predicate CanTransform(v: Variant, nodes: seq<Node>, i: nat) {
    match v
    case Library => HasParent(nodes, i)
    case Example => i < |nodes|
  }

  /// `transformPoint` of the variant.
  function ToWorld(p: Platform, v: Variant, nodes: seq<Node>, i: nat, point: Vector3): Vector3
    requires CanTransform(v, nodes, i)
  {
    match v
    case Library => TransformPoint(p, nodes, i, point)
    case Example => MulPoint(nodes[i].worldTransform, point)
  }

  /// `inverseTransformPoint` (and `worldToLocalMatrix.multiplyPoint`) of the
  /// variant; the example's uses the node's local `transform`.
  function ToLocal(p: Platform, v: Variant, nodes: seq<Node>, i: nat, point: Vector3): Vector3
    requires CanTransform(v, nodes, i)
  {
    match v
    case Library => InverseTransformPoint(p, nodes, i, point)
    case Example => MulPoint(nodes[i].transform, point)
  }

  predicate CenterOk(v: Variant, nodes: seq<Node>, center: Option<nat>) {
    center.Some? ==> CanTransform(v, nodes, center.value)
  }

  /// `center?.transformPoint(x) ?? x`
  function FromCenter(p: Platform, v: Variant, nodes: seq<Node>, center: Option<nat>, x: Vector3): Vector3
    requires CenterOk(v, nodes, center)
  {
    if center.Some? then ToWorld(p, v, nodes, center.value, x) else x
  }

  /// `center?.inverseTransformPoint(x) ?? x`
  function IntoCenter(p: Platform, v: Variant, nodes: seq<Node>, center: Option<nat>, x: Vector3): Vector3
    requires CenterOk(v, nodes, center)
  {
    if center.Some? then ToLocal(p, v, nodes, center.value, x) else x
  }

  /// A world-space sphere the tail is pushed out of.
  datatype SphereCollider = SphereCollider(position: Vector3, radius: real)

  /// The fields of one bone logic. `radius` is absent until first set in
  /// the example application, where it is an implicitly unwrapped optional.
  datatype LogicState = LogicState(
    node: nat,
    length: real,
    localRotation: Quaternion,
    boneAxis: Vector3,
    currentTail: Vector3,
    prevTail: Vector3,
    radius: Option<real>)

  function InitialRadius(v: Variant): Option<real> {
    match v
    case Library => Some(0.5)
    case Example => None
  }

  /// `init(center:transform:localChildPosition:)`
  function InitialState(p: Platform, v: Variant, nodes: seq<Node>, center: Option<nat>,
                        node: nat, localChildPosition: Vector3): LogicState
    requires CanTransform(v, nodes, node) && CenterOk(v, nodes, center)
  {
    var worldChildPosition := ToWorld(p, v, nodes, node, localChildPosition);
    var tail := IntoCenter(p, v, nodes, center, worldChildPosition);
    LogicState(node, Length(p, localChildPosition), nodes[node].orientation,
               Normalized(p, localChildPosition), tail, tail, InitialRadius(v))
  }

  /// A leaf bone's synthetic child, in world space: 0.07 beyond the node,
  /// continuing the direction from its parent.
  function LeafChildWorld(p: Platform, nodes: seq<Node>, i: nat): Vector3
    requires HasParent(nodes, i)
  {
    var parent := nodes[i].parent.value;
    var delta := Sub(nodes[i].worldPosition, nodes[parent].worldPosition);
    Add(nodes[i].worldPosition, Scale(Normalized(p, delta), 0.07))
  }

  /// The bone needs, to be set up: a point transform, a parent when it is
  /// a leaf, and its first child in the arena.
  predicate SetupOk(v: Variant, nodes: seq<Node>, i: nat) {
    && CanTransform(v, nodes, i)
    && i < |nodes|
    && (nodes[i].children == [] ==> HasParent(nodes, i))
    && (nodes[i].children != [] ==> nodes[i].children[0] < |nodes|)
  }

  /// `localChildPosition` handed to a new logic by `setupRecursive`: the
  /// leaf's synthetic child mapped into the node's local space, or the first
  /// child's position multiplied componentwise by that child's scale.
  function ChildPosition(p: Platform, v: Variant, nodes: seq<Node>, i: nat): Vector3
    requires SetupOk(v, nodes, i)
  {
    if nodes[i].children == [] then
      ToLocal(p, v, nodes, i, LeafChildWorld(p, nodes, i))
    else
      var firstChild := nodes[nodes[i].children[0]];
      var localPosition := firstChild.position;
      var scale := firstChild.scale;
      Vector3(localPosition.x * scale.x, localPosition.y * scale.y, localPosition.z * scale.z)
  }

  /// The logics `setupRecursive` creates for the nodes of `order`.
  function InitialStates(p: Platform, v: Variant, nodes: seq<Node>, center: Option<nat>, order: seq<nat>): (r: seq<LogicState>)
    requires CenterOk(v, nodes, center)
    requires forall k :: 0 <= k < |order| ==> SetupOk(v, nodes, order[k])
    ensures |r| == |order|
    ensures forall k :: 0 <= k < |order| ==>
      r[k] == InitialState(p, v, nodes, center, order[k], ChildPosition(p, v, nodes, order[k]))
  {
    seq(|order|, k requires 0 <= k < |order| =>
      InitialState(p, v, nodes, center, order[k], ChildPosition(p, v, nodes, order[k])))
  }

  // ---------------- one frame of one bone ----------------

  /// The node's parent index is usable, as the per-frame step needs.
  predicate StepOk(nodes: seq<Node>, i: nat) {
    i < |nodes| && (nodes[i].parent.Some? ==> nodes[i].parent.value < |nodes|)
  }

  /// `parentRotation`: the parent's world orientation, or the identity.
  function ParentRotation(nodes: seq<Node>, i: nat): Quaternion
    requires StepOk(nodes, i)
  {
    if nodes[i].parent.Some? then nodes[nodes[i].parent.value].worldOrientation else QuatIdentity
  }

  /// The verlet target: keep the last frame's motion damped by `drag`, pull
  /// towards the rest direction, and add the external force.
  function VerletTarget(p: Platform, nodes: seq<Node>, st: LogicState, stiffness: real, drag: real,
                        external: Vector3, cur: Vector3, prev: Vector3): Vector3
    requires StepOk(nodes, st.node)
  {
    var rest := p.quatRotate(p.quatMul(ParentRotation(nodes, st.node), st.localRotation), st.boneAxis);
    Add(Add(Add(cur, Scale(Sub(cur, prev), 1.0 - drag)), Scale(rest, stiffness)), external)
  }

  /// Force `target` onto the sphere of radius `length` around `head`.
  function Reproject(p: Platform, head: Vector3, target: Vector3, length: real): Vector3 {
    Add(head, Scale(Normalized(p, Sub(target, head)), length))
  }

  /// The tail is inside or on the inflated collider sphere.
  predicate Hits(radius: real, c: SphereCollider, pos: Vector3) {
    var r := radius + c.radius;
    Dot(Sub(pos, c.position), Sub(pos, c.position)) <= r * r
  }

  /// One collider of `collision`: on a hit, push the tail radially out of
  /// the collider and re-project it to the bone length.
  function PushOut(p: Platform, head: Vector3, length: real, radius: real, c: SphereCollider, pos: Vector3): Vector3 {
    if Hits(radius, c, pos) then
      var normal := Normalized(p, Sub(pos, c.position));
      var posFromCollider := Add(c.position, Scale(normal, radius + c.radius));
      Reproject(p, head, posFromCollider, length)
    else pos
  }

  /// `collision`: the colliders applied one after the other, in order.
  function Collide(p: Platform, head: Vector3, length: real, radius: Option<real>,
                   cs: seq<SphereCollider>, pos: Vector3): Vector3
    requires cs == [] || radius.Some?
    decreases |cs|
  {
    if cs == [] then pos
    else Collide(p, head, length, radius, cs[1..], PushOut(p, head, length, radius.value, cs[0], pos))
  }

  /// The tail after the verlet step, the length constraint and collisions.
  function NextTail(p: Platform, nodes: seq<Node>, st: LogicState, stiffness: real, drag: real,
                    external: Vector3, colliders: seq<SphereCollider>, cur: Vector3, prev: Vector3): Vector3
    requires StepOk(nodes, st.node)
    requires colliders == [] || st.radius.Some?
  {
    var head := nodes[st.node].worldPosition;
    var target := VerletTarget(p, nodes, st, stiffness, drag, external, cur, prev);
    Collide(p, head, st.length, st.radius, colliders, Reproject(p, head, target, st.length))
  }

  /// `applyRotation`: the rotation taking the rest direction to the new
  /// tail direction, composed with the parent and local rotations.
  function ApplyRotation(p: Platform, nodes: seq<Node>, st: LogicState, nextTail: Vector3): Quaternion
    requires StepOk(nodes, st.node)
  {
    var rotation := p.quatMul(ParentRotation(nodes, st.node), st.localRotation);
    p.quatMul(FromTo(p, p.quatRotate(rotation, st.boneAxis), Sub(nextTail, nodes[st.node].worldPosition), IdentityUpVector),
              rotation)
  }

  /// Poses change, the tree does not.
  predicate SameShape(nodes: seq<Node>, nodes': seq<Node>) {
    && |nodes'| == |nodes|
    && forall j :: 0 <= j < |nodes| ==> nodes'[j].parent == nodes[j].parent && nodes'[j].children == nodes[j].children
  }

  /// `update(center:stiffnessForce:dragForce:external:colliders:)`: the new
  /// state (old current tail becomes the previous one, the next tail the
  /// current one, both in center space) and the arena with the node's world
  /// orientation rewritten.
  function Step(p: Platform, v: Variant, nodes: seq<Node>, center: Option<nat>, st: LogicState,
                stiffness: real, drag: real, external: Vector3, colliders: seq<SphereCollider>): (r: (LogicState, seq<Node>))
    requires StepOk(nodes, st.node) && CenterOk(v, nodes, center)
    requires colliders == [] || st.radius.Some?
    ensures SameShape(nodes, r.1)
    ensures r.0 == st.(prevTail := r.0.prevTail, currentTail := r.0.currentTail)
  {
    var cur := FromCenter(p, v, nodes, center, st.currentTail);
    var prev := FromCenter(p, v, nodes, center, st.prevTail);
    var next := NextTail(p, nodes, st, stiffness, drag, external, colliders, cur, prev);
    var st' := st.(prevTail := IntoCenter(p, v, nodes, center, cur),
                   currentTail := IntoCenter(p, v, nodes, center, next));
    (st', nodes[st.node := nodes[st.node].(worldOrientation := ApplyRotation(p, nodes, st, next))])
  }

  predicate AllStepOk(nodes: seq<Node>, states: seq<LogicState>) {
    forall k :: 0 <= k < |states| ==> StepOk(nodes, states[k].node)
  }

  lemma SameShapeKeeps(v: Variant, nodes: seq<Node>, nodes': seq<Node>, center: Option<nat>, states: seq<LogicState>)
    requires SameShape(nodes, nodes')
    ensures AllStepOk(nodes, states) ==> AllStepOk(nodes', states)
    ensures CenterOk(v, nodes, center) ==> CenterOk(v, nodes', center)
  {
  }

  /// The checks `setup` and the per-frame step depend on only the tree, so
  /// they carry over to an arena of the same shape.
  lemma SameShapeKeepsTree(v: Variant, nodes: seq<Node>, nodes': seq<Node>)
    requires SameShape(nodes, nodes')
    ensures WellFormed(nodes) ==> WellFormed(nodes')
    ensures forall i :: SetupOk(v, nodes, i) ==> SetupOk(v, nodes', i)
    ensures forall i :: CanTransform(v, nodes, i) ==> CanTransform(v, nodes', i)
  {
  }

  /// In a well-formed arena every node can be stepped: its parent, if any,
  /// comes before it.
  lemma WellFormedStepOk(nodes: seq<Node>, i: nat)
    requires WellFormed(nodes) && i < |nodes|
    ensures StepOk(nodes, i)
  {
  }

  /// The update loop over `verlet`: each logic's radius is set to
  /// `hitRadius`, then it is stepped against the arena as the logics before
  /// it left it. Defined on prefixes, as the loop runs.
  function StepAll(p: Platform, v: Variant, nodes: seq<Node>, center: Option<nat>, states: seq<LogicState>,
                   stiffness: real, drag: real, external: Vector3, colliders: seq<SphereCollider>,
                   hitRadius: real): (r: (seq<LogicState>, seq<Node>))
    requires AllStepOk(nodes, states) && CenterOk(v, nodes, center)
    ensures |r.0| == |states| && SameShape(nodes, r.1)
    decreases |states|
  {
    if states == [] then ([], nodes)
    else
      var n := |states| - 1;
      var before := StepAll(p, v, nodes, center, states[..n], stiffness, drag, external, colliders, hitRadius);
      SameShapeKeeps(v, nodes, before.1, center, states);
      var last := Step(p, v, before.1, center, states[n].(radius := Some(hitRadius)),
                       stiffness, drag, external, colliders);
      (before.0 + [last.0], last.1)
  }

  // ---------------- properties ----------------

  /// `pos` lies at distance `length` from `head`.
  predicate OnSphere(pos: Vector3, head: Vector3, length: real) {
    Dot(Sub(pos, head), Sub(pos, head)) == length * length
  }

  /// Re-projection puts the tail at exactly the bone length from the head;
  /// only a target at the head itself (a division by zero in the source)
  /// stays there.
  lemma ReprojectOnSphere(p: Platform, head: Vector3, target: Vector3, length: real)
    requires p.Valid()
    ensures target != head ==> OnSphere(Reproject(p, head, target, length), head, length)
    ensures target == head ==> Reproject(p, head, target, length) == head
  {
    var d := Sub(target, head);
    if target != head {
      assert d != Zero;
      NormalizedUnit(p, d);
      ScaleSquared(Normalized(p, d), length);
      assert Sub(Reproject(p, head, target, length), head) == Scale(Normalized(p, d), length);
    } else {
      assert d == Zero;
    }
  }

  /// The outcome of `collision`: unchanged when no collider is hit, and
  /// otherwise on the bone-length sphere (or at the head in the degenerate
  /// case). A tail that starts on the sphere therefore stays on it.
  lemma {:induction false} CollideOnSphere(p: Platform, head: Vector3, length: real, radius: Option<real>,
                                           cs: seq<SphereCollider>, pos: Vector3)
    requires p.Valid()
    requires cs == [] || radius.Some?
    ensures var r := Collide(p, head, length, radius, cs, pos);
      r == pos || OnSphere(r, head, length) || r == head
    ensures OnSphere(pos, head, length) ==>
      var r := Collide(p, head, length, radius, cs, pos);
      OnSphere(r, head, length) || r == head
    decreases |cs|
  {
    if cs != [] {
      var c := cs[0];
      var q := PushOut(p, head, length, radius.value, c, pos);
      if Hits(radius.value, c, pos) {
        var normal := Normalized(p, Sub(pos, c.position));
        var posFromCollider := Add(c.position, Scale(normal, radius.value + c.radius));
        ReprojectOnSphere(p, head, posFromCollider, length);
        assert OnSphere(q, head, length) || q == head;
      }
      CollideOnSphere(p, head, length, radius, cs[1..], q);
      if q == head && !OnSphere(q, head, length) {
        CollideFromHead(p, head, length, radius, cs[1..]);
      }
    }
  }

  /// Starting from the head, `collision` can only move the tail onto the
  /// sphere or leave it at the head.
  lemma {:induction false} CollideFromHead(p: Platform, head: Vector3, length: real, radius: Option<real>,
                                           cs: seq<SphereCollider>)
    requires p.Valid()
    requires cs == [] || radius.Some?
    ensures var r := Collide(p, head, length, radius, cs, head);
      OnSphere(r, head, length) || r == head
    decreases |cs|
  {
    if cs != [] {
      var q := PushOut(p, head, length, radius.value, cs[0], head);
      CollideOnSphere(p, head, length, radius, cs[1..], q);
      if Hits(radius.value, cs[0], head) {
        var normal := Normalized(p, Sub(head, cs[0].position));
        var posFromCollider := Add(cs[0].position, Scale(normal, radius.value + cs[0].radius));
        ReprojectOnSphere(p, head, posFromCollider, length);
      }
      if q == head {
        CollideFromHead(p, head, length, radius, cs[1..]);
      }
    }
  }

  /// When no collider is hit, `collision` returns its input unchanged.
  lemma {:induction false} CollideNoHit(p: Platform, head: Vector3, length: real, radius: Option<real>,
                                        cs: seq<SphereCollider>, pos: Vector3)
    requires cs == [] || radius.Some?
    requires forall k :: 0 <= k < |cs| ==> !Hits(radius.value, cs[k], pos)
    ensures Collide(p, head, length, radius, cs, pos) == pos
    decreases |cs|
  {
    if cs != [] {
      assert !Hits(radius.value, cs[0], pos);
      CollideNoHit(p, head, length, radius, cs[1..], pos);
    }
  }

  /// A vector of the bone's length along its axis is the child offset
  /// it was built from.
  lemma AxisTimesLength(p: Platform, v: Vector3)
    requires p.Valid() && v != Zero
    ensures Scale(Normalized(p, v), Length(p, v)) == v
  {
    DotSelfPositive(v);
    LengthSquared(p, v);
    var l := Length(p, v);
    assert l != 0.0;
    var k := Recip(l);
    assert k * l == 1.0;
    assert Scale(Scale(v, k), l) == Scale(v, k * l);
  }

  /// A new logic starts at rest: the previous tail is the current one, the
  /// length is the child offset's, the axis is of length 1 and, with no
  /// center, the tail is the child position mapped to world space; the
  /// node's tail point (`boneAxis * length` mapped to world) is that same
  /// point.
  lemma InitialStateProperties(p: Platform, v: Variant, nodes: seq<Node>, center: Option<nat>,
                               node: nat, lcp: Vector3)
    requires p.Valid()
    requires CanTransform(v, nodes, node) && CenterOk(v, nodes, center)
    requires lcp != Zero
    ensures var s := InitialState(p, v, nodes, center, node, lcp);
      && s.prevTail == s.currentTail
      && s.node == node && s.localRotation == nodes[node].orientation
      && s.length > 0.0 && s.length * s.length == Dot(lcp, lcp)
      && Dot(s.boneAxis, s.boneAxis) == 1.0
      && ToWorld(p, v, nodes, node, Scale(s.boneAxis, s.length)) == ToWorld(p, v, nodes, node, lcp)
      && (center.None? ==> s.currentTail == ToWorld(p, v, nodes, node, lcp))
  {
    LengthSquared(p, lcp);
    DotSelfPositive(lcp);
    NormalizedUnit(p, lcp);
    AxisTimesLength(p, lcp);
  }

  /// A leaf's synthetic child lies 0.07 from the node, continuing the
  /// parent-to-node direction.
  lemma LeafChildProperties(p: Platform, nodes: seq<Node>, i: nat)
    requires p.Valid() && HasParent(nodes, i)
    requires nodes[i].worldPosition != nodes[nodes[i].parent.value].worldPosition
    ensures var d := Sub(LeafChildWorld(p, nodes, i), nodes[i].worldPosition);
      var delta := Sub(nodes[i].worldPosition, nodes[nodes[i].parent.value].worldPosition);
      Dot(d, d) == 0.07 * 0.07 && Cross(d, delta) == Zero && Dot(d, delta) > 0.0
  {
    var delta := Sub(nodes[i].worldPosition, nodes[nodes[i].parent.value].worldPosition);
    assert delta != Zero;
    NormalizedUnit(p, delta);
    DotSelfPositive(delta);
    LengthSquared(p, delta);
    var n := Normalized(p, delta);
    var d := Sub(LeafChildWorld(p, nodes, i), nodes[i].worldPosition);
    assert d == Scale(n, 0.07);
    ScaleSquared(n, 0.07);
    var k := Recip(Length(p, delta));
    assert k > 0.0;
    assert n == Scale(delta, k);
    assert d == Scale(delta, k * 0.07);
    assert Dot(d, delta) == (k * 0.07) * Dot(delta, delta);
  }

  /// A bone that has not moved since the last frame, with no stiffness and
  /// no external force (a frame of zero length), stays where it is unless a
  /// collider pushes it.
  lemma RestIsFixedPoint(p: Platform, nodes: seq<Node>, st: LogicState, drag: real,
                         colliders: seq<SphereCollider>, tail: Vector3)
    requires p.Valid() && StepOk(nodes, st.node)
    requires colliders == [] || st.radius.Some?
    requires st.length > 0.0 && OnSphere(tail, nodes[st.node].worldPosition, st.length)
    requires forall k :: 0 <= k < |colliders| ==> !Hits(st.radius.value, colliders[k], tail)
    ensures NextTail(p, nodes, st, 0.0, drag, Zero, colliders, tail, tail) == tail
  {
    var head := nodes[st.node].worldPosition;
    var target := VerletTarget(p, nodes, st, 0.0, drag, Zero, tail, tail);
    assert target == tail;
    var d := Sub(tail, head);
    LengthSquared(p, d);
    SqrtUnique(Length(p, d), st.length);
    var k := Recip(st.length);
    assert k * st.length == 1.0;
    assert Scale(Normalized(p, d), st.length) == Scale(d, k * st.length);
    assert Reproject(p, head, target, st.length) == tail;
    CollideNoHit(p, head, st.length, st.radius, colliders, tail);
  }

  /// A tail already along the bone's rotated rest axis leaves the bone at
  /// its parent-composed rest rotation.
  lemma ApplyRotationAlongAxis(p: Platform, nodes: seq<Node>, st: LogicState, nextTail: Vector3, k: real)
    requires p.Valid() && StepOk(nodes, st.node)
    requires var rotation := p.quatMul(ParentRotation(nodes, st.node), st.localRotation);
      var axis := p.quatRotate(rotation, st.boneAxis);
      axis != Zero && k > 0.0 && Sub(nextTail, nodes[st.node].worldPosition) == Scale(axis, k)
    ensures ApplyRotation(p, nodes, st, nextTail) == p.quatMul(ParentRotation(nodes, st.node), st.localRotation)
  {
    var rotation := p.quatMul(ParentRotation(nodes, st.node), st.localRotation);
    FromToSameDirection(p, p.quatRotate(rotation, st.boneAxis), k, IdentityUpVector);
  }

  /// Without a center, one step hands the old current tail to `prevTail`
  /// and leaves the new current tail on the bone-length sphere (or at the
  /// head), writing only the node's world orientation.
  lemma StepProperties(p: Platform, v: Variant, nodes: seq<Node>, st: LogicState, stiffness: real,
                       drag: real, external: Vector3, colliders: seq<SphereCollider>)
    requires p.Valid() && StepOk(nodes, st.node)
    requires colliders == [] || st.radius.Some?
    ensures var r := Step(p, v, nodes, None, st, stiffness, drag, external, colliders);
      && r.0.prevTail == st.currentTail
      && (OnSphere(r.0.currentTail, nodes[st.node].worldPosition, st.length) || r.0.currentTail == nodes[st.node].worldPosition)
      && r.0 == st.(prevTail := r.0.prevTail, currentTail := r.0.currentTail)
      && (forall j :: 0 <= j < |nodes| && j != st.node ==> r.1[j] == nodes[j])
      && r.1[st.node] == nodes[st.node].(worldOrientation := r.1[st.node].worldOrientation)
  {
    var head := nodes[st.node].worldPosition;
    var target := VerletTarget(p, nodes, st, stiffness, drag, external, st.currentTail, st.prevTail);
    ReprojectOnSphere(p, head, target, st.length);
    CollideOnSphere(p, head, st.length, st.radius, colliders, Reproject(p, head, target, st.length));
    if Reproject(p, head, target, st.length) == head && !OnSphere(head, head, st.length) {
      CollideFromHead(p, head, st.length, st.radius, colliders);
    }
  }

  /// With or without a center, one step stores the current tail, taken out
  /// of and put back into the center's space, as `prevTail`, and the new
  /// tail, which in world space lies on the bone-length sphere (or at the
  /// head), as `currentTail` in the center's space.
  lemma StepWithCenter(p: Platform, v: Variant, nodes: seq<Node>, center: Option<nat>, st: LogicState,
                       stiffness: real, drag: real, external: Vector3, colliders: seq<SphereCollider>)
    requires p.Valid() && StepOk(nodes, st.node) && CenterOk(v, nodes, center)
    requires colliders == [] || st.radius.Some?
    ensures var cur := FromCenter(p, v, nodes, center, st.currentTail);
      var prev := FromCenter(p, v, nodes, center, st.prevTail);
      var next := NextTail(p, nodes, st, stiffness, drag, external, colliders, cur, prev);
      var head := nodes[st.node].worldPosition;
      var r := Step(p, v, nodes, center, st, stiffness, drag, external, colliders);
      && r.0.prevTail == IntoCenter(p, v, nodes, center, cur)
      && r.0.currentTail == IntoCenter(p, v, nodes, center, next)
      && (OnSphere(next, head, st.length) || next == head)
      && (forall j :: 0 <= j < |nodes| && j != st.node ==> r.1[j] == nodes[j])
      && r.1[st.node] == nodes[st.node].(worldOrientation := r.1[st.node].worldOrientation)
  {
    var cur := FromCenter(p, v, nodes, center, st.currentTail);
    var prev := FromCenter(p, v, nodes, center, st.prevTail);
    var head := nodes[st.node].worldPosition;
    var target := VerletTarget(p, nodes, st, stiffness, drag, external, cur, prev);
    ReprojectOnSphere(p, head, target, st.length);
    CollideOnSphere(p, head, st.length, st.radius, colliders, Reproject(p, head, target, st.length));
    if Reproject(p, head, target, st.length) == head && !OnSphere(head, head, st.length) {
      CollideFromHead(p, head, st.length, st.radius, colliders);
    }
  }

  /// Every logic of the update loop ends with radius `hitRadius`, and only
  /// its tails change.
  lemma {:induction false} StepAllKeepsBones(p: Platform, v: Variant, nodes: seq<Node>, center: Option<nat>,
                                             states: seq<LogicState>, stiffness: real, drag: real,
                                             external: Vector3, colliders: seq<SphereCollider>, hitRadius: real)
    requires AllStepOk(nodes, states) && CenterOk(v, nodes, center)
    ensures forall k :: 0 <= k < |states| ==>
      StepAll(p, v, nodes, center, states, stiffness, drag, external, colliders, hitRadius).0[k]
        == states[k].(radius := Some(hitRadius),
                      prevTail := StepAll(p, v, nodes, center, states, stiffness, drag, external, colliders, hitRadius).0[k].prevTail,
                      currentTail := StepAll(p, v, nodes, center, states, stiffness, drag, external, colliders, hitRadius).0[k].currentTail)
    decreases |states|
  {
    hide Step;
    if states != [] {
      var n := |states| - 1;
      StepAllKeepsBones(p, v, nodes, center, states[..n], stiffness, drag, external, colliders, hitRadius);
      var all := StepAll(p, v, nodes, center, states, stiffness, drag, external, colliders, hitRadius);
      var before := StepAll(p, v, nodes, center, states[..n], stiffness, drag, external, colliders, hitRadius);
      forall k | 0 <= k < |states|
        ensures all.0[k] == states[k].(radius := Some(hitRadius), prevTail := all.0[k].prevTail,
                                       currentTail := all.0[k].currentTail)
      {
        if k < n {
          assert all.0[k] == before.0[k];
          assert states[k] == states[..n][k];
        }
      }
    }
  }

  /// A spring bone (`SpringBoneLogic` / `VRMSpringBoneLogic`): the node it
  /// moves, its rest data, and the tails it updates each frame.
  class BoneLogic {
    const variant: Variant
    const node: nat
    const length: real
    const localRotation: Quaternion
    const boneAxis: Vector3
    var currentTail: Vector3
    var prevTail: Vector3
    var radius: Option<real>

    function State(): LogicState
      reads this
    {
      LogicState(node, length, localRotation, boneAxis, currentTail, prevTail, radius)
    }

    constructor (p: Platform, variant: Variant, nodes: seq<Node>, center: Option<nat>,
                 transform: nat, localChildPosition: Vector3)
      requires CanTransform(variant, nodes, transform) && CenterOk(variant, nodes, center)
      ensures this.variant == variant
      ensures State() == InitialState(p, variant, nodes, center, transform, localChildPosition)
    {
      this.variant := variant;
      node := transform;
      var worldChildPosition := ToWorld(p, variant, nodes, transform, localChildPosition);
      var tail := IntoCenter(p, variant, nodes, center, worldChildPosition);
      currentTail := tail;
      prevTail := tail;
      localRotation := nodes[transform].orientation;
      boneAxis := Normalized(p, localChildPosition);
      length := Length(p, localChildPosition);
      radius := InitialRadius(variant);
    }

    /// `collision`: the colliders tried in order, each hit pushing the tail
    /// out and back onto the bone-length sphere.
    method Collision(p: Platform, nodes: seq<Node>, colliders: seq<SphereCollider>, nextTail: Vector3)
      returns (r: Vector3)
      requires node < |nodes|
      requires colliders == [] || radius.Some?
      ensures r == Collide(p, nodes[node].worldPosition, length, radius, colliders, nextTail)
    {
      var head := nodes[node].worldPosition;
      r := nextTail;
      var i := 0;
      while i < |colliders|
        invariant 0 <= i <= |colliders|
        invariant Collide(p, head, length, radius, colliders, nextTail)
               == Collide(p, head, length, radius, colliders[i..], r)
      {
        var collider := colliders[i];
        var rr := radius.value + collider.radius;
        if Dot(Sub(r, collider.position), Sub(r, collider.position)) <= rr * rr {
          var normal := Normalized(p, Sub(r, collider.position));
          var posFromCollider := Add(collider.position, Scale(normal, radius.value + collider.radius));
          r := Add(head, Scale(Normalized(p, Sub(posFromCollider, head)), length));
        }
        assert colliders[i..][1..] == colliders[i + 1..];
        i := i + 1;
      }
    }

    /// `update(center:stiffnessForce:dragForce:external:colliders:)`
    method Update(p: Platform, scene: Scene, center: Option<nat>, stiffnessForce: real, dragForce: real,
                  external: Vector3, colliders: seq<SphereCollider>)
      requires StepOk(scene.nodes, node) && CenterOk(variant, scene.nodes, center)
      requires colliders == [] || radius.Some?
      modifies this, scene
      ensures State() == Step(p, variant, old(scene.nodes), center, old(State()), stiffnessForce, dragForce, external, colliders).0
      ensures scene.nodes == Step(p, variant, old(scene.nodes), center, old(State()), stiffnessForce, dragForce, external, colliders).1
    {
      var nodes := scene.nodes;
      var st := State();
      var currentTail := FromCenter(p, variant, nodes, center, this.currentTail);
      var prevTail := FromCenter(p, variant, nodes, center, this.prevTail);
      var nextTail := VerletTarget(p, nodes, st, stiffnessForce, dragForce, external, currentTail, prevTail);
      var head := nodes[node].worldPosition;
      nextTail := Add(head, Scale(Normalized(p, Sub(nextTail, head)), length));
      nextTail := Collision(p, nodes, colliders, nextTail);
      this.prevTail := IntoCenter(p, variant, nodes, center, currentTail);
      this.currentTail := IntoCenter(p, variant, nodes, center, nextTail);
      scene.nodes := nodes[node := nodes[node].(worldOrientation := ApplyRotation(p, nodes, st, nextTail))];
    }
  }
}
