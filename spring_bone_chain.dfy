/// The parts of `VRMSpringBone` that the library and the example
/// application share line for line: restoring and snapshotting the rest
/// rotations, building one logic per node of each root's subtree
/// (`setupRecursive`), and stepping every logic once per frame.
module SpringBoneChain {
  import opened Wrappers
  import opened Numerics
  import opened SceneGraph
  import opened NodeExt
  import opened SpringBoneLogic

  /// The abstract states of a list of logics.
  function States(ls: seq<BoneLogic>): (r: seq<LogicState>)
    reads ls
    ensures |r| == |ls| && forall k :: 0 <= k < |ls| ==> r[k] == ls[k].State()
  {
    if ls == [] then [] else [ls[0].State()] + States(ls[1..])
  }

  /// No logic object appears twice.
  predicate Distinct(ls: seq<BoneLogic>) {
    forall i, j :: 0 <= i < j < |ls| ==> ls[i] != ls[j]
  }

  // ---------------- rest rotations ----------------

  /// Every key of the rotation map names a node of the arena.
  predicate KeysInRange(m: map<nat, Quaternion>, n: nat) {
    forall k :: k in m ==> k < n
  }

  /// Writing every saved rotation back to its node's `orientation`.
  function Restore(nodes: seq<Node>, m: map<nat, Quaternion>): (r: seq<Node>)
    ensures |r| == |nodes|
    ensures forall i :: 0 <= i < |nodes| ==>
      r[i] == if i in m then nodes[i].(orientation := m[i]) else nodes[i]
  {
    seq(|nodes|, i requires 0 <= i < |nodes| => if i in m then nodes[i].(orientation := m[i]) else nodes[i])
  }

  /// The arena after the first half of `setup(force)`: saved rotations are
  /// restored unless `force` is set or nothing was saved.
  function SetupNodes(nodes: seq<Node>, m: map<nat, Quaternion>, force: bool): seq<Node> {
    if force || m == map[] then nodes else Restore(nodes, m)
  }

  /// Restoring rotations leaves the tree, and every pose but `orientation`,
  /// as it was.
  lemma RestoreKeepsTree(nodes: seq<Node>, m: map<nat, Quaternion>)
    requires WellFormed(nodes)
    ensures WellFormed(Restore(nodes, m))
    ensures forall i :: 0 <= i < |nodes| ==>
      Restore(nodes, m)[i] == nodes[i].(orientation := Restore(nodes, m)[i].orientation)
  {
    var r := Restore(nodes, m);
    assert forall i :: 0 <= i < |nodes| ==> r[i].parent == nodes[i].parent && r[i].children == nodes[i].children;
  }

  /// The restore loop of `setup`: every saved rotation written back, in
  /// whatever order the dictionary yields them.
  method RestoreRotations(scene: Scene, m: map<nat, Quaternion>)
    requires KeysInRange(m, |scene.nodes|)
    modifies scene
    ensures scene.nodes == Restore(old(scene.nodes), m)
  {
    var keys := m.Keys;
    while keys != {}
      invariant keys <= m.Keys
      invariant |scene.nodes| == |old(scene.nodes)|
      invariant forall i :: 0 <= i < |scene.nodes| ==>
        scene.nodes[i] == if i in m && i !in keys then old(scene.nodes)[i].(orientation := m[i]) else old(scene.nodes)[i]
      decreases keys
    {
      var k :| k in keys;
      scene.nodes := scene.nodes[k := scene.nodes[k].(orientation := m[k])];
      keys := keys - {k};
    }
  }

  /// `initialLocalRotationMap[x] = x.orientation` for each `x` of `xs`.
  function Record(m: map<nat, Quaternion>, nodes: seq<Node>, xs: seq<nat>): map<nat, Quaternion>
    requires forall k :: 0 <= k < |xs| ==> xs[k] < |nodes|
  {
    if xs == [] then m
    else Record(m, nodes, xs[..|xs| - 1])[xs[|xs| - 1] := nodes[xs[|xs| - 1]].orientation]
  }

  /// The rotation map `setup` builds: the orientation of every direct child
  /// (`traverse`) of every root.
  function Snapshot(nodes: seq<Node>, roots: seq<nat>): map<nat, Quaternion>
    requires ChildrenAfter(nodes)
    requires forall k :: 0 <= k < |roots| ==> roots[k] < |nodes|
  {
    if roots == [] then map[]
    else Record(Snapshot(nodes, roots[..|roots| - 1]), nodes, nodes[roots[|roots| - 1]].children)
  }

  /// `x` is a direct child of one of `roots`.
  ghost predicate RootChild(nodes: seq<Node>, roots: seq<nat>, x: nat)
    requires forall k :: 0 <= k < |roots| ==> roots[k] < |nodes|
  {
    exists j :: 0 <= j < |roots| && x in nodes[roots[j]].children
  }

  lemma {:induction false} RecordContents(m: map<nat, Quaternion>, nodes: seq<Node>, xs: seq<nat>)
    requires forall k :: 0 <= k < |xs| ==> xs[k] < |nodes|
    ensures forall x :: x in Record(m, nodes, xs) <==> x in m || x in xs
    ensures forall x :: x in xs ==> Record(m, nodes, xs)[x] == nodes[x].orientation
    ensures forall x :: x in m && x !in xs ==> Record(m, nodes, xs)[x] == m[x]
    decreases |xs|
  {
    if xs != [] {
      var init := xs[..|xs| - 1];
      RecordContents(m, nodes, init);
      assert xs == init + [xs[|xs| - 1]];
    }
  }

  /// The direct children of `roots[..j + 1]` are those of `roots[..j]` and
  /// those of `roots[j]`.
  lemma RootChildSnoc(nodes: seq<Node>, roots: seq<nat>, x: nat)
    requires roots != [] && forall k :: 0 <= k < |roots| ==> roots[k] < |nodes|
    ensures RootChild(nodes, roots, x)
        <==> RootChild(nodes, roots[..|roots| - 1], x) || x in nodes[roots[|roots| - 1]].children
  {
    var init := roots[..|roots| - 1];
    if RootChild(nodes, init, x) {
      var j :| 0 <= j < |init| && x in nodes[init[j]].children;
      assert roots[j] == init[j];
    }
    if RootChild(nodes, roots, x) {
      var j :| 0 <= j < |roots| && x in nodes[roots[j]].children;
      if j < |init| {
        assert init[j] == roots[j];
      }
    }
  }

  /// The snapshot holds exactly the roots' direct children, each with its
  /// current orientation.
  lemma {:induction false} SnapshotContents(nodes: seq<Node>, roots: seq<nat>)
    requires ChildrenAfter(nodes)
    requires forall k :: 0 <= k < |roots| ==> roots[k] < |nodes|
    ensures forall x: nat :: x in Snapshot(nodes, roots) <==> RootChild(nodes, roots, x)
    ensures forall x :: x in Snapshot(nodes, roots) ==> x < |nodes| && Snapshot(nodes, roots)[x] == nodes[x].orientation
    decreases |roots|
  {
    if roots != [] {
      var init := roots[..|roots| - 1];
      var cs := nodes[roots[|roots| - 1]].children;
      SnapshotContents(nodes, init);
      RecordContents(Snapshot(nodes, init), nodes, cs);
      forall x: nat ensures x in Snapshot(nodes, roots) <==> RootChild(nodes, roots, x) {
        RootChildSnoc(nodes, roots, x);
      }
    }
  }

  // ---------------- building the logics ----------------

  /// In a well-formed arena every child can be set up, so a subtree can be
  /// whenever its root can.
  lemma PreorderReady(v: Variant, nodes: seq<Node>, i: nat)
    requires WellFormed(nodes) && i < |nodes| && SetupOk(v, nodes, i)
    ensures forall k :: 0 <= k < |Preorder(nodes, i)| ==> SetupOk(v, nodes, Preorder(nodes, i)[k])
  {
    PreorderParents(nodes, i);
    var r := Preorder(nodes, i);
    forall k | 0 < k < |r| ensures SetupOk(v, nodes, r[k]) {
      assert ParentAmong(nodes, r[k], r[..k]);
    }
  }

  /// The subtrees of `xs + [y]` are those of `xs` followed by that of `y`.
  lemma {:induction false} PreorderListSnoc(nodes: seq<Node>, xs: seq<nat>, y: nat, bound: nat)
    requires ChildrenAfter(nodes)
    requires forall k :: 0 <= k < |xs| ==> bound < xs[k] < |nodes|
    requires bound < y < |nodes|
    ensures PreorderList(nodes, xs + [y], bound) == PreorderList(nodes, xs, bound) + Preorder(nodes, y)
    decreases |xs|
  {
    hide Preorder;
    if xs == [] {
      assert PreorderList(nodes, [y], bound) == Preorder(nodes, y) + PreorderList(nodes, [], bound);
    } else {
      assert (xs + [y])[1..] == xs[1..] + [y];
      PreorderListSnoc(nodes, xs[1..], y, bound);
    }
  }

  /// The subtrees of `roots + [y]` are those of `roots` followed by that of `y`.
  lemma {:induction false} ForestSnoc(nodes: seq<Node>, roots: seq<nat>, y: nat)
    requires ChildrenAfter(nodes)
    requires forall k :: 0 <= k < |roots| ==> roots[k] < |nodes|
    requires y < |nodes|
    ensures Forest(nodes, roots + [y]) == Forest(nodes, roots) + Preorder(nodes, y)
    decreases |roots|
  {
    if roots == [] {
      assert Forest(nodes, [y]) == Preorder(nodes, y) + Forest(nodes, []);
    } else {
      assert (roots + [y])[1..] == roots[1..] + [y];
      ForestSnoc(nodes, roots[1..], y);
    }
  }

  /// `ls` are the logics `setupRecursive` makes for the nodes of `order`.
  ghost predicate Built(p: Platform, v: Variant, nodes: seq<Node>, center: nat, ls: seq<BoneLogic>, order: seq<nat>)
    reads ls
  {
    && CanTransform(v, nodes, center)
    && |ls| == |order|
    && forall k :: 0 <= k < |order| ==>
         && SetupOk(v, nodes, order[k])
         && ls[k].variant == v
         && ls[k].State() == InitialState(p, v, nodes, Some(center), order[k], ChildPosition(p, v, nodes, order[k]))
  }

  lemma BuiltStates(p: Platform, v: Variant, nodes: seq<Node>, center: nat, ls: seq<BoneLogic>, order: seq<nat>)
    requires Built(p, v, nodes, center, ls, order)
    ensures forall k :: 0 <= k < |order| ==> SetupOk(v, nodes, order[k])
    ensures States(ls) == InitialStates(p, v, nodes, Some(center), order)
  {
  }

  /// Logics built for `order1` followed by logics built for `order2` are the
  /// logics built for `order1 + order2`.
  lemma BuiltConcat(p: Platform, v: Variant, nodes: seq<Node>, center: nat, a: seq<BoneLogic>, b: seq<BoneLogic>,
                    order1: seq<nat>, order2: seq<nat>)
    requires Built(p, v, nodes, center, a, order1) && Built(p, v, nodes, center, b, order2)
    ensures Built(p, v, nodes, center, a + b, order1 + order2)
  {
    hide InitialState, ChildPosition;
    var ls := a + b;
    var order := order1 + order2;
    forall k | 0 <= k < |order|
      ensures && SetupOk(v, nodes, order[k])
              && ls[k].variant == v
              && ls[k].State() == InitialState(p, v, nodes, Some(center), order[k], ChildPosition(p, v, nodes, order[k]))
    {
      if k >= |order1| {
        assert order[k] == order2[k - |order1|] && ls[k] == b[k - |a|];
      }
    }
  }

  /// Two lists of logics, each without repeats, that share no object.
  lemma DistinctConcat(a: seq<BoneLogic>, b: seq<BoneLogic>)
    requires Distinct(a) && Distinct(b)
    requires forall i, j :: 0 <= i < |a| && 0 <= j < |b| ==> a[i] != b[j]
    ensures Distinct(a + b)
  {
  }

  /// The children of a node of a well-formed arena come after it and can
  /// each be set up.
  lemma ChildrenReady(v: Variant, nodes: seq<Node>, parent: nat)
    requires WellFormed(nodes) && parent < |nodes|
    ensures ChildrenAfter(nodes)
    ensures forall k :: 0 <= k < |nodes[parent].children| ==>
      parent < nodes[parent].children[k] < |nodes| && SetupOk(v, nodes, nodes[parent].children[k])
  {
  }

  /// `parent` followed by the subtrees of its first `l` children: the nodes
  /// `setupRecursive(center:parent:)` has covered after `l` turns of its loop.
  function Visited(nodes: seq<Node>, parent: nat, l: nat): seq<nat>
    requires ChildrenAfter(nodes) && parent < |nodes| && l <= |nodes[parent].children|
  {
    [parent] + PreorderList(nodes, nodes[parent].children[..l], parent)
  }

  /// Before the loop only `parent` is covered; after it, its whole subtree.
  lemma VisitedEnds(nodes: seq<Node>, parent: nat)
    requires ChildrenAfter(nodes) && parent < |nodes|
    ensures Visited(nodes, parent, 0) == [parent]
    ensures Visited(nodes, parent, |nodes[parent].children|) == Preorder(nodes, parent)
  {
    var cs := nodes[parent].children;
    assert cs[..0] == [] && cs[..|cs|] == cs;
  }

  /// Turn `l` adds the subtree of child `l`.
  lemma VisitedNext(nodes: seq<Node>, parent: nat, l: nat)
    requires ChildrenAfter(nodes) && parent < |nodes| && l < |nodes[parent].children|
    ensures nodes[parent].children[l] < |nodes|
    ensures Visited(nodes, parent, l + 1) == Visited(nodes, parent, l) + Preorder(nodes, nodes[parent].children[l])
  {
    var cs := nodes[parent].children;
    PreorderListSnoc(nodes, cs[..l], cs[l], parent);
    assert cs[..l + 1] == cs[..l] + [cs[l]];
  }

  /// One turn of the loop over the children in `setupRecursive`: the logics
  /// of child `l`'s subtree extend those built so far.
  lemma SetupTurn(p: Platform, v: Variant, nodes: seq<Node>, center: nat, parent: nat, l: nat,
                  added: seq<BoneLogic>, sub: seq<BoneLogic>)
    requires ChildrenAfter(nodes) && parent < |nodes| && l < |nodes[parent].children|
    requires Distinct(added) && Distinct(sub)
    requires forall i, j :: 0 <= i < |added| && 0 <= j < |sub| ==> added[i] != sub[j]
    requires Built(p, v, nodes, center, added, Visited(nodes, parent, l))
    requires nodes[parent].children[l] < |nodes|
    requires Built(p, v, nodes, center, sub, Preorder(nodes, nodes[parent].children[l]))
    ensures Distinct(added + sub)
    ensures Built(p, v, nodes, center, added + sub, Visited(nodes, parent, l + 1))
  {
    hide InitialState, ChildPosition, Visited, Preorder, PreorderList, ChildrenAfter;
    VisitedNext(nodes, parent, l);
    BuiltConcat(p, v, nodes, center, added, sub, Visited(nodes, parent, l), Preorder(nodes, nodes[parent].children[l]));
    DistinctConcat(added, sub);
  }

  /// `setupRecursive(center:parent:)`: one new logic for `parent`, then the
  /// subtrees of its children in order. Returns the logics it appends to
  /// `verlet`, fresh and in preorder.
  method SetupRecursive(p: Platform, v: Variant, nodes: seq<Node>, center: nat, parent: nat)
    returns (added: seq<BoneLogic>)
    requires WellFormed(nodes) && parent < |nodes| && SetupOk(v, nodes, parent)
    requires CanTransform(v, nodes, center)
    ensures Distinct(added)
    ensures forall k :: 0 <= k < |added| ==> fresh(added[k])
    ensures Built(p, v, nodes, center, added, Preorder(nodes, parent))
    decreases |nodes| - parent
  {
    hide InitialState, ChildPosition, Visited, Preorder, PreorderList;
    ChildrenReady(v, nodes, parent);
    VisitedEnds(nodes, parent);
    var logic := new BoneLogic(p, v, nodes, Some(center), parent, ChildPosition(p, v, nodes, parent));
    added := [logic];
    var cs := nodes[parent].children;
    var l := 0;
    assert Built(p, v, nodes, center, added, Visited(nodes, parent, l));
    hide WellFormed, ChildrenAfter, Built;
    while l < |cs|
      invariant 0 <= l <= |cs|
      invariant Distinct(added)
      invariant forall k :: 0 <= k < |added| ==> fresh(added[k])
      invariant Built(p, v, nodes, center, added, Visited(nodes, parent, l))
    {
      var sub := SetupRecursive(p, v, nodes, center, cs[l]);
      SetupTurn(p, v, nodes, center, parent, l, added, sub);
      added := added + sub;
      l := l + 1;
    }
  }

  /// The loop over `rootBones` in `setup`: snapshot each root's direct
  /// children's rotations, then build the logics of its subtree.
  method SetupRoots(p: Platform, v: Variant, nodes: seq<Node>, center: nat, roots: seq<nat>)
    returns (snapshot: map<nat, Quaternion>, verlet: seq<BoneLogic>)
    requires WellFormed(nodes) && CanTransform(v, nodes, center)
    requires forall k :: 0 <= k < |roots| ==> roots[k] < |nodes| && SetupOk(v, nodes, roots[k])
    ensures snapshot == Snapshot(nodes, roots)
    ensures Distinct(verlet)
    ensures forall k :: 0 <= k < |verlet| ==> fresh(verlet[k]) && verlet[k].variant == v
    ensures forall k :: 0 <= k < |Forest(nodes, roots)| ==> SetupOk(v, nodes, Forest(nodes, roots)[k])
    ensures States(verlet) == InitialStates(p, v, nodes, Some(center), Forest(nodes, roots))
  {
    hide InitialState, ChildPosition, Covered;
    CoveredEnds(nodes, roots);
    snapshot := map[];
    verlet := [];
    var j := 0;
    while j < |roots|
      invariant 0 <= j <= |roots|
      invariant snapshot == Snapshot(nodes, roots[..j])
      invariant Distinct(verlet)
      invariant forall k :: 0 <= k < |verlet| ==> fresh(verlet[k])
      invariant Built(p, v, nodes, center, verlet, Covered(nodes, roots, j))
    {
      SnapshotSnoc(nodes, roots, j);
      snapshot := RecordChildren(snapshot, nodes, roots[j]);
      var added := SetupRecursive(p, v, nodes, center, roots[j]);
      RootsTurn(p, v, nodes, center, roots, j, verlet, added);
      verlet := verlet + added;
      j := j + 1;
    }
    assert roots[..|roots|] == roots;
    BuiltStates(p, v, nodes, center, verlet, Forest(nodes, roots));
  }

  /// Every root bone is a node of the arena that can be set up.
  predicate RootsOk(v: Variant, nodes: seq<Node>, roots: seq<nat>) {
    forall k :: 0 <= k < |roots| ==> roots[k] < |nodes| && SetupOk(v, nodes, roots[k])
  }

  /// In a well-formed arena every node of the roots' subtrees can be set
  /// up when the roots can.
  lemma {:induction false} ForestReady(v: Variant, nodes: seq<Node>, roots: seq<nat>)
    requires WellFormed(nodes) && RootsOk(v, nodes, roots)
    ensures forall k :: 0 <= k < |Forest(nodes, roots)| ==> SetupOk(v, nodes, Forest(nodes, roots)[k])
    decreases |roots|
  {
    if roots != [] {
      PreorderReady(v, nodes, roots[0]);
      ForestReady(v, nodes, roots[1..]);
      var a := Preorder(nodes, roots[0]);
      var b := Forest(nodes, roots[1..]);
      assert Forest(nodes, roots) == a + b;
      forall k | 0 <= k < |a + b| ensures SetupOk(v, nodes, (a + b)[k]) {
        if k >= |a| {
          assert (a + b)[k] == b[k - |a|];
        }
      }
    }
  }

  /// The states of the logics `setup` builds around `center`: one per node
  /// of the roots' subtrees, in preorder, each of which the per-frame step
  /// can drive.
  function SetupStates(p: Platform, v: Variant, nodes: seq<Node>, center: nat, roots: seq<nat>): (r: seq<LogicState>)
    requires WellFormed(nodes) && CanTransform(v, nodes, center) && RootsOk(v, nodes, roots)
    ensures |r| == |Forest(nodes, roots)|
    ensures forall k :: 0 <= k < |r| ==> r[k].node == Forest(nodes, roots)[k]
    ensures AllStepOk(nodes, r)
  {
    ForestReady(v, nodes, roots);
    InitialStates(p, v, nodes, Some(center), Forest(nodes, roots))
  }

  /// What `SetupRoots` returns is what `SetupStates` names.
  lemma SetupStatesAre(p: Platform, v: Variant, nodes: seq<Node>, center: nat, roots: seq<nat>)
    requires WellFormed(nodes) && CanTransform(v, nodes, center) && RootsOk(v, nodes, roots)
    ensures forall k :: 0 <= k < |Forest(nodes, roots)| ==> SetupOk(v, nodes, Forest(nodes, roots)[k])
    ensures SetupStates(p, v, nodes, center, roots) == InitialStates(p, v, nodes, Some(center), Forest(nodes, roots))
  {
    ForestReady(v, nodes, roots);
  }

  /// The inner loop of `setup`: each direct child of `go`, in the order
  /// `traverse` gives, has its orientation stored in the snapshot.
  method RecordChildren(m: map<nat, Quaternion>, nodes: seq<Node>, go: nat) returns (r: map<nat, Quaternion>)
    requires go < |nodes| && forall k :: 0 <= k < |nodes[go].children| ==> nodes[go].children[k] < |nodes|
    ensures r == Record(m, nodes, nodes[go].children)
  {
    var xs := Traverse(nodes, go);
    r := m;
    var l := 0;
    while l < |xs|
      invariant 0 <= l <= |xs|
      invariant r == Record(m, nodes, xs[..l])
    {
      assert xs[..l + 1][..l] == xs[..l];
      r := r[xs[l] := nodes[xs[l]].orientation];
      l := l + 1;
    }
    assert xs[..|xs|] == xs;
  }

  /// The snapshot of the first `j + 1` roots adds root `j`'s children to that
  /// of the first `j`.
  lemma SnapshotSnoc(nodes: seq<Node>, roots: seq<nat>, j: nat)
    requires ChildrenAfter(nodes) && j < |roots|
    requires forall k :: 0 <= k < |roots| ==> roots[k] < |nodes|
    ensures Snapshot(nodes, roots[..j + 1]) == Record(Snapshot(nodes, roots[..j]), nodes, nodes[roots[j]].children)
  {
    assert roots[..j + 1][..j] == roots[..j];
  }

  /// The subtrees of the first `j` roots: the nodes `setup` has covered
  /// after `j` turns of its loop.
  function Covered(nodes: seq<Node>, roots: seq<nat>, j: nat): seq<nat>
    requires ChildrenAfter(nodes) && j <= |roots|
    requires forall k :: 0 <= k < |roots| ==> roots[k] < |nodes|
  {
    Forest(nodes, roots[..j])
  }

  /// Before the loop nothing is covered; after it, the whole forest.
  lemma CoveredEnds(nodes: seq<Node>, roots: seq<nat>)
    requires ChildrenAfter(nodes)
    requires forall k :: 0 <= k < |roots| ==> roots[k] < |nodes|
    ensures Covered(nodes, roots, 0) == []
    ensures Covered(nodes, roots, |roots|) == Forest(nodes, roots)
  {
    assert roots[..0] == [] && roots[..|roots|] == roots;
  }

  /// Turn `j` adds the subtree of root `j`.
  lemma CoveredNext(nodes: seq<Node>, roots: seq<nat>, j: nat)
    requires ChildrenAfter(nodes) && j < |roots|
    requires forall k :: 0 <= k < |roots| ==> roots[k] < |nodes|
    ensures Covered(nodes, roots, j + 1) == Covered(nodes, roots, j) + Preorder(nodes, roots[j])
  {
    hide Forest, Preorder, ChildrenAfter;
    ForestSnoc(nodes, roots[..j], roots[j]);
    assert roots[..j + 1] == roots[..j] + [roots[j]];
  }

  /// One turn of the loop over `rootBones`: the logics of root `j`'s
  /// subtree extend those built so far.
  lemma RootsTurn(p: Platform, v: Variant, nodes: seq<Node>, center: nat, roots: seq<nat>, j: nat,
                  verlet: seq<BoneLogic>, added: seq<BoneLogic>)
    requires ChildrenAfter(nodes) && j < |roots|
    requires forall k :: 0 <= k < |roots| ==> roots[k] < |nodes|
    requires Distinct(verlet) && Distinct(added)
    requires forall i, l :: 0 <= i < |verlet| && 0 <= l < |added| ==> verlet[i] != added[l]
    requires Built(p, v, nodes, center, verlet, Covered(nodes, roots, j))
    requires Built(p, v, nodes, center, added, Preorder(nodes, roots[j]))
    ensures Distinct(verlet + added)
    ensures Built(p, v, nodes, center, verlet + added, Covered(nodes, roots, j + 1))
  {
    hide InitialState, ChildPosition, Covered, Preorder, Forest, ChildrenAfter;
    CoveredNext(nodes, roots, j);
    BuiltConcat(p, v, nodes, center, verlet, added, Covered(nodes, roots, j), Preorder(nodes, roots[j]));
    DistinctConcat(verlet, added);
  }

  // ---------------- the per-frame loop ----------------

  /// One turn of the update loop: the logic's radius set to `hitRadius`,
  /// then its step. No other logic changes.
  method StepLogic(p: Platform, v: Variant, scene: Scene, center: Option<nat>, logics: seq<BoneLogic>, i: nat,
                   stiffness: real, drag: real, external: Vector3, colliders: seq<SphereCollider>,
                   hitRadius: real)
    requires i < |logics| && Distinct(logics) && logics[i].variant == v
    requires StepOk(scene.nodes, logics[i].node) && CenterOk(v, scene.nodes, center)
    modifies scene, logics[i]
    ensures logics[i].State()
         == Step(p, v, old(scene.nodes), center, old(logics[i].State()).(radius := Some(hitRadius)),
                 stiffness, drag, external, colliders).0
    ensures scene.nodes
         == Step(p, v, old(scene.nodes), center, old(logics[i].State()).(radius := Some(hitRadius)),
                 stiffness, drag, external, colliders).1
    ensures forall k :: 0 <= k < |logics| && k != i ==> logics[k].State() == old(logics[k].State())
  {
    var logic := logics[i];
    logic.radius := Some(hitRadius);
    logic.Update(p, scene, center, stiffness, drag, external, colliders);
    assert forall k :: 0 <= k < |logics| && k != i ==> logics[k] != logic;
  }

  /// The update loop of `update(deltaTime:)` / `lateUpdate`: each logic's
  /// radius set to `hitRadius`, then its step, in `verlet` order.
  method UpdateAll(p: Platform, v: Variant, scene: Scene, center: Option<nat>, logics: seq<BoneLogic>,
                   stiffness: real, drag: real, external: Vector3, colliders: seq<SphereCollider>,
                   hitRadius: real)
    requires Distinct(logics) && forall k :: 0 <= k < |logics| ==> logics[k].variant == v
    requires AllStepOk(scene.nodes, States(logics)) && CenterOk(v, scene.nodes, center)
    modifies scene, logics
    ensures States(logics)
         == StepAll(p, v, old(scene.nodes), center, old(States(logics)), stiffness, drag, external, colliders, hitRadius).0
    ensures scene.nodes
         == StepAll(p, v, old(scene.nodes), center, old(States(logics)), stiffness, drag, external, colliders, hitRadius).1
  {
    hide Step, StepAll, StepOk, CenterOk, AllStepOk, SameShape;
    ghost var s0 := States(logics);
    ghost var all := StepAll(p, v, scene.nodes, center, s0, stiffness, drag, external, colliders, hitRadius);
    UpdateLoop(p, v, scene, center, logics, stiffness, drag, external, colliders, hitRadius, s0, all);
    assert States(logics) == all.0;
  }

  /// The loop of `UpdateAll`, against the abstract states `s0` the logics
  /// start in and the fold `all` over them.
  method UpdateLoop(p: Platform, v: Variant, scene: Scene, center: Option<nat>, logics: seq<BoneLogic>,
                    stiffness: real, drag: real, external: Vector3, colliders: seq<SphereCollider>,
                    hitRadius: real, ghost s0: seq<LogicState>, ghost all: (seq<LogicState>, seq<Node>))
    requires Distinct(logics) && forall k :: 0 <= k < |logics| ==> logics[k].variant == v
    requires |s0| == |logics| && forall k :: 0 <= k < |logics| ==> logics[k].State() == s0[k]
    requires AllStepOk(scene.nodes, s0) && CenterOk(v, scene.nodes, center)
    requires all == StepAll(p, v, scene.nodes, center, s0, stiffness, drag, external, colliders, hitRadius)
    modifies scene, logics
    ensures forall k :: 0 <= k < |logics| ==> logics[k].State() == all.0[k]
    ensures scene.nodes == all.1
  {
    hide Step, StepAll, Arenas, StepOk, CenterOk, AllStepOk, SameShape;
    ghost var nodes0 := scene.nodes;
    ghost var arenas := Arenas(p, v, nodes0, center, s0, stiffness, drag, external, colliders, hitRadius);
    ArenasEnds(p, v, nodes0, center, s0, stiffness, drag, external, colliders, hitRadius);
    var i := 0;
    while i < |logics|
      invariant 0 <= i <= |logics|
      invariant forall k :: 0 <= k < i ==> logics[k].State() == all.0[k]
      invariant forall k :: i <= k < |logics| ==> logics[k].State() == s0[k]
      invariant scene.nodes == arenas[i]
    {
      StepAllNext(p, v, nodes0, center, s0, i, stiffness, drag, external, colliders, hitRadius);
      StepLogic(p, v, scene, center, logics, i, stiffness, drag, external, colliders, hitRadius);
      i := i + 1;
    }
  }

  /// The arenas the update loop passes through: entry `i` is the arena
  /// after the first `i` logics have stepped.
  ghost function Arenas(p: Platform, v: Variant, nodes: seq<Node>, center: Option<nat>, states: seq<LogicState>,
                        stiffness: real, drag: real, external: Vector3, colliders: seq<SphereCollider>,
                        hitRadius: real): (r: seq<seq<Node>>)
    requires AllStepOk(nodes, states) && CenterOk(v, nodes, center)
    ensures |r| == |states| + 1
    ensures forall i :: 0 <= i <= |states| ==>
      AllStepOk(nodes, states[..i]) && r[i] == StepAll(p, v, nodes, center, states[..i], stiffness, drag, external, colliders, hitRadius).1
  {
    seq(|states| + 1, i requires 0 <= i <= |states| =>
      StepAll(p, v, nodes, center, states[..i], stiffness, drag, external, colliders, hitRadius).1)
  }

  /// The loop starts in the given arena and ends in the fold's.
  lemma ArenasEnds(p: Platform, v: Variant, nodes: seq<Node>, center: Option<nat>, states: seq<LogicState>,
                   stiffness: real, drag: real, external: Vector3, colliders: seq<SphereCollider>, hitRadius: real)
    requires AllStepOk(nodes, states) && CenterOk(v, nodes, center)
    ensures var a := Arenas(p, v, nodes, center, states, stiffness, drag, external, colliders, hitRadius);
      a[0] == nodes && a[|states|] == StepAll(p, v, nodes, center, states, stiffness, drag, external, colliders, hitRadius).1
  {
    assert states[..0] == [] && states[..|states|] == states;
  }

  /// Stepping a longer list of logics does not change the steps of the
  /// earlier ones.
  lemma {:induction false} StepAllPrefix(p: Platform, v: Variant, nodes: seq<Node>, center: Option<nat>,
                                         states: seq<LogicState>, j: nat, k: nat,
                                         stiffness: real, drag: real, external: Vector3,
                                         colliders: seq<SphereCollider>, hitRadius: real)
    requires AllStepOk(nodes, states) && CenterOk(v, nodes, center) && k < j <= |states|
    ensures StepAll(p, v, nodes, center, states[..j], stiffness, drag, external, colliders, hitRadius).0[k]
         == StepAll(p, v, nodes, center, states, stiffness, drag, external, colliders, hitRadius).0[k]
    decreases |states|
  {
    hide Step;
    var n := |states| - 1;
    if j <= n {
      assert states[..n][..j] == states[..j];
      StepAllPrefix(p, v, nodes, center, states[..n], j, k, stiffness, drag, external, colliders, hitRadius);
      var before := StepAll(p, v, nodes, center, states[..n], stiffness, drag, external, colliders, hitRadius);
      assert StepAll(p, v, nodes, center, states, stiffness, drag, external, colliders, hitRadius).0[..n] == before.0;
    } else {
      assert states[..j] == states;
    }
  }

  /// Turn `i` of the update loop: the arena the first `i` steps leave can
  /// step logic `i`, whose result is entry `i` of the whole fold, and the
  /// arena after it is the one the first `i + 1` steps leave.
  lemma StepAllNext(p: Platform, v: Variant, nodes: seq<Node>, center: Option<nat>, states: seq<LogicState>, i: nat,
                    stiffness: real, drag: real, external: Vector3, colliders: seq<SphereCollider>, hitRadius: real)
    requires AllStepOk(nodes, states) && CenterOk(v, nodes, center) && i < |states|
    ensures var a := Arenas(p, v, nodes, center, states, stiffness, drag, external, colliders, hitRadius);
      && StepOk(a[i], states[i].node) && CenterOk(v, a[i], center)
      && StepAll(p, v, nodes, center, states, stiffness, drag, external, colliders, hitRadius).0[i]
         == Step(p, v, a[i], center, states[i].(radius := Some(hitRadius)), stiffness, drag, external, colliders).0
      && a[i + 1]
         == Step(p, v, a[i], center, states[i].(radius := Some(hitRadius)), stiffness, drag, external, colliders).1
  {
    hide Step, Arenas;
    assert states[..i + 1][..i] == states[..i] && states[..i + 1][i] == states[i];
    SameShapeKeeps(v, nodes, StepAll(p, v, nodes, center, states[..i], stiffness, drag, external, colliders, hitRadius).1,
                   center, states);
    StepAllPrefix(p, v, nodes, center, states, i + 1, i, stiffness, drag, external, colliders, hitRadius);
  }

  /// The node each logic drives (`head`), in `verlet` order.
  function Heads(ls: seq<BoneLogic>): (r: seq<nat>)
    ensures |r| == |ls| && forall k :: 0 <= k < |ls| ==> r[k] == ls[k].node
  {
    seq(|ls|, k requires 0 <= k < |ls| => ls[k].node)
  }

  /// The nodes after `setLocalRotationsIdentity` has visited `heads` in
  /// order, each set back to the identity rotation.
  function ResetRotations(nodes: seq<Node>, heads: seq<nat>): (r: seq<Node>)
    requires forall k :: 0 <= k < |heads| ==> heads[k] < |nodes|
    ensures |r| == |nodes|
  {
    if heads == [] then nodes
    else
      var before := ResetRotations(nodes, heads[..|heads| - 1]);
      before[heads[|heads| - 1] := before[heads[|heads| - 1]].(orientation := QuatIdentity)]
  }

  /// Every head ends at the identity rotation, every other node keeps its
  /// rotation, and nothing else about any node changes.
  lemma {:induction false} ResetRotationsContents(nodes: seq<Node>, heads: seq<nat>)
    requires forall k :: 0 <= k < |heads| ==> heads[k] < |nodes|
    ensures forall i :: 0 <= i < |nodes| ==>
      ResetRotations(nodes, heads)[i]
        == nodes[i].(orientation := if i in heads then QuatIdentity else nodes[i].orientation)
    decreases |heads|
  {
    if heads != [] {
      var init := heads[..|heads| - 1];
      ResetRotationsContents(nodes, init);
      assert heads == init + [heads[|heads| - 1]];
    }
  }

  /// Resetting twice is resetting once.
  lemma ResetRotationsIdempotent(nodes: seq<Node>, heads: seq<nat>)
    requires forall k :: 0 <= k < |heads| ==> heads[k] < |nodes|
    ensures ResetRotations(ResetRotations(nodes, heads), heads) == ResetRotations(nodes, heads)
  {
    var once := ResetRotations(nodes, heads);
    ResetRotationsContents(nodes, heads);
    ResetRotationsContents(once, heads);
  }

  /// Resetting rotations keeps the tree.
  lemma ResetRotationsKeepsTree(nodes: seq<Node>, heads: seq<nat>)
    requires forall k :: 0 <= k < |heads| ==> heads[k] < |nodes|
    requires WellFormed(nodes)
    ensures WellFormed(ResetRotations(nodes, heads))
  {
    ResetRotationsContents(nodes, heads);
  }

  /// `setLocalRotationsIdentity()`: the loop over `verlet`.
  method SetLocalRotationsIdentity(scene: Scene, logics: seq<BoneLogic>)
    requires forall k :: 0 <= k < |logics| ==> logics[k].node < |scene.nodes|
    modifies scene
    ensures scene.nodes == ResetRotations(old(scene.nodes), Heads(logics))
  {
    var heads := Heads(logics);
    var i := 0;
    while i < |logics|
      invariant 0 <= i <= |logics|
      invariant scene.nodes == ResetRotations(old(scene.nodes), heads[..i])
    {
      assert heads[..i + 1][..i] == heads[..i];
      var head := logics[i].node;
      scene.nodes := scene.nodes[head := scene.nodes[head].(orientation := QuatIdentity)];
      i := i + 1;
    }
    assert heads[..i] == heads;
  }
}
