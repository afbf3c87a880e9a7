/// The SceneKit node tree as an arena: nodes are addressed by index, and the
/// `Scene` object holds the poses that the spring-bone code reads and writes.
/// World-space values are stored per node; SceneKit's propagation of a write
/// to the node's descendants is not modelled.
module SceneGraph {
  import opened Wrappers
  import opened Numerics

  /// One SCNNode: its place in the tree, its local pose (position,
  /// eulerAngles, scale, orientation), its world pose and SceneKit's own
  /// `transform` / `worldTransform` matrices.
  datatype Node = Node(
    parent: Option<nat>,
    children: seq<nat>,
    position: Vector3,
    eulerAngles: Vector3,
    scale: Vector3,
    orientation: Quaternion,
    worldPosition: Vector3,
    worldOrientation: Quaternion,
    transform: Matrix4,
    worldTransform: Matrix4)

  /// Every child is numbered after its parent and exists.
  ghost predicate ChildrenAfter(nodes: seq<Node>) {
    forall i, k :: 0 <= i < |nodes| && 0 <= k < |nodes[i].children| ==>
      i < nodes[i].children[k] < |nodes|
  }

  /// A forest: children numbered after their parent, each child names that
  /// parent, no child is listed twice, and every parent precedes its child.
  ghost predicate WellFormed(nodes: seq<Node>) {
    && ChildrenAfter(nodes)
    && (forall i, k :: 0 <= i < |nodes| && 0 <= k < |nodes[i].children| ==>
          nodes[nodes[i].children[k]].parent == Some(i))
    && (forall i, k, l :: 0 <= i < |nodes| && 0 <= k < l < |nodes[i].children| ==>
          nodes[i].children[k] != nodes[i].children[l])
    && (forall i :: 0 <= i < |nodes| && nodes[i].parent.Some? ==> nodes[i].parent.value < i)
  }

  /// The nodes of the subtree of `i`, depth first: `i`, then the subtrees
  /// of its children in `childNodes` order.
  function Preorder(nodes: seq<Node>, i: nat): (r: seq<nat>)
    requires ChildrenAfter(nodes) && i < |nodes|
    ensures |r| >= 1 && r[0] == i
    ensures forall k :: 0 <= k < |r| ==> i <= r[k] < |nodes|
    decreases |nodes| - i, 1
  {
    [i] + PreorderList(nodes, nodes[i].children, i)
  }

  /// The subtrees of `cs`, one after the other.
  function PreorderList(nodes: seq<Node>, cs: seq<nat>, bound: nat): (r: seq<nat>)
    requires ChildrenAfter(nodes)
    requires forall k :: 0 <= k < |cs| ==> bound < cs[k] < |nodes|
    ensures forall k :: 0 <= k < |r| ==> bound < r[k] < |nodes|
    decreases |nodes| - bound, 0, |cs|
  {
    if cs == [] then []
    else Preorder(nodes, cs[0]) + PreorderList(nodes, cs[1..], bound)
  }

  /// The subtrees of all `roots`, in `roots` order.
  function Forest(nodes: seq<Node>, roots: seq<nat>): (r: seq<nat>)
    requires ChildrenAfter(nodes)
    requires forall k :: 0 <= k < |roots| ==> roots[k] < |nodes|
    ensures forall k :: 0 <= k < |r| ==> r[k] < |nodes|
  {
    if roots == [] then []
    else Preorder(nodes, roots[0]) + Forest(nodes, roots[1..])
  }

  /// `x` has a parent, and the parent is among `earlier`.
  ghost predicate ParentAmong(nodes: seq<Node>, x: nat, earlier: seq<nat>) {
    x < |nodes| && nodes[x].parent.Some? && nodes[x].parent.value in earlier
  }

  lemma {:induction false} PreorderListParents(nodes: seq<Node>, cs: seq<nat>, i: nat)
    requires WellFormed(nodes) && i < |nodes|
    requires forall k :: 0 <= k < |cs| ==> i < cs[k] < |nodes| && nodes[cs[k]].parent == Some(i)
    ensures forall k :: 0 <= k < |PreorderList(nodes, cs, i)| ==>
      ParentAmong(nodes, PreorderList(nodes, cs, i)[k], [i] + PreorderList(nodes, cs, i)[..k])
    decreases |nodes| - i, 0, |cs|
  {
    if cs != [] {
      var head := Preorder(nodes, cs[0]);
      var rest := PreorderList(nodes, cs[1..], i);
      var l := PreorderList(nodes, cs, i);
      assert l == head + rest;
      PreorderParents(nodes, cs[0]);
      PreorderListParents(nodes, cs[1..], i);
      forall k | 0 <= k < |l|
        ensures ParentAmong(nodes, l[k], [i] + l[..k])
      {
        if k == 0 {
          assert l[0] == cs[0];
          assert ([i] + l[..k])[0] == i;
        } else if k < |head| {
          assert l[k] == head[k];
          assert ParentAmong(nodes, head[k], head[..k]);
          assert head[..k] == l[..k];
        } else {
          var j := k - |head|;
          assert l[k] == rest[j];
          assert ParentAmong(nodes, rest[j], [i] + rest[..j]);
          assert l[..k] == head + rest[..j];
          var q := nodes[l[k]].parent.value;
          if q != i {
            assert q in rest[..j];
            assert q in l[..k];
          } else {
            assert ([i] + l[..k])[0] == i;
          }
        }
      }
    }
  }

  /// Every node of a subtree but its root has its parent earlier in the
  /// preorder: each node comes before its children.
  lemma {:induction false} PreorderParents(nodes: seq<Node>, i: nat)
    requires WellFormed(nodes) && i < |nodes|
    ensures forall k :: 0 < k < |Preorder(nodes, i)| ==>
      ParentAmong(nodes, Preorder(nodes, i)[k], Preorder(nodes, i)[..k])
    decreases |nodes| - i, 1
  {
    var cs := nodes[i].children;
    PreorderListParents(nodes, cs, i);
    var r := Preorder(nodes, i);
    var l := PreorderList(nodes, cs, i);
    assert r == [i] + l;
    forall k | 0 < k < |r| ensures ParentAmong(nodes, r[k], r[..k]) {
      assert r[k] == l[k - 1];
      assert ParentAmong(nodes, l[k - 1], [i] + l[..k - 1]);
      assert r[..k] == [i] + l[..k - 1];
    }
  }

  /// The arena, whose node poses the spring-bone code updates in place.
  class Scene {
    var nodes: seq<Node>

    constructor (nodes: seq<Node>)
      ensures this.nodes == nodes
    {
      this.nodes := nodes;
    }
  }
}
