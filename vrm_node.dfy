/// The blend-shape part of `VRMNode`: the clip table built from the file's
/// blend-shape groups, writing a clip's weight to the morphers of its
/// meshes, and reading it back. Clip keys (`BlendShapeKey`) are a type
/// parameter and `clipKey` stands for `BlendShapeClip.key`.
module BlendShapes {
  import opened Wrappers
  import opened SceneGraph

  /// `VRM.BlendShapeMaster.BlendShapeGroup.Bind`: a mesh index into the
  /// loader's mesh table, a morph-target index and a weight in percent.
  datatype SourceBind = SourceBind(mesh: int, index: int, weight: real)

  /// `VRM.BlendShapeMaster.BlendShapeGroup`
  datatype SourceGroup = SourceGroup(name: string, presetName: string, binds: Option<seq<SourceBind>>, isBinary: bool)

  /// `BlendShapeBinding`: the mesh node (an arena index), the target index
  /// and the weight.
  datatype Binding = Binding(mesh: nat, index: int, weight: real)

  /// `BlendShapeClip`
  datatype Clip = Clip(name: string, presetName: string, values: seq<Binding>, isBinary: bool)

  /// The weights of the `SCNMorpher` of every primitive node that has one,
  /// by node; a target never set reads as 0.
  type Weights = map<nat, map<int, real>>

  // ---------------- building the table ----------------

  /// Every bind of every group names an entry of the mesh table (the
  /// source subscripts the table with it).
  predicate BindsInRange(groups: seq<SourceGroup>, n: nat) {
    forall i, k :: 0 <= i < |groups| && groups[i].binds.Some? && 0 <= k < |groups[i].binds.value| ==>
      0 <= groups[i].binds.value[k].mesh < n
  }

  /// The `compactMap` over a group's binds: a bind whose mesh entry is nil
  /// is dropped.
  function Bindings(meshes: seq<Option<nat>>, bs: seq<SourceBind>): (r: seq<Binding>)
    requires forall k :: 0 <= k < |bs| ==> 0 <= bs[k].mesh < |meshes|
    ensures |r| <= |bs|
  {
    if bs == [] then []
    else
      var rest := Bindings(meshes, bs[1..]);
      match meshes[bs[0].mesh]
      case None => rest
      case Some(mesh) => [Binding(mesh, bs[0].index, bs[0].weight)] + rest
  }

  /// When every mesh entry is present nothing is dropped and each binding
  /// carries its bind's target and weight and the mesh the table names.
  lemma {:induction false} BindingsAllPresent(meshes: seq<Option<nat>>, bs: seq<SourceBind>)
    requires forall k :: 0 <= k < |bs| ==> 0 <= bs[k].mesh < |meshes| && meshes[bs[k].mesh].Some?
    ensures |Bindings(meshes, bs)| == |bs|
    ensures forall k :: 0 <= k < |bs| ==>
      Bindings(meshes, bs)[k] == Binding(meshes[bs[k].mesh].value, bs[k].index, bs[k].weight)
    decreases |bs|
  {
    if bs != [] {
      BindingsAllPresent(meshes, bs[1..]);
      var r := Bindings(meshes, bs);
      forall k | 0 <= k < |bs|
        ensures r[k] == Binding(meshes[bs[k].mesh].value, bs[k].index, bs[k].weight)
      {
        if k > 0 {
          assert r[k] == Bindings(meshes, bs[1..])[k - 1];
          assert bs[k] == bs[1..][k - 1];
        }
      }
    }
  }

  /// When every mesh entry is nil the clip has no bindings.
  lemma {:induction false} BindingsAllMissing(meshes: seq<Option<nat>>, bs: seq<SourceBind>)
    requires forall k :: 0 <= k < |bs| ==> 0 <= bs[k].mesh < |meshes| && meshes[bs[k].mesh].None?
    ensures Bindings(meshes, bs) == []
    decreases |bs|
  {
    if bs != [] {
      BindingsAllMissing(meshes, bs[1..]);
    }
  }

  /// The clip made from one group; a group without binds has none.
  function MakeClip(meshes: seq<Option<nat>>, g: SourceGroup): (r: Clip)
    requires g.binds.Some? ==> forall k :: 0 <= k < |g.binds.value| ==> 0 <= g.binds.value[k].mesh < |meshes|
    ensures r.name == g.name && r.presetName == g.presetName && r.isBinary == g.isBinary
    ensures g.binds.None? ==> r.values == []
  {
    var values := if g.binds.Some? then Bindings(meshes, g.binds.value) else [];
    Clip(g.name, g.presetName, values, g.isBinary)
  }

  /// `setUpBlendShapes(meshes:)`: the clips of all groups, reduced into a
  /// dictionary by key, one group after the other.
  function Clips<K>(clipKey: Clip -> K, meshes: seq<Option<nat>>, groups: seq<SourceGroup>): map<K, Clip>
    requires BindsInRange(groups, |meshes|)
  {
    if groups == [] then map[]
    else
      var n := |groups| - 1;
      var clip := MakeClip(meshes, groups[n]);
      Clips(clipKey, meshes, groups[..n])[clipKey(clip) := clip]
  }

  /// The keys of the clips of `groups`, in order.
  function Keys<K>(clipKey: Clip -> K, meshes: seq<Option<nat>>, groups: seq<SourceGroup>): (r: seq<K>)
    requires BindsInRange(groups, |meshes|)
    ensures |r| == |groups|
    ensures forall i :: 0 <= i < |groups| ==> r[i] == clipKey(MakeClip(meshes, groups[i]))
  {
    seq(|groups|, i requires 0 <= i < |groups| => clipKey(MakeClip(meshes, groups[i])))
  }

  /// No entry after `i` has the key of entry `i`.
  predicate LastWithKey<K(==)>(ks: seq<K>, i: nat)
    requires i < |ks|
  {
    forall l :: i < l < |ks| ==> ks[l] != ks[i]
  }

  /// One more group overwrites (or adds) the entry under its key.
  lemma ClipsSnoc<K>(clipKey: Clip -> K, meshes: seq<Option<nat>>, groups: seq<SourceGroup>)
    requires BindsInRange(groups, |meshes|) && groups != []
    ensures BindsInRange(groups[..|groups| - 1], |meshes|)
    ensures var clip := MakeClip(meshes, groups[|groups| - 1]);
      Clips(clipKey, meshes, groups) == Clips(clipKey, meshes, groups[..|groups| - 1])[clipKey(clip) := clip]
  {
    hide MakeClip;
    assert BindsInRange(groups[..|groups| - 1], |meshes|);
  }

  /// The table has one clip per distinct key of the groups.
  lemma {:induction false} ClipsDomain<K>(clipKey: Clip -> K, meshes: seq<Option<nat>>, groups: seq<SourceGroup>)
    requires BindsInRange(groups, |meshes|)
    ensures forall key :: key in Clips(clipKey, meshes, groups) <==> key in Keys(clipKey, meshes, groups)
    decreases |groups|
  {
    if groups != [] {
      hide Clips, MakeClip, Keys;
      var n := |groups| - 1;
      var init := groups[..n];
      ClipsSnoc(clipKey, meshes, groups);
      ClipsDomain(clipKey, meshes, init);
      var ks := Keys(clipKey, meshes, groups);
      var ks0 := Keys(clipKey, meshes, init);
      assert ks == ks0 + [ks[n]];
      var m := Clips(clipKey, meshes, groups);
      var m0 := Clips(clipKey, meshes, init);
      forall key ensures key in m <==> key in ks {
        assert key in m <==> key in m0 || key == ks[n];
        assert key in ks <==> key in ks0 || key == ks[n];
      }
    }
  }

  /// Where keys repeat, the clip of the last group with that key wins.
  lemma {:induction false} ClipsLastWins<K>(clipKey: Clip -> K, meshes: seq<Option<nat>>, groups: seq<SourceGroup>)
    requires BindsInRange(groups, |meshes|)
    ensures forall i :: 0 <= i < |groups| && LastWithKey(Keys(clipKey, meshes, groups), i) ==>
      && Keys(clipKey, meshes, groups)[i] in Clips(clipKey, meshes, groups)
      && Clips(clipKey, meshes, groups)[Keys(clipKey, meshes, groups)[i]] == MakeClip(meshes, groups[i])
    decreases |groups|
  {
    hide Clips, MakeClip;
    if groups != [] {
      var n := |groups| - 1;
      var init := groups[..n];
      ClipsSnoc(clipKey, meshes, groups);
      ClipsLastWins(clipKey, meshes, init);
      var ks := Keys(clipKey, meshes, groups);
      var ks0 := Keys(clipKey, meshes, init);
      var m := Clips(clipKey, meshes, groups);
      forall i | 0 <= i < |groups| && LastWithKey(ks, i)
        ensures ks[i] in m && m[ks[i]] == MakeClip(meshes, groups[i])
      {
        if i < n {
          assert ks[i] == ks0[i] && groups[i] == init[i];
          assert LastWithKey(ks0, i) by {
            forall l | i < l < |ks0| ensures ks0[l] != ks0[i] {
              assert ks0[l] == ks[l];
            }
          }
        }
      }
    }
  }

  // ---------------- writing weights ----------------

  /// `morpher.weight(forTargetAt:)`
  function Weight(ws: Weights, q: nat, index: int): real
    requires q in ws
  {
    if index in ws[q] then ws[q][index] else 0.0
  }

  /// `morpher.setWeight(_:forTargetAt:)` on every primitive of `prims` that
  /// has a morpher, one after the other; the others are skipped.
  function ApplyPrimitives(ws: Weights, prims: seq<nat>, index: int, w: real): (r: Weights)
    ensures r.Keys == ws.Keys
    ensures prims == [] ==> r == ws
  {
    if prims == [] then ws
    else
      var n := |prims| - 1;
      var before := ApplyPrimitives(ws, prims[..n], index, w);
      if prims[n] in before then before[prims[n] := before[prims[n]][index := w]] else before
  }

  /// Every binding's mesh is a node of the arena.
  predicate MeshesIn(bs: seq<Binding>, n: nat) {
    forall k :: 0 <= k < |bs| ==> bs[k].mesh < n
  }

  /// What a binding writes: its weight is a percentage of the value.
  function Scaled(weight: real, value: real): real {
    weight / 100.0 * value
  }

  /// The loop over a clip's bindings in `setBlendShape(value:for:)`: each
  /// binding writes `weight / 100 * value` to its target on the primitives
  /// (child nodes) of its mesh.
  function ApplyBindings(ws: Weights, nodes: seq<Node>, bs: seq<Binding>, value: real): (r: Weights)
    requires MeshesIn(bs, |nodes|)
    ensures r.Keys == ws.Keys
    ensures bs == [] ==> r == ws
  {
    if bs == [] then ws
    else
      var n := |bs| - 1;
      var b := bs[n];
      ApplyPrimitives(ApplyBindings(ws, nodes, bs[..n], value), nodes[b.mesh].children, b.index, Scaled(b.weight, value))
  }

  /// Extending the primitives by one writes that primitive's target, when
  /// it has a morpher.
  lemma ApplyPrimitivesSnoc(ws: Weights, prims: seq<nat>, index: int, w: real, j: nat)
    requires j < |prims|
    ensures var before := ApplyPrimitives(ws, prims[..j], index, w);
      ApplyPrimitives(ws, prims[..j + 1], index, w)
        == if prims[j] in before then before[prims[j] := before[prims[j]][index := w]] else before
  {
    assert prims[..j + 1][..j] == prims[..j];
  }

  /// Extending the bindings by one applies that binding on top.
  lemma ApplyBindingsSnoc(ws: Weights, nodes: seq<Node>, bs: seq<Binding>, value: real, i: nat)
    requires MeshesIn(bs, |nodes|) && i < |bs|
    ensures MeshesIn(bs[..i], |nodes|) && MeshesIn(bs[..i + 1], |nodes|)
    ensures ApplyBindings(ws, nodes, bs[..i + 1], value)
         == ApplyPrimitives(ApplyBindings(ws, nodes, bs[..i], value), nodes[bs[i].mesh].children,
                            bs[i].index, Scaled(bs[i].weight, value))
  {
    var s := bs[..i + 1];
    assert s[..i] == bs[..i] && s[i] == bs[i];
  }

  /// `round` on `CGFloat`: to the nearest integer, halves away from zero.
  function Round(x: real): (r: int)
    ensures x >= 0.0 ==> x - 0.5 < r as real <= x + 0.5
    ensures x < 0.0 ==> x - 0.5 <= r as real < x + 0.5
  {
    if x >= 0.0 then (x + 0.5).Floor else -((-x + 0.5).Floor)
  }

  /// The whole of `setBlendShape(value:for:)` on the morpher weights: an
  /// unknown key changes nothing; a binary clip rounds the value first.
  function SetBlendShapeWeights<K>(clips: map<K, Clip>, ws: Weights, nodes: seq<Node>, value: real, key: K): (r: Weights)
    requires key in clips ==> MeshesIn(clips[key].values, |nodes|)
    ensures key !in clips ==> r == ws
    ensures r.Keys == ws.Keys
  {
    if key !in clips then ws
    else
      var clip := clips[key];
      ApplyBindings(ws, nodes, clip.values, if clip.isBinary then Round(value) as real else value)
  }

  // ---------------- reading weights ----------------

  /// `childNodes.lazy.compactMap { $0.morpher }.first`: the first child
  /// that has a morpher.
  function FirstMorpher(cs: seq<nat>, morphed: set<nat>): (r: Option<nat>)
    ensures r.Some? ==> r.value in cs && r.value in morphed
    ensures r.None? ==> forall k :: 0 <= k < |cs| ==> cs[k] !in morphed
    ensures r.Some? ==> exists k :: 0 <= k < |cs| && cs[k] == r.value && forall j :: 0 <= j < k ==> cs[j] !in morphed
  {
    if cs == [] then None
    else if cs[0] in morphed then Some(cs[0])
    else FirstMorpher(cs[1..], morphed)
  }

  /// `blendShape(for:)`: 0 for a missing clip, a clip without bindings or a
  /// first mesh without a morpher child; otherwise that morpher's weight at
  /// the first binding's target.
  function BlendShapeWeight<K>(clips: map<K, Clip>, ws: Weights, nodes: seq<Node>, key: K): (r: real)
    requires key in clips ==> MeshesIn(clips[key].values, |nodes|)
    ensures key !in clips ==> r == 0.0
    ensures key in clips && clips[key].values == [] ==> r == 0.0
    ensures (key in clips && clips[key].values != [] &&
             FirstMorpher(nodes[clips[key].values[0].mesh].children, ws.Keys).None?) ==> r == 0.0
  {
    if key !in clips || clips[key].values == [] then 0.0
    else
      var b := clips[key].values[0];
      match FirstMorpher(nodes[b.mesh].children, ws.Keys)
      case None => 0.0
      case Some(q) => Weight(ws, q, b.index)
  }

  // ---------------- properties ----------------

  /// After the primitive loop, a primitive with a morpher reads `w` at the
  /// target when it is among `prims`, and everything else reads as before.
  lemma {:induction false} ApplyPrimitivesAt(ws: Weights, prims: seq<nat>, index: int, w: real, q: nat, i: int)
    requires q in ws
    ensures Weight(ApplyPrimitives(ws, prims, index, w), q, i)
         == if q in prims && i == index then w else Weight(ws, q, i)
    decreases |prims|
  {
    if prims != [] {
      var n := |prims| - 1;
      ApplyPrimitivesAt(ws, prims[..n], index, w, q, i);
      assert prims == prims[..n] + [prims[n]];
    }
  }

  /// A binding that does not reach primitive `q` at target `i` (another
  /// target, or a mesh `q` is not a child of) leaves that weight alone: the
  /// weight after all bindings is the weight after the first `m`.
  lemma {:induction false} ApplyBindingsUntouched(ws: Weights, nodes: seq<Node>, bs: seq<Binding>, value: real,
                                                  m: nat, q: nat, i: int)
    requires MeshesIn(bs, |nodes|) && m <= |bs| && q in ws
    requires forall k :: m <= k < |bs| ==> bs[k].index != i || q !in nodes[bs[k].mesh].children
    ensures MeshesIn(bs[..m], |nodes|)
    ensures Weight(ApplyBindings(ws, nodes, bs, value), q, i) == Weight(ApplyBindings(ws, nodes, bs[..m], value), q, i)
    decreases |bs|
  {
    hide ApplyBindings, ApplyPrimitives;
    if m < |bs| {
      var n := |bs| - 1;
      var init := bs[..n];
      ApplyBindingsSnoc(ws, nodes, bs, value, n);
      assert bs[..n + 1] == bs && init[..m] == bs[..m];
      forall k | m <= k < |init| ensures init[k].index != i || q !in nodes[init[k].mesh].children {
        assert init[k] == bs[k];
      }
      ApplyBindingsUntouched(ws, nodes, init, value, m, q, i);
      var b := bs[n];
      ApplyPrimitivesAt(ApplyBindings(ws, nodes, init, value), nodes[b.mesh].children, b.index, Scaled(b.weight, value), q, i);
    } else {
      assert bs[..m] == bs;
    }
  }

  /// Reading a clip back after writing it: the first binding's weight
  /// percentage times the value (rounded for a binary clip), provided no
  /// later binding targets the same mesh and target index; 0 when the first
  /// mesh has no morpher child. Different meshes have different children in
  /// a well-formed tree.
  lemma SetThenRead<K>(clips: map<K, Clip>, ws: Weights, nodes: seq<Node>, value: real, key: K)
    requires WellFormed(nodes)
    requires key in clips && MeshesIn(clips[key].values, |nodes|) && clips[key].values != []
    requires var bs := clips[key].values;
      forall k :: 1 <= k < |bs| ==> bs[k].mesh != bs[0].mesh || bs[k].index != bs[0].index
    ensures var clip := clips[key];
      var b := clip.values[0];
      var v := if clip.isBinary then Round(value) as real else value;
      var r := BlendShapeWeight(clips, SetBlendShapeWeights(clips, ws, nodes, value, key), nodes, key);
      && (FirstMorpher(nodes[b.mesh].children, ws.Keys).Some? ==> r == Scaled(b.weight, v))
      && (FirstMorpher(nodes[b.mesh].children, ws.Keys).None? ==> r == 0.0)
  {
    var clip := clips[key];
    var bs := clip.values;
    var b := bs[0];
    var v := if clip.isBinary then Round(value) as real else value;
    var after := SetBlendShapeWeights(clips, ws, nodes, value, key);
    var first := FirstMorpher(nodes[b.mesh].children, ws.Keys);
    if first.Some? {
      var q := first.value;
      forall k | 1 <= k < |bs| ensures bs[k].index != b.index || q !in nodes[bs[k].mesh].children {
        if bs[k].index == b.index && q in nodes[bs[k].mesh].children {
          ParentOfChild(nodes, bs[k].mesh, q);
          ParentOfChild(nodes, b.mesh, q);
        }
      }
      ApplyBindingsUntouched(ws, nodes, bs, v, 1, q, b.index);
      var w := Scaled(b.weight, v);
      assert bs[..1][..0] == [] && bs[..1][0] == b;
      assert ApplyBindings(ws, nodes, bs[..1], v) == ApplyPrimitives(ws, nodes[b.mesh].children, b.index, w);
      ApplyPrimitivesAt(ws, nodes[b.mesh].children, b.index, w, q, b.index);
      assert after == ApplyBindings(ws, nodes, bs, v);
    }
  }

  /// In a well-formed tree a child names its parent.
  lemma ParentOfChild(nodes: seq<Node>, m: nat, q: nat)
    requires WellFormed(nodes) && m < |nodes| && q in nodes[m].children
    ensures q < |nodes| && nodes[q].parent == Some(m)
  {
    var k :| 0 <= k < |nodes[m].children| && nodes[m].children[k] == q;
  }

  /// An unknown key writes nothing and reads 0.
  lemma UnknownKey<K>(clips: map<K, Clip>, ws: Weights, nodes: seq<Node>, value: real, key: K)
    requires key !in clips
    ensures SetBlendShapeWeights(clips, ws, nodes, value, key) == ws
    ensures BlendShapeWeight(clips, ws, nodes, key) == 0.0
  {
  }

  // ---------------- the node ----------------

  /// The morphers of the primitive nodes, which `setBlendShape` writes.
  class Morphers {
    var weights: Weights

    constructor (weights: Weights)
      ensures this.weights == weights
    {
      this.weights := weights;
    }
  }

  /// `VRMNode` with its blend-shape table; `groups` are the file's
  /// blend-shape groups (`vrm.blendShapeMaster.blendShapeGroups`).
  class VRMNode<K(==)> {
    const groups: seq<SourceGroup>
    const clipKey: Clip -> K
    var blendShapeClips: map<K, Clip>

    constructor (groups: seq<SourceGroup>, clipKey: Clip -> K)
      ensures this.groups == groups && this.clipKey == clipKey && blendShapeClips == map[]
    {
      this.groups := groups;
      this.clipKey := clipKey;
      blendShapeClips := map[];
    }

    /// `setUpBlendShapes(meshes:)`
    method SetUpBlendShapes(meshes: seq<Option<nat>>)
      requires BindsInRange(groups, |meshes|)
      modifies this
      ensures blendShapeClips == Clips(clipKey, meshes, groups)
    {
      blendShapeClips := Clips(clipKey, meshes, groups);
    }

    /// `setBlendShape(value:for:)`: the nested loops over the clip's
    /// bindings and each mesh's primitives.
    method SetBlendShape(nodes: seq<Node>, morphers: Morphers, value: real, key: K)
      requires key in blendShapeClips ==> MeshesIn(blendShapeClips[key].values, |nodes|)
      modifies morphers
      ensures morphers.weights == SetBlendShapeWeights(blendShapeClips, old(morphers.weights), nodes, value, key)
    {
      hide ApplyBindings, ApplyPrimitives;
      if key !in blendShapeClips {
        return;
      }
      var clip := blendShapeClips[key];
      var v := if clip.isBinary then Round(value) as real else value;
      var i := 0;
      while i < |clip.values|
        invariant 0 <= i <= |clip.values|
        invariant MeshesIn(clip.values[..i], |nodes|)
        invariant morphers.weights == ApplyBindings(old(morphers.weights), nodes, clip.values[..i], v)
      {
        var binding := clip.values[i];
        var weight := binding.weight / 100.0;
        assert weight * v == Scaled(binding.weight, v);
        var prims := nodes[binding.mesh].children;
        ghost var before := morphers.weights;
        var j := 0;
        while j < |prims|
          invariant 0 <= j <= |prims|
          invariant morphers.weights == ApplyPrimitives(before, prims[..j], binding.index, weight * v)
        {
          var primitive := prims[j];
          if primitive in morphers.weights {
            morphers.weights := morphers.weights[primitive := morphers.weights[primitive][binding.index := weight * v]];
          }
          ApplyPrimitivesSnoc(before, prims, binding.index, weight * v, j);
          j := j + 1;
        }
        assert prims[..j] == prims;
        ApplyBindingsSnoc(old(morphers.weights), nodes, clip.values, v, i);
        i := i + 1;
      }
      assert clip.values[..i] == clip.values;
    }

    /// `blendShape(for:)`
    function BlendShape(nodes: seq<Node>, morphers: Morphers, key: K): (r: real)
      reads this, morphers
      requires key in blendShapeClips ==> MeshesIn(blendShapeClips[key].values, |nodes|)
      ensures key !in blendShapeClips ==> r == 0.0
    {
      BlendShapeWeight(blendShapeClips, morphers.weights, nodes, key)
    }
  }
}
