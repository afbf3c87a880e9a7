# VRMKit spring bones, modelled in Dafny

This project models VRMKit's spring-bone secondary animation. The model covers two copies of it:

- **The library's `VRMSpringBone` entity.**
  - Each spring bone keeps a current and a previous tail position.
  - Every frame it takes a verlet step and re-projects the tail to the bone length.
  - The tail is then pushed out of sphere colliders and projected back onto the bone-length sphere.
  - Finally the bone writes the turned rotation back to its node.
- **The example application's Unity-style port of it.** This port uses a `Transform` wrapper, a `Time` singleton and constant tuning values.

Beside that solver, the project models the SceneKit helpers it stands on:

- vector, matrix and quaternion arithmetic;
- Unity-style node matrices;
- collider groups built from the VRM document;
- the frame timer;
- blend-shape clips of a `VRMNode`.

Modules, one concept each:

- `Numerics`: the SceneKit value types over exact reals. Foreign numeric routines (`sqrtf`, `sinf`/`cosf`, `SCNMatrix4Mult`/`Invert`/`Translate`/`Scale`, the GLKit quaternion routines) are the fields of a `Platform` value. Only the facts in `Platform.Valid` are assumed about them.
- `SceneGraph`: the node tree as an arena (`Scene`, a sequence of `Node` records that the solver rewrites). It also defines the depth-first order in which the setup walks subtrees.
- `SceneKitExt` and `NodeExt`: the library's `SceneKit+` and `SCNNode+` extensions.
- `SpringBoneLogic`: one bone (`BoneLogic`, a class whose state the update rewrites). It serves both copies. `Variant` selects how a node maps points:
  - `Library` goes through the `SCNNode+` matrices;
  - `Example` goes through SceneKit's `worldTransform` and `transform`.
- `SpringBoneChain`: the loops of `setup`, `setupRecursive`, `setLocalRotationsIdentity` and the per-frame update, proved against fold functions.
- `SpringBones`: the library's `VRMSpringBone` class.
- `ColliderGroups`, `Timers`, `BlendShapes`: collider groups, `Timer`, and the blend-shape part of `VRMNode`.
- `ExampleMath` and `ExampleSpringBones`: the example application's math extensions and its `VRMSpringBone`, `Transform` and `Time`.

Three behaviours of the code that a reader might not expect:

- `localToWorldMatrix` composes only the parent's local matrix with the node's own. It does not walk to the root; `NodeExt.LocalToWorldTwoLevels` states this.
- A bone whose child position is zero is still created. Its axis and length come out of the zero-division convention below; no bone is skipped.
- The example's `inverseTransformPoint` applies the node's local `transform` rather than the inverse of its world matrix. `ExampleSpringBones.InverseTransformPointIsLocal` shows that it does not undo `transformPoint`.

## Model

| member | source | states |
|---|---|---|
| Numerics.Recip | Sources/VRMSceneKit/Extensions/SceneKit+.swift:25-27 | `1 / s` is a true reciprocal for every nonzero `s`; a zero divisor yields 0 |
| SceneKitExt.Div | Sources/VRMSceneKit/Extensions/SceneKit+.swift:25-27 | dividing by a nonzero scalar divides each component by it |
| SceneKitExt.AddSubInverse | Sources/VRMSceneKit/Extensions/SceneKit+.swift:13-19 | vector `+` and `-` undo each other |
| SceneKitExt.DivUndoesScale | Sources/VRMSceneKit/Extensions/SceneKit+.swift:21-27 | dividing by a nonzero scalar undoes multiplying by it |
| SceneKitExt.AddAssign | Sources/VRMSceneKit/Extensions/SceneKit+.swift:29-31 | `+=` leaves the left operand equal to the sum |
| SceneKitExt.SubAssign | Sources/VRMSceneKit/Extensions/SceneKit+.swift:33-35 | `-=` leaves the left operand equal to the difference |
| SceneKitExt.ScaleAssign | Sources/VRMSceneKit/Extensions/SceneKit+.swift:37-39 | `*=` leaves the left operand equal to the scaled vector |
| SceneKitExt.DivAssign | Sources/VRMSceneKit/Extensions/SceneKit+.swift:41-43 | `/=` leaves the left operand equal to the quotient |
| SceneKitExt.Cross | Sources/VRMSceneKit/Extensions/SceneKit+.swift:66-68 | the cross product is orthogonal to both arguments |
| SceneKitExt.CrossAntiCommutative | Sources/VRMSceneKit/Extensions/SceneKit+.swift:66-68 | swapping the arguments negates the cross product |
| SceneKitExt.CrossSelfZero | Sources/VRMSceneKit/Extensions/SceneKit+.swift:66-68 | a vector crossed with itself is zero |
| SceneKitExt.Lagrange | Sources/VRMSceneKit/Extensions/SceneKit+.swift:66-80 | the squared length of a x b is \|a\|^2 \|b\|^2 - (a . b)^2 |
| SceneKitExt.Normalize | Sources/VRMSceneKit/Extensions/SceneKit+.swift:53-55 | the mutating `normalize()` leaves the vector equal to `normalized` |
| SceneKitExt.DotSelfNonneg | Sources/VRMSceneKit/Extensions/SceneKit+.swift:78-80 | v . v is never negative |
| SceneKitExt.DotSelfPositive | Sources/VRMSceneKit/Extensions/SceneKit+.swift:78-80 | v . v is positive exactly when v is not the zero vector |
| SceneKitExt.ScaleSquared | Sources/VRMSceneKit/Extensions/SceneKit+.swift:21-23 | scaling by s multiplies the squared length by s^2 |
| SceneKitExt.LengthSquared | Sources/VRMSceneKit/Extensions/SceneKit+.swift:45-47 | `length` is non-negative and its square is v . v |
| SceneKitExt.NormalizedUnit | Sources/VRMSceneKit/Extensions/SceneKit+.swift:49-51 | a nonzero vector normalizes to unit length |
| SceneKitExt.LengthPositiveScale | Sources/VRMSceneKit/Extensions/SceneKit+.swift:45-47 | a nonzero vector has positive length, and a positive factor scales the length by that factor |
| SceneKitExt.NormalizedPositiveScale | Sources/VRMSceneKit/Extensions/SceneKit+.swift:49-51 | a positive factor does not change the normalized direction |
| SceneKitExt.LengthNegate | Sources/VRMSceneKit/Extensions/SceneKit+.swift:45-47 | negating a vector keeps its length |
| SceneKitExt.NormalizedNegativeScale | Sources/VRMSceneKit/Extensions/SceneKit+.swift:49-51 | a negative factor reverses the normalized direction |
| SceneKitExt.NormalProperties | Sources/VRMSceneKit/Extensions/SceneKit+.swift:70-76 | the triangle normal is orthogonal to both edges, and is of unit length when the edges are not parallel |
| SceneKitExt.FromValues | Sources/VRMSceneKit/Extensions/SceneKit+.swift:95-101 | the matrix initializer succeeds exactly when given 16 values and fills the entries row by row; otherwise it reports the error |
| SceneKitExt.FromValuesRoundTrip | Sources/VRMSceneKit/Extensions/SceneKit+.swift:95-101 | building a matrix from its own 16 entries gives the matrix back |
| SceneKitExt.MulPointAffine | Sources/VRMSceneKit/Extensions/SceneKit+.swift:103-111 | with bottom row (0, 0, 0, 1), `matrix * point` is the linear part plus the translation column, with no perspective divide |
| SceneKitExt.MulPointIdentity | Sources/VRMSceneKit/Extensions/SceneKit+.swift:103-111 | the identity matrix leaves every point where it is |
| SceneKitExt.MulPointInverse | Sources/VRMSceneKit/Extensions/SceneKit+.swift:103-119 | when an affine `inv` times an affine `m` is the identity, `inv` maps every image of `m` back |
| SceneKitExt.UnitQuat | Sources/VRMSceneKit/Extensions/SceneKit+.swift:134-136 | for unit vectors not opposite, (cross / s, s / 2) with s = sqrt(2 (1 + dot)) has norm 1 |
| SceneKitExt.FromToUnit | Sources/VRMSceneKit/Extensions/SceneKit+.swift:126-138 | outside the two special branches, the shortest-arc quaternion has norm 1 |
| SceneKitExt.FromToSameDirection | Sources/VRMSceneKit/Extensions/SceneKit+.swift:126-138 | for two positive multiples of the same direction, the quaternion is the identity |
| SceneKitExt.FromToOppositeDirection | Sources/VRMSceneKit/Extensions/SceneKit+.swift:126-138 | for opposite directions, the quaternion is the half turn about the given axis |
| NodeExt.Rad2Deg | Sources/VRMSceneKit/Extensions/SCNNode+.swift:101-109 | `rad2deg` is the reciprocal of `deg2rad` |
| NodeExt.RotXProperties | Sources/VRMSceneKit/Extensions/SCNNode+.swift:56-66 | the x rotation fixes the x axis and preserves lengths |
| NodeExt.RotYProperties | Sources/VRMSceneKit/Extensions/SCNNode+.swift:67-77 | the y rotation fixes the y axis and preserves lengths |
| NodeExt.RotZProperties | Sources/VRMSceneKit/Extensions/SCNNode+.swift:78-88 | the z rotation fixes the z axis and preserves lengths |
| NodeExt.RestPoseIdentity | Sources/VRMSceneKit/Extensions/SCNNode+.swift:47-98 | zero angles give identity rotations, and zero translation, zero angles and unit scale give the identity TRS matrix |
| NodeExt.TransformPointAtRest | Sources/VRMSceneKit/Extensions/SCNNode+.swift:15-27 | when node and parent are both at rest, `localToWorldMatrix` is the identity and `transformPoint` moves nothing |
| NodeExt.LocalToWorldTwoLevels | Sources/VRMSceneKit/Extensions/SCNNode+.swift:15-17 | `localToWorldMatrix` depends only on the node and its parent, whatever lies above them |
| NodeExt.InverseTransformRoundTrip | Sources/VRMSceneKit/Extensions/SCNNode+.swift:20-34 | when the inverted matrix is an affine inverse, `inverseTransformPoint` undoes `transformPoint` |
| SceneGraph.PreorderParents | Sources/VRMSceneKit/CustomType/VRMSpringBone.swift:127-143 | in the order `setupRecursive` visits a subtree, every node after the first comes after its parent |
| ColliderGroups.MapColliders | Sources/VRMSceneKit/CustomType/VRMSpringBoneColliderGroup.swift:18 | the group gets one collider per collider of the document |
| ColliderGroups.MapCollidersPointwise | Sources/VRMSceneKit/CustomType/VRMSpringBoneColliderGroup.swift:21-29 | each collider keeps its position in the list and its radius, and gets its offset converted to a SceneKit vector |
| ColliderGroups.MakeGroup | Sources/VRMSceneKit/CustomType/VRMSpringBoneColliderGroup.swift:16-19 | the group is built exactly when the node lookup succeeds; otherwise the lookup's error is passed on; a built group has the looked-up node and one collider per document collider |
| ColliderGroups.MakeGroupColliders | Sources/VRMSceneKit/CustomType/VRMSpringBoneColliderGroup.swift:16-29 | a built group's colliders carry the converted offsets and radii of the document's colliders, in order |
| Timers.Delta | Sources/VRMSceneKit/Helper/Timer.swift:16-23 | the first call (no last time yet) returns 0; every later call returns the time since the previous call |
| Timers.Deltas | Sources/VRMSceneKit/Helper/Timer.swift:16-23 | a run of calls yields one delta per call |
| Timers.DeltasAt | Sources/VRMSceneKit/Helper/Timer.swift:16-23 | call k measures from the time of call k - 1, or from the starting value for the first call |
| Timers.DeltasTelescope | Sources/VRMSceneKit/Helper/Timer.swift:16-23 | after a started timer, the deltas of nonzero times add up to the last time minus the starting value |
| Timers.FreshTimerTotal | Sources/VRMSceneKit/Helper/Timer.swift:12-23 | a fresh timer's first delta is 0, and its deltas add up to the last time minus the first |
| Timers.Timer.constructor | Sources/VRMSceneKit/Helper/Timer.swift:12-14 | a new timer has no last update time (0) |
| Timers.Timer.DeltaTime | Sources/VRMSceneKit/Helper/Timer.swift:16-23 | `deltaTime(updateAtTime:)` returns `Delta` of the stored and the given time, and stores the given time |
| BlendShapes.Bindings | Sources/VRMSceneKit/CustomType/VRMNode.swift:34-40 | `compactMap` over the binds yields at most one binding per bind |
| BlendShapes.BindingsAllPresent | Sources/VRMSceneKit/CustomType/VRMNode.swift:34-40 | when every bind's mesh exists, there is one binding per bind, in order, with that mesh, index and weight |
| BlendShapes.BindingsAllMissing | Sources/VRMSceneKit/CustomType/VRMNode.swift:34-40 | when no bind's mesh exists, there are no bindings |
| BlendShapes.MakeClip | Sources/VRMSceneKit/CustomType/VRMNode.swift:33-45 | a clip keeps the group's name, preset and binary flag, and a group without binds gives a clip without values |
| BlendShapes.Keys | Sources/VRMSceneKit/CustomType/VRMNode.swift:31-49 | one clip key per blend-shape group, in order |
| BlendShapes.ClipsSnoc | Sources/VRMSceneKit/CustomType/VRMNode.swift:46-48 | `reduce(into:)` stores each new clip under its key, replacing any earlier clip with that key |
| BlendShapes.ClipsDomain | Sources/VRMSceneKit/CustomType/VRMNode.swift:31-49 | the clip map's keys are exactly the keys of the groups |
| BlendShapes.ClipsLastWins | Sources/VRMSceneKit/CustomType/VRMNode.swift:31-49 | the map stores, under each key, the clip of the last group with that key |
| BlendShapes.ApplyPrimitives | Sources/VRMSceneKit/CustomType/VRMNode.swift:61-64 | the inner loop never adds or removes a morpher, and no primitives means no change |
| BlendShapes.ApplyPrimitivesSnoc | Sources/VRMSceneKit/CustomType/VRMNode.swift:61-64 | each primitive with a morpher gets its target weight set, and primitives without one are skipped |
| BlendShapes.ApplyPrimitivesAt | Sources/VRMSceneKit/CustomType/VRMNode.swift:61-64 | after the loop, a weight equals the written value exactly when its morpher is among the primitives and its target is the binding's index; every other weight is unchanged |
| BlendShapes.ApplyBindings | Sources/VRMSceneKit/CustomType/VRMNode.swift:59-65 | the binding loop never adds or removes a morpher, and no bindings means no change |
| BlendShapes.ApplyBindingsSnoc | Sources/VRMSceneKit/CustomType/VRMNode.swift:59-65 | each binding writes `weight / 100 * value` to its target on every primitive of its mesh |
| BlendShapes.ApplyBindingsUntouched | Sources/VRMSceneKit/CustomType/VRMNode.swift:59-65 | later bindings that do not target a weight leave it as the earlier ones set it |
| BlendShapes.Round | Sources/VRMSceneKit/CustomType/VRMNode.swift:58 | `round` gives an integer within 1/2 of its argument, halves going away from zero |
| BlendShapes.SetBlendShapeWeights | Sources/VRMSceneKit/CustomType/VRMNode.swift:56-66 | setting an unknown key changes nothing, and setting never adds or removes a morpher |
| BlendShapes.FirstMorpher | Sources/VRMSceneKit/CustomType/VRMNode.swift:75 | the first primitive with a morpher: it has one, and every primitive before it has none; none exactly when no primitive has one |
| BlendShapes.BlendShapeWeight | Sources/VRMSceneKit/CustomType/VRMNode.swift:72-77 | reading returns 0 for an unknown key, a clip without bindings, or a mesh without morphers |
| BlendShapes.SetThenRead | Sources/VRMSceneKit/CustomType/VRMNode.swift:56-77 | after setting a value, reading the same key returns the first binding's weight / 100 times that value (rounded for binary clips), or 0 when its mesh has no morpher |
| BlendShapes.UnknownKey | Sources/VRMSceneKit/CustomType/VRMNode.swift:56-77 | setting an unknown key changes no weight, and reading it gives 0 |
| BlendShapes.VRMNode.constructor | Sources/VRMSceneKit/CustomType/VRMNode.swift:16-21 | a new node has no blend-shape clips |
| BlendShapes.VRMNode.SetUpBlendShapes | Sources/VRMSceneKit/CustomType/VRMNode.swift:31-49 | the clip map becomes the fold of the groups' clips, with the domain and last-wins properties above |
| BlendShapes.VRMNode.SetBlendShape | Sources/VRMSceneKit/CustomType/VRMNode.swift:56-66 | the morpher weights become `SetBlendShapeWeights` of the old weights |
| BlendShapes.VRMNode.BlendShape | Sources/VRMSceneKit/CustomType/VRMNode.swift:72-77 | reading an unknown key returns 0 |
| SpringBoneLogic.InitialStates | Sources/VRMSceneKit/CustomType/VRMSpringBone.swift:127-137 | `setupRecursive` creates, for each node it visits, the initial state built from that node's child position |
| SpringBoneLogic.Step | Sources/VRMSceneKit/CustomType/VRMSpringBone.swift:51-71 | one update keeps the node tree and changes only the bone's two tails |
| SpringBoneLogic.StepAll | Sources/VRMSceneKit/CustomType/VRMSpringBone.swift:173-180 | the frame loop yields one new state per bone and keeps the node tree |
| SpringBoneLogic.ReprojectOnSphere | Sources/VRMSceneKit/CustomType/VRMSpringBone.swift:60-61 | the length constraint puts the tail exactly one bone length from the head, except for a target at the head itself |
| SpringBoneLogic.CollideOnSphere | Sources/VRMSceneKit/CustomType/VRMSpringBone.swift:78-91 | collision leaves the tail untouched, or on the bone-length sphere, or at the head; a tail that starts on the sphere stays on it or at the head |
| SpringBoneLogic.CollideNoHit | Sources/VRMSceneKit/CustomType/VRMSpringBone.swift:78-91 | a tail that touches no inflated collider sphere is not moved |
| SpringBoneLogic.AxisTimesLength | Sources/VRMSceneKit/CustomType/VRMSpringBone.swift:29-44 | `boneAxis * length` gives back the local child position |
| SpringBoneLogic.InitialStateProperties | Sources/VRMSceneKit/CustomType/VRMSpringBone.swift:37-45 | a new bone's prevTail equals its currentTail; it keeps the node's orientation; its length is the child position's positive length and its axis is a unit vector; its rest tail is the world child position |
| SpringBoneLogic.LeafChildProperties | Sources/VRMSceneKit/CustomType/VRMSpringBone.swift:128-131 | a leaf's synthetic child lies 0.07 beyond the node, in the same direction as the parent-to-node direction |
| SpringBoneLogic.RestIsFixedPoint | Sources/VRMSceneKit/CustomType/VRMSpringBone.swift:51-71 | with no stiffness and no external force, a resting tail on the bone sphere and clear of every collider stays where it is |
| SpringBoneLogic.ApplyRotationAlongAxis | Sources/VRMSceneKit/CustomType/VRMSpringBone.swift:73-76 | a tail along the rest direction gives the parent rotation times the local rotation, unchanged |
| SpringBoneLogic.StepProperties | Sources/VRMSceneKit/CustomType/VRMSpringBone.swift:51-71 | without a center, one update makes the old current tail the previous one; the new tail lies on the bone sphere (or at the head); only the bone's own node changes, and only in its world orientation |
| SpringBoneLogic.StepWithCenter | Sources/VRMSceneKit/CustomType/VRMSpringBone.swift:51-71 | with or without a center, one update stores the current tail, converted to world space and back, as the previous tail and the new tail, converted into the center's space, as the current one; in world space the new tail lies on the bone sphere (or at the head); only the bone's own node changes, and only in its world orientation |
| SpringBoneLogic.StepAllKeepsBones | Sources/VRMSceneKit/CustomType/VRMSpringBone.swift:173-180 | the frame loop gives every bone the hit radius and changes nothing else about it but its tails |
| SpringBoneLogic.BoneLogic.constructor | Sources/VRMSceneKit/CustomType/VRMSpringBone.swift:37-45 | a new logic holds the initial state of its node |
| SpringBoneLogic.BoneLogic.Collision | Sources/VRMSceneKit/CustomType/VRMSpringBone.swift:78-91 | the collider loop returns `Collide`, with the properties above |
| SpringBoneLogic.BoneLogic.Update | Sources/VRMSceneKit/CustomType/VRMSpringBone.swift:51-71 | the logic's new state and the node arena are those of `Step` |
| SpringBoneChain.Restore | Sources/VRMSceneKit/CustomType/VRMSpringBone.swift:105-107 | every saved node gets its saved orientation back, and every other node is unchanged |
| SpringBoneChain.RestoreKeepsTree | Sources/VRMSceneKit/CustomType/VRMSpringBone.swift:105-107 | restoring rotations changes only orientations and keeps the tree well formed |
| SpringBoneChain.RestoreRotations | Sources/VRMSceneKit/CustomType/VRMSpringBone.swift:105-107 | the loop over the saved map leaves the arena equal to `Restore` |
| SpringBoneChain.RecordContents | Sources/VRMSceneKit/CustomType/VRMSpringBone.swift:113-115 | recording children adds exactly those nodes, stores their current orientations, and keeps the other entries |
| SpringBoneChain.SnapshotContents | Sources/VRMSceneKit/CustomType/VRMSpringBone.swift:112-115 | the saved map holds exactly the direct children of the root bones, with their orientations |
| SpringBoneChain.PreorderListSnoc | Sources/VRMSceneKit/CustomType/VRMSpringBone.swift:140-142 | the children are set up one after the other, each child's whole subtree before the next child |
| SpringBoneChain.ForestSnoc | Sources/VRMSceneKit/CustomType/VRMSpringBone.swift:112-117 | the root bones are set up in order, each one's whole subtree before the next root |
| SpringBoneChain.SetupRecursive | Sources/VRMSceneKit/CustomType/VRMSpringBone.swift:127-143 | creates distinct fresh logics, whose states are the initial states of the subtree's nodes in visiting order |
| SpringBoneChain.SetupRoots | Sources/VRMSceneKit/CustomType/VRMSpringBone.swift:112-117 | returns the saved children's rotations and distinct fresh logics with the initial states of all root subtrees, in order |
| SpringBoneChain.RecordChildren | Sources/VRMSceneKit/CustomType/VRMSpringBone.swift:113-115 | the inner loop over `traverse` (the node's direct children, in order: `SCNNode+.swift` lines 36-38) records each child's orientation |
| SpringBoneChain.SetupStates | Sources/VRMSceneKit/CustomType/VRMSpringBone.swift:110-117 | the setup gives one state per node of the root subtrees, in visiting order |
| SpringBoneChain.StepLogic | Sources/VRMSceneKit/CustomType/VRMSpringBone.swift:173-180 | one loop turn sets the bone's radius and steps it, and leaves every other logic unchanged |
| SpringBoneChain.UpdateAll | Sources/VRMSceneKit/CustomType/VRMSpringBone.swift:173-180 | the frame loop leaves the logics and the arena equal to `StepAll` of the old ones |
| SpringBoneChain.StepAllPrefix | Sources/VRMSceneKit/CustomType/VRMSpringBone.swift:173-180 | a bone's result does not depend on the bones after it in the list |
| SpringBoneChain.ResetRotationsContents | Sources/VRMSceneKit/CustomType/VRMSpringBone.swift:121-125 | exactly the bones' nodes get the identity orientation; nothing else changes |
| SpringBoneChain.ResetRotationsIdempotent | Sources/VRMSceneKit/CustomType/VRMSpringBone.swift:121-125 | resetting twice is resetting once |
| SpringBoneChain.ResetRotationsKeepsTree | Sources/VRMSceneKit/CustomType/VRMSpringBone.swift:121-125 | resetting rotations keeps the tree well formed |
| SpringBoneChain.SetLocalRotationsIdentity | Sources/VRMSceneKit/CustomType/VRMSpringBone.swift:121-125 | the loop leaves the arena equal to `ResetRotations` over the bones' nodes |
| SpringBones.GroupColliders | Sources/VRMSceneKit/CustomType/VRMSpringBone.swift:163-167 | one world collider per collider of the group |
| SpringBones.GroupCollidersAt | Sources/VRMSceneKit/CustomType/VRMSpringBone.swift:163-167 | each world collider is at the group node's `transformPoint` of its offset and keeps its radius |
| SpringBones.ColliderList | Sources/VRMSceneKit/CustomType/VRMSpringBone.swift:160-170 | the collider list has as many entries as the groups have colliders |
| SpringBones.ColliderListAt | Sources/VRMSceneKit/CustomType/VRMSpringBone.swift:160-170 | collider k of group j is at position (colliders of the earlier groups) + k, transformed by its group's node |
| SpringBones.ColliderListEmpty | Sources/VRMSceneKit/CustomType/VRMSpringBone.swift:160-161 | no collider groups give an empty collider list |
| SpringBones.FrameStart | Sources/VRMSceneKit/CustomType/VRMSpringBone.swift:154-159 | the state at the start of a frame keeps the tree well formed, and every bone can then be stepped |
| SpringBones.FrameStartCases | Sources/VRMSceneKit/CustomType/VRMSpringBone.swift:154-159 | a frame with logics, or without roots, starts as it is; a frame without logics but with roots runs `setup()` first |
| SpringBones.VRMSpringBone.constructor | Sources/VRMSceneKit/CustomType/VRMSpringBone.swift:14-24 | the defaults are stiffness 1, gravity 0 along (0, -1, 0), drag 0.4 and hit radius 0.02, with no center, roots, saved rotations, groups, logics or colliders |
| SpringBones.VRMSpringBone.Setup | Sources/VRMSceneKit/CustomType/VRMSpringBone.swift:100-119 | without roots nothing changes. With roots: the saved rotations are restored (unless forced or none are saved); the root children's rotations are saved; the logics become fresh ones with the initial states of the root subtrees |
| SpringBones.VRMSpringBone.ResetArena | Sources/VRMSceneKit/CustomType/VRMSpringBone.swift:102-109 | restores the saved rotations unless forced or none are saved, then empties the map |
| SpringBones.VRMSpringBone.SetLocalRotationsIdentity | Sources/VRMSceneKit/CustomType/VRMSpringBone.swift:121-125 | every bone's node gets the identity orientation |
| SpringBones.VRMSpringBone.CollectColliders | Sources/VRMSceneKit/CustomType/VRMSpringBone.swift:160-170 | the collider list becomes the world colliders of every group, in order |
| SpringBones.VRMSpringBone.Update | Sources/VRMSceneKit/CustomType/VRMSpringBone.swift:152-181 | with no logics and no roots nothing changes; otherwise setup runs when there are no logics, then every bone steps with stiffness and gravity scaled by the frame time; the entity stays valid |
| SpringBones.VRMSpringBone.Prepare | Sources/VRMSceneKit/CustomType/VRMSpringBone.swift:154-159 | the arena and logics become `FrameStart`; existing logics and saved rotations are kept |
| SpringBones.VRMSpringBone.Advance | Sources/VRMSceneKit/CustomType/VRMSpringBone.swift:160-180 | the collider list is rebuilt, and the logics and arena become `StepAll` with stiffness x seconds and gravity direction x (power x seconds) |
| ExampleMath.Replacing | Example/SCNMathExtensions.swift:267-273 | each supplied component is substituted, and each omitted component is kept |
| ExampleMath.Replace | Example/SCNMathExtensions.swift:262-266 | the mutating `replace` leaves the vector equal to `replacing` |
| ExampleMath.ReplacingNothing | Example/SCNMathExtensions.swift:267-273 | supplying nothing changes nothing |
| ExampleMath.ReplacingIdempotent | Example/SCNMathExtensions.swift:267-273 | replacing twice with the same components is replacing once |
| ExampleMath.ReplacingAll | Example/SCNMathExtensions.swift:267-273 | supplying every component gives the supplied vector |
| ExampleMath.Invert | Example/SCNMathExtensions.swift:216-222 | the mutating `invert` leaves the vector equal to `inverted` |
| ExampleMath.InvertedProperties | Example/SCNMathExtensions.swift:216-219 | `inverted` is scaling by -1, undoes itself, and adds up to zero with its input |
| ExampleMath.MultiplyPointIsMulPoint | Example/SCNMathExtensions.swift:475-488 | the example's `multiplyPoint` is the library's `matrix * point`: the identity moves nothing, and an affine matrix adds its translation to the linear part |
| ExampleMath.SimdHelpersAgree | Example/SCNMathExtensions.swift:137-140 | the simd `normalized()` and scalar `divided(by:)` agree with the library's `normalized` and `/` |
| ExampleMath.ExampleFromToAgrees | Example/SCNMathExtensions.swift:308-324 | the example's shortest-arc quaternion equals the library's in all three branches |
| ExampleMath.ExampleFromToUnit | Example/SCNMathExtensions.swift:308-324 | outside the two special branches, the example's quaternion has norm 1 |
| ExampleSpringBones.TransformEqualsSameNode | Example/VRMSpringBone.swift:18-24 | two wrappers of the same node are equal, and the hash equality is reflexive, symmetric and transitive |
| ExampleSpringBones.GetChildren | Example/VRMSpringBone.swift:141-147 | returns one wrapper per child, for the node's children in order |
| ExampleSpringBones.ReferenceSettled | Example/VRMSpringBone.swift:208-214 | once the reference time is set, later updates never change it |
| ExampleSpringBones.ReferenceZeros | Example/VRMSpringBone.swift:208-214 | updates at time 0 leave the reference time unset |
| ExampleSpringBones.ReferenceFirstNonzero | Example/VRMSpringBone.swift:208-214 | the reference time is the first nonzero update time, so every later `deltaTime` measures from that first frame |
| ExampleSpringBones.Time.constructor | Example/VRMSpringBone.swift:205-216 | a new clock has reference time 0 and delta 0 |
| ExampleSpringBones.Time.Update | Example/VRMSpringBone.swift:208-214 | an update sets the reference time only when unset, and the delta becomes the time since that reference |
| ExampleSpringBones.InverseTransformPointIsLocal | Example/VRMSpringBone.swift:255-275 | a node whose world and local matrices are the same translation t sends a point to world space and back moved by 2t, so a nonzero t never gives the point back |
| ExampleSpringBones.VRMSpringBone.constructor | Example/VRMSpringBone.swift:27-37 | the constant tuning values are stiffness 1, gravity 0 along (0, -1, 0), drag 0.4, hit radius 0.02 and no collider groups, and there is nothing to simulate yet |
| ExampleSpringBones.VRMSpringBone.Setup | Example/VRMSpringBone.swift:114-133 | as the library's `setup`, with points mapped through the SceneKit transforms |
| ExampleSpringBones.VRMSpringBone.ResetArena | Example/VRMSpringBone.swift:116-123 | restores the saved rotations unless forced or none are saved, then empties the map |
| ExampleSpringBones.VRMSpringBone.SetLocalRotationsIdentity | Example/VRMSpringBone.swift:135-139 | every bone's node gets the identity orientation |
| ExampleSpringBones.VRMSpringBone.LateUpdate | Example/VRMSpringBone.swift:174-202 | the frame of the library's `update`: the collider list is empty, and every bone steps with stiffness `deltaTime`, drag 0.4, no external force and hit radius 0.02 |
| ExampleSpringBones.VRMSpringBone.Prepare | Example/VRMSpringBone.swift:175-180 | the arena and logics become `FrameStart` |
| ExampleSpringBones.VRMSpringBone.Advance | Example/VRMSpringBone.swift:181-201 | the logics and arena become `StepAll` with the constant tuning values and the clock's `deltaTime` |

## Left out

- Floating point is not modelled.
  - Every quantity is an exact real.
  - `SCNFloat`/`Float`/`CGFloat` rounding, `TimeInterval` to `SCNFloat` conversion, infinities and NaN are not modelled.
- Numerics.Recip: `1 / 0` is infinity in the source and 0 here.
  - So a zero-length direction normalizes to the zero vector instead of NaN.
  - The properties of normalization, re-projection and the shortest-arc quaternion are therefore stated for nonzero inputs.
  - The source likewise creates a bone for a zero child position, with NaN in its axis.
- The foreign routines are parameters of the model, with only the facts of `Platform.Valid` assumed about them:
  - `sqrtf`/`simd.length`, `sinf`/`cosf`;
  - `SCNMatrix4Mult`, `SCNMatrix4Invert`, `SCNMatrix4Translate`, `SCNMatrix4Scale`;
  - GLKit quaternion multiply/rotate/angle-axis/normalize, and the quaternion `*` operators built on them.
- The type conversions (`toSimd`, `toGLK`, `toSCN`) are the identity. The SceneKit+ `translated`/`scaled` helpers are the foreign matrix routines.
- Scene graph pose propagation is not modelled.
  - A node record holds its local pose, its world position, orientation and matrices, and its Euler angles side by side.
  - Writing `orientation` or `worldOrientation` does not recompute the world pose of the node or its descendants.
  - Writing `orientation` does not recompute its Euler angles, as SceneKit would.
- Node identity is modelled as an index into the arena. Dictionaries keyed by nodes (or by the example's `Transform`) are maps keyed by index.
- ExampleSpringBones.TransformEqualsSameNode: it only shows that wrappers of the same node are equal. Distinct nodes whose hashes collide also compare equal in the source, and the model does not capture that.
- Iteration order over `initialLocalRotationMap` is not modelled: its keys are distinct nodes, so the restore loop's result does not depend on it.
- SpringBones.VRMSpringBone.Setup: requires a center whenever there are root bones.
  - In the source, `center` is an implicitly unwrapped optional passed to a non-optional parameter.
  - Setup with roots but no center traps, and the model excludes that case instead of modelling the crash.
  - The same holds for the force-unwrapped `parent!` in `localToWorldMatrix` and in a leaf's setup, which the model requires.
- BlendShapes.VRMNode.SetUpBlendShapes: requires every bind's mesh index to be within the document's mesh list (`BindsInRange`). The source subscripts `meshes[$0.mesh]` without a bounds check, so an out-of-range index traps; the model excludes that case instead of modelling the crash. A mesh entry that is nil is modelled: its bind is dropped.
- ExampleSpringBones.VRMSpringBone.Setup: requires a center whenever there are root bones, through `Valid`.
  - The example's `center` is an implicitly unwrapped optional passed to the non-optional `center` of `setupRecursive`, so setup with roots and no center traps.
  - A leaf bone's setup force-unwraps `parent.parent`; the model requires every leaf of the roots' subtrees to have a parent (`RootsOk`) instead of modelling that crash.
- ExampleSpringBones.VRMSpringBone.LateUpdate: requires `Valid`, and so a center whenever there are root bones. Its lazy `setup()` traps in the source without one, for the reasons given for `Setup`.
- SpringBones.VRMSpringBone.Update: requires the arena to be a well-formed forest. Each child is numbered after its parent, and each node lists its children once. This stands for SceneKit's own tree invariant.
- `awake()` is `setup(false)` and has no member of its own. `GKEntity` and the `super.update` call are not modelled. The same goes for the read-only `comment` field and the logic's `head`/`tail` getters, which the simulation never reads.
- BlendShapes.SetThenRead: it is stated for clips whose later bindings do not target the first binding's mesh and index. When they do, the later binding's value is the one read back; `ApplyBindingsUntouched` covers the general case.
- BlendShapes.VRMNode.BlendShape: its own contract gives only the unknown-key case. The full reading is stated by `BlendShapeWeight` and `SetThenRead`.
- Blend-shape clip keys are a parameter of the model (`BlendShapeKey` is defined in a file this model does not cover), and so is the bind list of the document. `setUpHumanoid`, `Humanoid`, `init(coder:)` and the morpher's SceneKit internals are not modelled.
- The scene loader's `node(withNodeIndex:)` and `createSCNVector3` are parameters of the collider-group model.
- Timers.DeltasTelescope: it is stated for runs of nonzero times. A call at time 0 makes the next call a first call again, which `DeltasAt` covers.
- SceneKitExt.FromToUnit: it covers only the generic branch. The special branches are covered by `FromToSameDirection` and `FromToOppositeDirection`.
- The example's collider group is never constructed, because its `colliderGroups` is a constant empty list.
  - So `LateUpdate` always rebuilds an empty collider list.
  - This covers the `MonoBehaviour` and `VRMSpringBoneColliderGroup` classes and the collider loop.
- The example's `Time.shared` singleton is passed to `LateUpdate` as a `Time` object.
- The example's `lossyScale` returns the local scale, as written.
- The example's math extensions that the solver does not use are not modelled:
  - mixing, projection, reflection, refraction;
  - the quaternion angle/axis, delta and inverse;
  - the matrix initializers;
  - the finite/NaN flags and the equality operators.
- The SCNNode extension repeated in the example's math file is the library's, and is modelled once by `NodeExt`.
- `SCNMaterial.default`, `String: Error`, `SCNNode+UnityTransform.swift`, the example's view controller and the tests are not part of this model.
