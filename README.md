# Model placement and glow override of a 3D scene

This project models the one component with logic of its own in a small
React Three Fiber scene: `Model`, which renders a static GLTF model.
Two parts are modelled:

- **Placement dispatch.** The component maps the model's path to a position,
  a scale and a rotation. It tests the path with three case-sensitive
  substring checks in a fixed order: `stylized_spawn_point`, then `statue`,
  then `stag_and_friends_original`. The first test that succeeds decides.
  A path that matches none of them keeps the identity placement.
- **Glow override.** Only in the third case, the component walks the loaded
  scene graph. On every mesh it enables render layer 1, which the selective
  bloom pass looks at. It also sets the material's emissive colour to
  `#2df169` and its emissive intensity to 2. The nodes are changed in place.

Files:

- `text.dfy` (module `Text`): the `includes` substring test. It is written
  as a left-to-right scan and proved equal to "`sub` occurs at some index".
- `placement.dfy` (module `Placement`): the if/else-if chain as the pure
  function `Place`. The same dispatch is also written as an ordered rule table
  with a first-match function, and the two are proved to agree on every path.
- `scene_graph.dfy` (module `SceneGraph`): scene nodes as a class. A node's
  kind (`isMesh`) and its children are fixed. Its `layers`, `emissive` and
  `emissiveIntensity` fields can change. `ApplyGlow` is the `traverse` walk with
  the glow callback: the node first, then each child's subtree in order.
  `Valid()` states that the nodes form a tree, which three.js guarantees
  because an object has only one parent.
- `model.dfy` (module `ModelComponent`): one evaluation of the component body
  (`Render`), two evaluations in a row (`Rerender`), and the placements of the
  paths the scene actually uses.

Numbers are Dafny `real`s, so the source's constants are exact. All of them
are integers. The emissive colour is an opaque value, the hex string passed to
`emissive.set`. Render layers are a set of layer numbers.

## Model

| member | source | states |
|---|---|---|
| `Text.Includes` | src/components/Model.js:26-32 | the `path.includes(...)` test as a left-to-right scan; its own contract says only that the empty fragment is always included and that a match needs the fragment to fit in the path; `Text.IncludesIffOccurs` characterizes it fully |
| `Text.IncludesIffOccurs` | src/components/Model.js:26-32 | the substring scan succeeds exactly when `sub` occurs at some index of the path (both directions) |
| `Text.IncludesInfix` | src/components/Model.js:26-32 | a path of the form prefix + fragment + suffix passes the test for that fragment |
| `Text.MissingCharExcludes` | src/components/Model.js:26-32 | a path lacking some character of the fragment fails the test for it |
| `Placement.Place` | src/components/Model.js:21-34 | every branch keeps the rotation at (0,0,0), which is never reassigned, and gives a strictly positive scale on all three axes |
| `Placement.FirstMatchWins` | src/components/Model.js:26-34 | when rule k is the first rule whose fragment the path includes, rule k's placement is the result, whatever later rules match |
| `Placement.FirstMatchFallsThrough` | src/components/Model.js:21-34 | a path that no rule matches gets the fallback placement |
| `Placement.PlaceIsFirstMatch` | src/components/Model.js:26-34 | the if/else-if chain equals the ordered rule table (spawn point, statue, stag) with the identity placement as fallback, on every path |
| `Placement.UnmatchedKeepsDefaults` | src/components/Model.js:21-23 | a path with none of the three fragments gets position (0,0,0), scale (1,1,1), rotation (0,0,0) and no glow |
| `Placement.SpawnPointCase` | src/components/Model.js:26-28 | a path with `stylized_spawn_point` gets position (-4,0,0), scale (10,10,10) and no glow, whatever else it contains |
| `Placement.StatueCase` | src/components/Model.js:29-31 | a path with `statue` but not `stylized_spawn_point` gets position (0,6,0), scale (1,1,1) and no glow |
| `Placement.StagCase` | src/components/Model.js:32-34 | a path with `stag_and_friends_original` and neither earlier fragment gets position (10,8,30) and scale (5,5,5) |
| `Placement.GlowOnlyForStag` | src/components/Model.js:26-43 | the glow is applied exactly when the stag test is the first test to succeed |
| `SceneGraph.Override` | src/components/Model.js:38-42 | for a mesh, the result has layer 1 on, keeps every layer that was on and adds no other, has emissive `#2df169` and intensity 2; for any other node, nothing changes |
| `SceneGraph.OverrideIdempotent` | src/components/Model.js:38-42 | running the callback on a node it already visited changes nothing |
| `SceneGraph.Node.ApplyGlow` | src/components/Model.js:37-43 | every node reachable from the root ends with exactly the callback's effect on its previous state: meshes glow and non-meshes keep their state; kinds and children never change |
| `ModelComponent.Render` | src/components/Model.js:16-44 | the result is the dispatch's placement for the path; the scene is rewritten by the glow callback when the placement asks for it, and is left untouched otherwise |
| `ModelComponent.Rerender` | src/components/Model.js:16-44 | evaluating the body twice over the same loaded scene leaves the scene as one evaluation does, so the override is idempotent |
| `ModelComponent.SpawnPointScenario` | src/App.js:98 | `/models/stylized_spawn_point.glb` gets the spawn-point placement |
| `ModelComponent.StatueScenario` | src/App.js:99 | `/models/statue.glb` gets position (0,6,0), unit scale and no glow |
| `ModelComponent.StagScenario` | src/App.js:100 | `/models/stag_and_friends_original.glb` gets position (10,8,30), scale 5 and the glow |
| `ModelComponent.UnknownScenario` | src/components/Model.js:21-23 | `foo.glb` keeps the identity placement |
| `ModelComponent.StatueBeforeStag` | src/components/Model.js:29-34 | the one path `/models/statue_stag_and_friends_original.glb`, which names both the statue and the stag, gets the statue's placement and no glow, because the statue test comes first (the general fact is `Placement.StatueCase`) |

## Left out

- `src/App.js`: the scene composition, lights, ground, post-processing, orbit controls and the parameter panel. It is declarative configuration of third-party components. It contributes only the three paths used by the scenario lemmas.
- `src/components/AnimatedModel.js`: playing the first animation clip is done by the animation library, whose behaviour is not visible here. Its transform is fixed constants, and the position, scale and rotation that `App.js` passes to it are never read.
- GLTF loading and caching (`useGLTF`): the scene is a parameter of `Render`. The loader returns the same cached scene to every evaluation for a path; `Rerender` models this by passing one scene twice. The node constructor stands in for the loader building the graph.
- The returned `<primitive>` element and GPU rendering: `Render` returns the placement that the element would carry.
- Materials as separate, possibly shared objects: the model keeps a mesh's emissive colour and intensity on the node. Two meshes sharing one material would receive the same two writes, so the outcome is the same.
- `SceneGraph.Node.ApplyGlow` assumes that every mesh's material has an emissive colour. In the source, a mesh whose material has none (such as an unlit `MeshBasicMaterial`) or whose `material` is an array makes `emissive.set` throw a TypeError. That mesh has already had layer 1 enabled, and the walk stops there without visiting the nodes after it. The model always completes the walk.
- The three.js `Layers` bitmask (32 layers) is modelled as a set of layer numbers. `Color.set` parsing is not modelled: the colour is the string passed to it.
- `Place` accepts any string, the empty one included, as `path.includes` does.
