# Building viewer core, modelled in Dafny

The viewer shows a multi-level building (a teapot stands in for it) as a
turntable of 60 frames. The user drags to rotate, scrolls to zoom between
two levels, right-drags to pan while zoomed in, and hovers or clicks meshes
to select a sub-structure. This project models the plain logic under the
rendering, one Dafny module per source file:

- `navigation.dfy` (module `Navigation`, from `src/App.tsx`). The class
  `Navigator` holds the component's navigation state: the frame, the zoom,
  the pan, the drag anchors `xPosRef`/`yPosRef`, the active entity, and
  which move listener is attached. Its methods are the event handlers.
  `handlePan` closes over a `pan` that the handlers capture only when
  `zoom` changes (effect dependencies `[zoom]`). The field `handlerPan`
  models that captured value, so every pan move sets the pan to
  `handlerPan` plus the anchor-to-pointer offset.
- `scene_load.dfy` (module `SceneLoad`, from `src/use-load-scene.ts`). The
  scene nodes arrive in traversal order. `Traverse` collects and marks the
  meshes and keeps the last photo-sphere rig, aimed at its `Target` child.
  `ExtractAnimations` steps through the first clip's flat keyframe arrays.
  Numeric components have an opaque type `S`. A read past the end of an
  array is `None`, JavaScript's `undefined`; the `Vector3` and
  `Quaternion` constructors turn it into 0 (1 for a quaternion's `w`), so
  a decoded keyframe always holds numbers.
- `virtual_scene.dfy` (module `VirtualScene`, from `src/VirtualScene.tsx`).
  It covers the camera and animation lookup with its `'A'` default, and the
  per-frame placement of the view camera, where an animation wins over the
  static camera. It also covers the visible/clickable/highlighted rule of
  the render map and the hover picking of `handleMouseMove`. The raycast
  hit list, nearest first, is an input.
- `frame_images.dfy` (module `FrameImages`, from `src/use-load-images.ts`).
  It builds the frame URLs `url + "/Tea_" + String(i).padStart(4, '0') +
  ".jpg"` and holds the loading flag.
- `strings.dfy` and `wrappers.dfy` hold helpers: `includes`, `String(n)`,
  `Option` and `Result`.

Two behaviours of the code are worth stating up front:

- **Pan moves do not accumulate across drags.** `handlePan` reads the
  captured `pan`, and in every ordinary session that value is the origin
  (see `Navigator.Settled`). So each pan move sets the pan to exactly
  anchor minus pointer, and a new pan drag forgets the previous drag's pan.
- **No entity resolution from node names.** No code in the repository
  derives entity ids or parents from node names. The model therefore takes
  `userData.parent` and `userData._ID` as given. It also takes the
  per-entity camera and animation maps read by `VirtualScene` as given,
  because `useLoadScene` returns a single `camera`/`animation`, not maps.

## Model

| member | source | states |
|---|---|---|
| `Navigation.NextFrame` | src/App.tsx:28 | A forward step from a frame in 0..59 stays in range and is (f + 1) mod 60, so 59 wraps to 0 |
| `Navigation.PrevFrame` | src/App.tsx:31 | A backward step from a frame in 0..59 stays in range and is (f + 59) mod 60, so 0 wraps to 59 |
| `Navigation.RotateStep` | src/App.tsx:22-34 | With no anchor, the anchor becomes x and the frame does not move. A pointer more than 5 px left of the anchor steps forward one frame; more than 5 px right steps back one frame; either step moves the anchor to x. Inside the band, nothing changes. The frame stays in 0..59 |
| `Navigation.RotateMovesInRange` | src/App.tsx:14-15 | After any sequence of rotate moves from a frame in 0..59, the frame is still in 0..59 |
| `Navigation.PanStep` | src/App.tsx:36-44 | With both anchors set, the pan becomes the captured base plus (anchorX - x, anchorY - y). If either anchor is unset, the pan is unchanged |
| `Navigation.PanMovesLastWins` | src/App.tsx:36-44 | After a run of pan moves, the pan is the base plus the offset of the last pointer position only; moves do not add up. With an unset anchor, the pan never changes |
| `Navigation.Navigator.constructor` | src/App.tsx:14-20 | Initial state: frame 0, zoom 1, pan (0,0), no anchors, no listener, no active entity |
| `Navigation.Navigator.HandleRotate` | src/App.tsx:22-34 | Frame and x anchor become RotateStep of the old ones. Everything else is unchanged, and the frame stays in 0..59 |
| `Navigation.Navigator.HandlePan` | src/App.tsx:36-44 | The pan becomes PanStep of the captured pan. The anchors are not reset. In a settled session the pan is exactly anchor minus pointer |
| `Navigation.Navigator.MouseMove` | src/App.tsx:53-55 | Runs the rotate or the pan handler, whichever is attached. With no listener, nothing changes |
| `Navigation.Navigator.MouseDown` | src/App.tsx:46-57 | Right button while zoom != 1 enters pan mode and records both anchors. Any other press enters rotate mode and leaves the anchors as they are. Pan mode implies zoom 2 |
| `Navigation.Navigator.MouseUp` | src/App.tsx:59-62 | Returns to idle and changes nothing else, anchors included. It is therefore idempotent, also with no prior press |
| `Navigation.Navigator.Wheel` | src/App.tsx:64-84 | deltaY > 50 sets zoom 1 and pan (0,0). deltaY < -50 sets zoom 2 and keeps the pan. Anything in between is a no-op. Zoom stays in {1,2}. The captured pan is refreshed only when zoom changes |
| `Navigation.Navigator.SetActiveEntity` | src/App.tsx:20 | The active entity becomes the reported id; no navigation state changes |
| `Strings.Contains` | src/use-load-scene.ts:85 | `includes` holds iff the needle occurs at some index of the string |
| `Strings.Decimal` | src/use-load-images.ts:24 | `String(i)` is at least one digit, all decimal digits, with no leading zero unless i is 0 |
| `Strings.ValueOfDecimal` | src/use-load-images.ts:24 | Reading the digits of `String(i)` back gives i |
| `SceneLoad.IsMesh` | src/use-load-scene.ts:57-59 | `_isMesh`: the node's `isMesh` flag |
| `SceneLoad.IsCamera` | src/use-load-scene.ts:61-63 | `_isCamera`: the node's `isCamera` flag |
| `SceneLoad.MarkMesh` | src/use-load-scene.ts:82-97 | A mesh named with `SUR` gets the black material and userData exactly `{locked: true}`. Any other mesh gets the white material, colour 0x00ff00, and keeps its userData. Identity, name, placement, field of view and children are kept |
| `SceneLoad.IsRig` | src/use-load-scene.ts:100 | A node is taken as the rig iff it is not a mesh, is a camera and its name contains `360` |
| `SceneLoad.FindTarget` | src/use-load-scene.ts:103 | Returns the first child whose name contains `Target`, or None iff there is no such child |
| `SceneLoad.SetUpRig` | src/use-load-scene.ts:101-106 | The rig's userData becomes `{lookAt: p}`, where p is the position of its first child named with `Target`. With no such child the userData is untouched. Every other field of the rig is kept |
| `SceneLoad.LastRig` | src/use-load-scene.ts:100-101 | The camera is the set-up form of the last node, in traversal order, that is a non-mesh camera named with `360`. It is None iff there is none |
| `SceneLoad.Meshes` | src/use-load-scene.ts:82-99 | The collected meshes, in traversal order: never more than the nodes, all of them when every node is a mesh, none when no node is |
| `SceneLoad.MeshesAppend` | src/use-load-scene.ts:80-99 | Collecting meshes over a concatenated traversal gives the concatenation of the two collections |
| `SceneLoad.MeshesAt` | src/use-load-scene.ts:82-99 | Every mesh node is collected, marked, at the position equal to the number of meshes before it in traversal order |
| `SceneLoad.MeshesOnly` | src/use-load-scene.ts:82-99 | Only mesh nodes are collected. A collected mesh named with `SUR` has userData exactly `{locked: true}`; every other one has colour 0x00ff00 |
| `SceneLoad.Traverse` | src/use-load-scene.ts:80-108 | The traversal loop ends with the model's children equal to the collected meshes and the camera equal to the last rig |
| `SceneLoad.At` | src/use-load-scene.ts:45 | An array read gives the element inside the bounds and `undefined` outside them |
| `SceneLoad.VectorAt` | src/use-load-scene.ts:45 | `new Vector3(v[i], v[i+1], v[i+2])`: each component is its value when that index is in range, and 0 otherwise |
| `SceneLoad.QuaternionAt` | src/use-load-scene.ts:50 | `new Quaternion(q[i], ..., q[i+3])`: each component is its value when that index is in range; otherwise x, y and z are 0 and w is 1 |
| `SceneLoad.ExtractAnimations` | src/use-load-scene.ts:30-55 | Fails when there is no clip or fewer than two tracks. Otherwise, from `animations[0]` only: ceil(len/size) positions from `tracks[0]`, entry j being the vector built from the values at j*size; and ceil(len/size) rotations from `tracks[1]`, entry j being the quaternion built from the values at j*size, in order. Missing components take the constructors' defaults |
| `SceneLoad.LoadScene` | src/use-load-scene.ts:78-113 | Succeeds iff the animation extracts. The result holds the collected meshes, the last rig and the decoded animation |
| `VirtualScene.EntityKey` | src/VirtualScene.tsx:61-62 | `activeEntityId ?? 'A'`: the active entity id, or `'A'` when none is active |
| `VirtualScene.ActiveEntry` | src/VirtualScene.tsx:61-62 | Looks up under the active entity id, or `'A'` when none is active. It is None iff the map is absent or has no such key |
| `VirtualScene.VisibleHits` | src/VirtualScene.tsx:68 | Keeps exactly the visible hits; it is empty iff no hit is visible, and its head is the first visible hit |
| `VirtualScene.Pick` | src/VirtualScene.tsx:67-80 | Only the first visible hit matters. An unlocked one becomes the highlighted uuid, a locked one clears it, and no visible hit clears it |
| `VirtualScene.PickIgnoresCurrent` | src/VirtualScene.tsx:73-77 | The outcome does not depend on the previous highlight: re-hovering the highlighted mesh keeps it |
| `VirtualScene.Picker.constructor` | src/VirtualScene.tsx:54 | Nothing is highlighted initially |
| `VirtualScene.Picker.HandleMouseMove` | src/VirtualScene.tsx:64-81 | The highlighted uuid becomes Pick of the old one and the hits |
| `VirtualScene.IsVisible` | src/VirtualScene.tsx:143 | A mesh is drawn iff it is locked or its parent is the active entity |
| `VirtualScene.RenderMesh` | src/VirtualScene.tsx:139-157 | One mesh of the render map: keyed by its uuid; drawn iff locked or owned by the active entity; clickable iff unlocked and owned, a click reporting `_ID`; highlighted iff hovered; colour the mesh's own when highlighted and 0x000000 otherwise |
| `VirtualScene.Render` | src/VirtualScene.tsx:120-160 | Renders nothing without a camera; otherwise one entry per child, in order. Visible iff locked or parent equals the active entity. Clickable iff unlocked and visible, and a click reports `_ID`. Highlighted iff the uuid is the hovered one, and every other mesh has colour 0x000000 |
| `VirtualScene.AtMostOneHighlighted` | src/VirtualScene.tsx:141 | With distinct uuids, at most one mesh is highlighted |
| `VirtualScene.LockedSurfacesInert` | src/VirtualScene.tsx:142-149 | Every loaded mesh named with `SUR` is drawn whatever entity is active and has no click handler |
| `VirtualScene.ViewCamera.ApplyFrame` | src/VirtualScene.tsx:83-106 | An animation places the camera at keyframe `currentFrame` and overrides the static camera. It fails (throws) when that keyframe or its rotation is missing. Otherwise the static placement is copied; then lookAt turns the camera and a non-zero fov is copied. With neither source, nothing changes |
| `FrameImages.PadStart` | src/use-load-images.ts:24 | The result is max(len, width) long: the input as a suffix behind fill characters only |
| `FrameImages.FramePad` | src/use-load-images.ts:24 | `String(i).padStart(4, '0')` is at least 4 characters: zeros, then the decimal digits of i |
| `FrameImages.FrameUrl` | src/use-load-images.ts:24 | Frame i's URL is the base, `/Tea_`, the padded index and `.jpg`, in that order |
| `FrameImages.FrameUrls` | src/use-load-images.ts:22-25 | Fails (RangeError) iff `total` is negative or at least 2^32; otherwise exactly `total` URLs, the i-th being frame i's URL |
| `FrameImages.FramePadShort` | src/use-load-images.ts:24 | For i < 10000 the padded index has length 4 and is `String(i)` behind leading `'0'`s only |
| `FrameImages.FramePadLong` | src/use-load-images.ts:24 | For i >= 10000 the padded index is `String(i)` itself; padding never truncates |
| `FrameImages.FramePadValue` | src/use-load-images.ts:24 | The padded index still denotes i |
| `FrameImages.FrameUrlInjective` | src/use-load-images.ts:24 | Equal frame URLs come from equal frame indices |
| `FrameImages.FrameUrlsDistinct` | src/use-load-images.ts:22-25 | When generated, the URLs are pairwise distinct |
| `FrameImages.FrameLoader.constructor` | src/use-load-images.ts:17-18 | Starts with no images and loading set |
| `FrameImages.AwaitAll` | src/use-load-images.ts:26 | `await Promise.all(promises)` settles iff every load does, giving the images in order. `loadImage` (lines 3-11) has no `error` listener, so an image that fails never settles, and neither does the whole |
| `FrameImages.FrameLoader.LoadImages` | src/use-load-images.ts:20-31 | When `total` is valid and every frame loads, stores one image per frame URL, in frame order, then clears the flag. For a `total` that `new Array` refuses, or when any frame never loads, nothing changes and loading stays set. The flag is only ever clear once images are set |

## Left out

- Rendering, materials, FBX loading, the network request inside `loadImage` and the React hook lifecycle are left out. The outcome of each URL's request is the parameter `load`: the image, or `None` for an image whose `load` event never fires. Waiting for all of them (`Promise.all`) is modelled by `AwaitAll`.
- Window listener add/remove is modelled as a `Mode` field. The source attaches listeners by function identity and re-registers its handlers on every zoom change. Two cases therefore differ from the model. A second mouse-down without a mouse-up can leave both move listeners attached in the source; the model keeps only the latest mode. A zoom change during a drag leaves, in the source, a listener that later mouse-ups cannot detach; the model detaches it.
- Navigation.Navigator.Wheel: a zoom-out wheel during a pan drag breaks `Settled` in the source too (the pan listener keeps firing at zoom 1). Its contract excludes exactly that event from preserving `Settled`.
- Pointer coordinates, wheel deltas and pan offsets are integers in the model; browsers may report fractional values.
- Camera zoom multiplication, `updateProjectionMatrix`, `forceResize`, `setDefaultCamera`, the camera props of the `<perspectiveCamera>` element, and `_pan` (never called) are float renderer calls on the camera matrix and are left out.
- VirtualScene.ViewCamera.ApplyFrame: `lookAt` is recorded as "facing the target"; the rotation three.js computes from position and target is not modelled.
- The raycast (`raycaster.intersectObjects`) and three.js traversal order are inputs: the hit list nearest first and the node list in traversal order.
- SceneLoad.ExtractAnimations: the value size is a positive integer input. three.js computes it as values per keyframe time. A zero or fractional size, which makes the source loop forever or misbehave, is not modelled.
- FrameImages.FrameUrls: `total` is an integer in the model. A fractional or NaN `total`, which `new Array` also refuses with a `RangeError`, is not modelled; the only caller, `BeautyViewer`, passes its `frames` prop, and the one place that would pass 60 (`src/App.tsx`) has that element commented out.
- A field of view of zero, NaN or `undefined` is `None`; the model does not compute with field-of-view values.
- `src/BeautyViewer.tsx`, `src/Controls.tsx` and `src/listing.ts` are not part of this model: the first two are not mounted, and the last is static data.
- `String(i)` is plain decimal only below 10^21. Frame indices are array indices, so always below 2^32, and the model's decimal form is exact for them.
