# Three-model viewer: a verified model of its gesture and selection core

The viewer shows one 3D model (a glTF scene) in a drawing surface. It lets
the user work on the model with touch:

- one finger rotates it;
- two fingers pan it, pinch-zoom the camera and twist it about the viewing axis;
- a short, still tap picks the part under the finger.

The picked part is highlighted with a copy of its material recoloured in the
selection colour, with a fixed emissive glow. Every other part goes back to the
material recorded at load under its name. When several meshes share a name, the
last of them in traversal order wins, so all of them go back to its material.

A parent component can drive the viewer through a handle with these operations:

- rotate the model about one axis;
- set the zoom;
- reset the view;
- select a part by name;
- change the highlight colour of a part;
- list the part names.

While a model is shown, a frame loop turns it about the vertical axis when
auto-rotation is on. A separate model context holds a reference to one model
group and can set its rotation about an axis, scale it uniformly, or reset both.

The project consists of these modules:

- `Options`: the optional value.
- `Geometry`: touches, vectors, axes, the clamp, the tap classifier and the
  screen-to-clip-space mapping.
- `Materials`: materials and the highlight copy.
- `SceneGraph`: the loaded model's objects, kept as a sequence in traversal
  order. An object's position in the sequence is its identity, and each object
  names its parent by position. This module also holds the load traversal, the
  search for the first mesh by name or in a subtree, and the walk up to a named
  ancestor.
- `Selection`: the material and selection store as a value, with one function
  per operation.
- `Gestures`: the touch interpreter as a state machine over the gesture record,
  the model transform and the camera.
- `Viewer`: the component as a class whose handlers update its fields in
  place. Each handler is proved to change the fields exactly as the matching
  `Selection` or `Gestures` function says.
- `ModelContext`: the provider class over mutable model groups.

## Model

| member | source | states |
|---|---|---|
| Geometry.Vec3.With | components/ThreeModelViewer.tsx:590-596 | setting one axis gives that axis the new value and keeps the other two |
| Geometry.PartialVec3.OrElse | components/ThreeModelViewer.tsx:520-522 | each configured component is used, each missing one takes the default |
| Viewer.CameraHome | components/ThreeModelViewer.tsx:461-466 | each configured camera component is used; a missing x or y is 0 and a missing z is 3 |
| Viewer.InitialRotation | components/ThreeModelViewer.tsx:518-522 | each configured rotation component is used; a missing one is 0 |
| Viewer.ZoomOf | components/ThreeModelViewer.tsx:370-378 | the zoom reference distance is the configured camera distance, or 3 without one; the bounds are the configured ones |
| Geometry.Clamp | components/ThreeModelViewer.tsx:600-603 | the result is never below the lower bound; with ordered bounds it is never above the upper; a value inside the bounds is returned unchanged, one below gives the lower bound, one above gives the upper |
| Geometry.IsTap | components/ThreeModelViewer.tsx:92-106 | a tap lasts less than 300 ms and moves less than 10 px on each axis; with no displacement it is a tap exactly when it lasts less than 300 ms |
| Geometry.TapBySquareRoot | components/ThreeModelViewer.tsx:99-105 | comparing any non-negative square root of the squared displacement with 10 px decides exactly as the squared comparison does |
| Geometry.SquareBelowBound | components/ThreeModelViewer.tsx:102-105 | a squared distance below t² bounds each coordinate difference by t |
| Geometry.NormalizedCoordinates | components/ThreeModelViewer.tsx:84-90 | the screen maps onto [-1, 1] on both axes; the left edge goes to -1 and the right edge to 1; the top goes to 1 and the bottom to -1 |
| Geometry.NormalizedRoundTrip | components/ThreeModelViewer.tsx:84-90 | normalisation is invertible: mapping back gives the original screen point |
| Materials.HighlightEntry | components/ThreeModelViewer.tsx:201-217 | entries of the standard, basic and Phong classes get the selection colour and, when they have an emissive channel, the 0x222222 glow; other entries are left as they are |
| Materials.HighlightSingle | components/ThreeModelViewer.tsx:218-232 | a single material keeps its class; the colour and emissive channels it has are overridden and it gains none |
| Materials.Highlight | components/ThreeModelViewer.tsx:197-233 | an array stays an array of the same length, highlighted entry by entry in order; a single material stays single |
| Materials.HighlightOverrides | components/ThreeModelViewer.tsx:197-233 | highlighting a highlighted material in a new colour equals highlighting the original in that colour |
| Materials.HighlightIdempotent | components/ThreeModelViewer.tsx:197-233 | highlighting twice in one colour equals highlighting once |
| SceneGraph.AncestorNotAfter | components/ThreeModelViewer.tsx:529-542 | in traversal order an ancestor never comes after its descendant |
| SceneGraph.AncestorSameStructure | components/ThreeModelViewer.tsx:153-159 | ancestry does not depend on materials |
| SceneGraph.WellFormedSameStructure | components/ThreeModelViewer.tsx:108-117 | changing materials keeps the objects a tree in traversal order |
| SceneGraph.MeshIndicesBelow | components/ThreeModelViewer.tsx:526-542 | the collected mesh list holds exactly the meshes, each once, in traversal order |
| SceneGraph.MeshNamesBelow | components/ThreeModelViewer.tsx:527-532 | the name list matches the mesh list position for position |
| SceneGraph.LastMeshNamedBelow | components/ThreeModelViewer.tsx:537-540 | the result is the last mesh with the name, and none comes after it; no result means there is no such mesh |
| SceneGraph.OriginalsBelowSpec | components/ThreeModelViewer.tsx:529-542 | the originals map has a key exactly for each mesh name, and each key holds the load-time material of the last mesh with that name |
| SceneGraph.MeshNamesAreKeys | components/ThreeModelViewer.tsx:537-540 | every mesh's name is a key of the originals map |
| SceneGraph.FirstMatch | components/ThreeModelViewer.tsx:235-252 | the result matches, and nothing before it (from the start point) does; no result means nothing matches |
| SceneGraph.FirstMeshNamed | components/ThreeModelViewer.tsx:235-252 | the result is a mesh with the name and no earlier object is one; no result means no mesh has the name |
| SceneGraph.FirstMeshUnder | components/ThreeModelViewer.tsx:168-177 | the result is a mesh in the subtree, at or after its root; no result means the subtree has no mesh |
| SceneGraph.FirstMeshUnderIsFirstOverall | components/ThreeModelViewer.tsx:172-176 | starting the subtree traversal at its root misses no earlier mesh of the subtree |
| SceneGraph.FirstMatchSkips | components/ThreeModelViewer.tsx:172-176 | a search may skip positions that do not match |
| SceneGraph.FirstMatchSameStructure | components/ThreeModelViewer.tsx:235-252 | the search result does not depend on materials |
| SceneGraph.NamedAncestor | components/ThreeModelViewer.tsx:153-159 | the walk ends at the hit object or an ancestor of it, and that object is named or is the root; a named hit object is its own result |
| SceneGraph.NamedAncestorIsNearest | components/ThreeModelViewer.tsx:153-159 | every object passed on the way up is unnamed and has a parent, so the walk stops at the nearest named ancestor, or at the root |
| SceneGraph.NamedAncestorSameStructure | components/ThreeModelViewer.tsx:153-159 | the walk does not depend on materials |
| Selection.RestoreAll | components/ThreeModelViewer.tsx:108-117 | every mesh gets the original stored under its name; other objects, the mesh list, the originals, the selection and the colour are unchanged |
| Selection.LoadedConsistent | components/ThreeModelViewer.tsx:526-549 | right after load the mesh list and the originals map agree with the objects |
| Selection.RestoredStep | components/ThreeModelViewer.tsx:110-116 | one pass of the restore loop restores exactly the next listed mesh |
| Selection.HighlightMesh | components/ThreeModelViewer.tsx:197-233 | only the given mesh changes, and it gets the highlight of its current material in the current colour |
| Selection.Find | components/ThreeModelViewer.tsx:235-252 | succeeds exactly when some mesh has the name, and then gives the first such mesh in traversal order |
| Selection.SelectByName | components/ThreeModelViewer.tsx:629-653 | only the objects and the selection change; the result stays consistent and keeps the structure of the objects |
| Selection.ChangeColor | components/ThreeModelViewer.tsx:655-673 | the colour becomes the given one and otherwise only the objects and the selection change; the result stays consistent and the structure is kept |
| Selection.Resolve | components/ThreeModelViewer.tsx:150-177 | the name is that of the nearest named ancestor of the hit (or the root); the mesh is the first mesh of that object's subtree in traversal order; there is no result exactly when the subtree has no mesh |
| Selection.Pick | components/ThreeModelViewer.tsx:119-195 | the reported name is the selected name; only the objects and the selection change; the result stays consistent and keeps the structure |
| Selection.Choose | components/ThreeModelViewer.tsx:150-193 | after the restore, the reported name is the selected name; only the objects and the selection change; the result stays consistent and keeps the structure |
| Selection.RestoreAllIdempotent | components/ThreeModelViewer.tsx:108-117 | restoring twice equals restoring once |
| Selection.RestoreGivesLoadTimeMaterial | components/ThreeModelViewer.tsx:529-542 | for content descended from a load, a restore gives each mesh the load-time material of the last mesh with its name (itself or a later one), whatever was highlighted since |
| Selection.RestoreAllForgetsHighlights | components/ThreeModelViewer.tsx:108-117 | what a restore leaves does not depend on earlier highlights |
| Selection.SelectByNameSpec | components/ThreeModelViewer.tsx:629-653 | succeeds exactly when some mesh has the name; afterwards the first such mesh carries the highlight of its original and every other mesh carries its original; the name is selected on success and nothing is selected otherwise |
| Selection.SelectForgetsHistory | components/ThreeModelViewer.tsx:629-653 | the outcome of a selection does not depend on what was highlighted or selected before |
| Selection.ChangeColorAfterSelect | components/ThreeModelViewer.tsx:655-673 | recolouring the just-selected name equals selecting it afresh in the new colour |
| Selection.ChangeColorOfSelected | components/ThreeModelViewer.tsx:655-668 | recolouring the selected name keeps the selection and succeeds exactly when a mesh has the name; then the first such mesh gets the highlight of its current material in the new colour and no other object changes; otherwise no object changes |
| Selection.PickRestoresOthers | components/ThreeModelViewer.tsx:119-195 | a miss selects nothing and leaves every mesh at its original; a hit highlights one mesh's original and leaves every other mesh at its original |
| Selection.PickTargetsAncestor | components/ThreeModelViewer.tsx:150-193 | the target is the nearest named ancestor of the hit; the highlighted mesh is the target itself when it is a mesh, else the first mesh of its subtree, and it gets the highlight of its name's original; the target's name is reported exactly when there is such a mesh; otherwise every material is restored |
| Gestures.Grant | components/ThreeModelViewer.tsx:261-295 | the start time is recorded. One contact makes the sequence a tap candidate and records its position as previous and last touch; the distance, angle and centroid trackers stay. Two contacts rule out a tap and record the distance and angle between them; the single-touch and centroid trackers stay. Any other count changes only the start time |
| Gestures.OneFingerMove | components/ThreeModelViewer.tsx:313-331 | without a recorded previous position nothing changes; otherwise yaw grows by 0.01 times the horizontal drag and pitch by 0.01 times the vertical drag, roll, position and camera stay, and the touch becomes the previous and last touch |
| Gestures.Pan | components/ThreeModelViewer.tsx:336-353 | the centroid is recorded; with a centroid already recorded the model moves by 0.005 times its motion, vertical inverted, otherwise it stays; rotation, depth and camera stay |
| Gestures.Pinch | components/ThreeModelViewer.tsx:355-382 | the model is unchanged and the camera stays in front; with a camera the new distance is recorded, without one nothing changes |
| Gestures.PinchedCamera | components/ThreeModelViewer.tsx:362-379 | with a positive recorded distance the new zoom is the old zoom times the distance ratio, clamped; otherwise the camera is unchanged; only the camera's distance changes |
| Gestures.Twist | components/ThreeModelViewer.tsx:384-402 | without a recorded angle nothing changes; otherwise the roll grows by a tenth of the angle change converted from degrees to radians, yaw, pitch, position and camera stay, and the new angle is recorded |
| Gestures.TwoFingerMove | components/ThreeModelViewer.tsx:333-402 | the camera stays in front and the model stays; only the two-finger trackers of the record change, and the centroid of the two touches is recorded |
| Gestures.Move | components/ThreeModelViewer.tsx:297-404 | a move can only end tap eligibility; a displacement over 5 px on either axis ends it, and one within 5 px on both axes keeps it. The start time is kept; with no model only eligibility changes; a model stays; the last touch keeps tracking the previous position |
| Gestures.TapPoint | components/ThreeModelViewer.tsx:406-433 | a tap needs a tap candidate with a recorded last touch, and happens at that touch |
| Gestures.StartOrNow | components/ThreeModelViewer.tsx:407-410 | the recorded start time when one is set and non-zero, otherwise the release time |
| Gestures.Duration | components/ThreeModelViewer.tsx:407-410 | the time since the recorded start; zero when no non-zero start time is recorded |
| Gestures.Moves | components/ThreeModelViewer.tsx:297-404 | any sequence of moves keeps the camera in front of the model |
| Gestures.TapDecision | components/ThreeModelViewer.tsx:406-433 | a release taps exactly when the sequence is still a tap candidate, has a last touch, and lasted less than 300 ms |
| Gestures.TapEligibilityOnlyFalls | components/ThreeModelViewer.tsx:304-309 | over any moves, tap eligibility is never regained and is lost for good after a move beyond the slop; the start time and last-touch tracking are kept |
| Gestures.TwoFingerStartNeverTaps | components/ThreeModelViewer.tsx:276-294 | a sequence that starts with two contacts never ends in a tap |
| Gestures.MovesWithinSlopKeepTap | components/ThreeModelViewer.tsx:297-331 | moves that all stay within 5 px keep a tap candidate one, keep the start time, and leave as last touch the contact of the last one-finger move (with a model) or the one before the moves (without) |
| Gestures.OneFingerQuickReleaseTaps | components/ThreeModelViewer.tsx:406-433 | a one-finger sequence whose moves stay within 5 px and that is released within 300 ms taps at its last one-finger contact (at the start contact when no model is loaded) |
| Gestures.DragTelescopes | components/ThreeModelViewer.tsx:313-331 | over consecutive one-finger moves the yaw and pitch change by 0.01 times the total drag; roll, position and camera stay |
| Gestures.PanTelescopes | components/ThreeModelViewer.tsx:333-353 | over consecutive two-finger moves the position changes by 0.005 times the centroid's total motion, with vertical inverted; yaw and pitch stay |
| Gestures.TwistTelescopes | components/ThreeModelViewer.tsx:384-402 | over consecutive two-finger moves the roll changes by a tenth of the total angle change in radians, and the recorded angle is that of the last move's touches |
| Gestures.FirstPanOnlyRecords | components/ThreeModelViewer.tsx:339-353 | the first two-finger move records the centroid without moving the model |
| Gestures.PinchZoomInRange | components/ThreeModelViewer.tsx:355-382 | after a two-finger move with a positive recorded distance, the zoom equals the clamped scaled zoom, lies within the bounds, and the new distance is recorded |
| Gestures.TwoFingerMovePinches | components/ThreeModelViewer.tsx:355-382 | a two-finger move changes the camera and the recorded distance exactly as its pinch step does |
| Gestures.ReciprocalOfQuotient | components/ThreeModelViewer.tsx:371-378 | placing the camera at the reference distance over a zoom gives back that zoom |
| Gestures.NoTwistWithoutAngle | components/ThreeModelViewer.tsx:384-402 | with no recorded angle, no moves ever roll the model |
| Gestures.OneFingerStartNeverTwists | components/ThreeModelViewer.tsx:268-275 | a sequence that starts with one contact never rolls the model |
| Viewer.LoadedCameraZ | components/ThreeModelViewer.tsx:524 | the camera distance at load is positive, and without a configured distance it is the reciprocal of the initial zoom |
| Viewer.ModelViewer.constructor | components/ThreeModelViewer.tsx:52-62 | the viewer mounts with no camera, no model, no selection, an empty gesture record, no pending frame and the configured colour |
| Viewer.ModelViewer.CreateContext | components/ThreeModelViewer.tsx:451-505 | the camera is at its home position and the scene references are empty |
| Viewer.ModelViewer.CollectMeshes | components/ThreeModelViewer.tsx:526-542 | the traversal loop collects the mesh list, the names and the originals map described by the SceneGraph functions |
| Viewer.ModelViewer.LoadModel | components/ThreeModelViewer.tsx:515-556 | the model is placed at the origin with its initial rotation; the camera distance is set; the mesh list and names come from the traversal, and the originals map is the one built from the loaded model; the frame loop is started |
| Viewer.ModelViewer.ResetAllMeshMaterials | components/ThreeModelViewer.tsx:108-117 | the scene becomes RestoreAll of the old scene; gestures, names and frames are unchanged |
| Viewer.ModelViewer.ApplyHighlightMaterial | components/ThreeModelViewer.tsx:197-233 | the scene becomes HighlightMesh of the old scene |
| Viewer.ModelViewer.FindMeshByName | components/ThreeModelViewer.tsx:235-252 | returns the first mesh with the name; no result means no mesh has it |
| Viewer.ModelViewer.WalkToNamedAncestor | components/ThreeModelViewer.tsx:153-159 | the loop ends at NamedAncestor, which is the hit object or an ancestor of it |
| Viewer.ModelViewer.FirstMeshInSubtree | components/ThreeModelViewer.tsx:168-177 | the loop finds the first mesh of the subtree, which lies in the subtree |
| Viewer.ModelViewer.PickOutcome | components/ThreeModelViewer.tsx:119-141 | without a camera or meshes nothing changes and nothing is reported; otherwise the reported name is the selected one; only objects and selection change, and the content stays consistent |
| Viewer.ModelViewer.HandleMeshSelection | components/ThreeModelViewer.tsx:119-195 | nothing happens without a camera or meshes; otherwise the scene and the reported name are exactly Pick of the old scene at the normalised hit |
| Viewer.ModelViewer.SelectHit | components/ThreeModelViewer.tsx:146-194 | the walk, the subtree search, the highlight and the selection change the scene exactly as Choose says |
| Viewer.ModelViewer.SelectMeshByName | components/ThreeModelViewer.tsx:629-653 | the scene and the result are exactly SelectByName of the old scene |
| Viewer.ModelViewer.ChangeMeshColor | components/ThreeModelViewer.tsx:655-673 | the scene and the result are exactly ChangeColor of the old scene |
| Viewer.ModelViewer.GetMeshNames | components/ThreeModelViewer.tsx:254-256 | returns the names collected at load |
| Viewer.ModelViewer.RotateModel | components/ThreeModelViewer.tsx:590-596 | once a model exists, the rotation about the axis becomes the angle and nothing else changes; before that nothing changes |
| Viewer.ModelViewer.ZoomCamera | components/ThreeModelViewer.tsx:598-608 | with a camera, its distance becomes the reference distance over the clamped factor, so the zoom lies within the bounds; without one nothing changes |
| Viewer.ModelViewer.ResetView | components/ThreeModelViewer.tsx:610-627 | with model and camera: initial rotation, position kept, camera home, all originals restored, nothing selected; otherwise nothing changes |
| Viewer.ModelViewer.Grant | components/ThreeModelViewer.tsx:260-295 | with gestures enabled the record becomes Gestures.Grant of the old one; otherwise nothing changes |
| Viewer.ModelViewer.Move | components/ThreeModelViewer.tsx:297-404 | with gestures enabled the record, model and camera become Gestures.Move of the old ones; the scene content never changes |
| Viewer.ModelViewer.RotateByDrag | components/ThreeModelViewer.tsx:313-331 | performs OneFingerMove |
| Viewer.ModelViewer.PanBy | components/ThreeModelViewer.tsx:333-353 | performs Pan |
| Viewer.ModelViewer.PinchTo | components/ThreeModelViewer.tsx:355-382 | performs Pinch |
| Viewer.ModelViewer.TwistBy | components/ThreeModelViewer.tsx:384-402 | performs Twist |
| Viewer.ModelViewer.Release | components/ThreeModelViewer.tsx:406-436 | with gestures enabled the record is cleared, and a tap performs the pick at the last touch while a non-tap changes no scene content |
| Viewer.ModelViewer.RequestFrame | components/ThreeModelViewer.tsx:582-587 | a fresh frame number is handed out and recorded as pending |
| Viewer.ModelViewer.CancelAnimation | components/ThreeModelViewer.tsx:440-445 | afterwards no frame is pending; a second call changes nothing |
| Viewer.ModelViewer.StartAnimation | components/ThreeModelViewer.tsx:569-588 | any pending frame is cancelled and exactly one new frame is pending |
| Viewer.ModelViewer.AnimationFrame | components/ThreeModelViewer.tsx:574-584 | with auto-rotation and a model the yaw grows by the speed, otherwise the model is unchanged; exactly one new frame is pending |
| ModelContext.ModelProvider.constructor | Context/ModelContext.tsx:10 | no group is set |
| ModelContext.ModelProvider.SetModel | Context/ModelContext.tsx:12-14 | the reference becomes the group, and the group itself is untouched |
| ModelContext.ModelProvider.RotateModel | Context/ModelContext.tsx:16-22 | with a group, the rotation about the axis becomes the angle, and the other axes and the scale stay |
| ModelContext.ModelProvider.ScaleModel | Context/ModelContext.tsx:24-27 | with a group, the scale becomes uniform and the rotation stays |
| ModelContext.ModelProvider.ResetModel | Context/ModelContext.tsx:29-33 | with a group, the rotation becomes zero and the scale one |
| ModelContext.ReplacedModelIsUntouched | Context/ModelContext.tsx:12-33 | after the reference moves to another group, rotating about any axis, scaling by any factor and resetting change only the new group; the previous group keeps its rotation and scale |

Notes on where the model follows the code rather than the design description:

- **Originals are captured once, at load.** The loader records every mesh's
  material under its name. A later mesh with the same name overwrites an
  earlier one, so the last one wins. This is captured in
  `RestoreGivesLoadTimeMaterial`.
- **Selecting an unknown name is not a no-op.** Selecting by a name no mesh
  has still restores every material and clears the selection. See
  `SelectByNameSpec`.

## Left out

- Rendering, WebGL context creation, lights, the renderer, `gl.endFrameEXP`, the asset download and the glTF loader itself: the loaded object tree is a parameter of `LoadModel`, and load errors and progress are not modelled.
- Ray casting (`setFromCamera`, `intersectObjects`): a ray-cast function from normalised coordinates to the nearest hit object is a parameter. `HitsWithin` requires only that it reports objects of the loaded model.
- `Math.sqrt` and `Math.atan2`: distance and angle are uninterpreted functions, the fields of `Metrics`. `IsTap` compares squares, and `TapBySquareRoot` ties that to any non-negative root.
- Floating point: coordinates are real numbers. NaN, infinities and rounding are not modelled, and `ValidConfig` requires positive distances, a positive lower zoom bound, a positive initial zoom and a positive screen size.
- The clock and `requestAnimationFrame` are parameters. The current time is passed to `Grant` and `Release`, and the scheduler is a counter with a set of pending frames.
- The scene object above the loaded model is not modelled. Walking up from a hit ends at the model's root instead of the scene, which gives the same name and the same first mesh: the scene's other children are lights.
- The 400 px vertical offset of a tap when a mesh is selected is not modelled. The gesture handlers are created once with the first render's state, in which nothing is selected, so the offset is always 0 in the code as written.
- Viewer.ModelViewer.ChangeMeshColor: models one persistent highlight colour. In the code, the new colour is assigned to a prop-derived local that the next re-render resets, and the tap handler keeps the first render's colour. Both effects of React's re-render and closure capture are left out.
- Viewer.ModelViewer.HandleMeshSelection: the intermediate clear of the selection is left out, because the update made on every later path supersedes it.
- Console logging, `userData.selectable`, `setModelLoaded`, and the `onModelLoaded` and `onMeshClick` callbacks are not modelled. The name passed to the click callback is the name `HandleMeshSelection` returns.
- The model context's React plumbing (`createContext`, `useModel`, `useModelViewerRef`) is left out, because it only passes references around.
- Styles and the component's layout are not modelled.
- The `try`/`catch` around cloning a single material (components/ThreeModelViewer.tsx:218-231) is not modelled: cloning is taken to succeed, so the error path that leaves the material unchanged is absent.
- Colours are kept as unbounded integers. `Color.setHex` keeps only the low 24 bits of the value it is given, and that reduction is not modelled.
- The touch handlers are created once, on first render, and keep that render's props and state for the viewer's lifetime. The model's configuration is fixed when the viewer is built, so props that change later are not modelled, neither in the handlers nor elsewhere. The tap offset and `ChangeMeshColor` lines above are the two places where this capture is visible.
