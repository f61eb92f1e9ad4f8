/**
 * The model viewer component: one object holding the scene references
 * (camera, loaded model, meshes, originals map), the selection and highlight
 * colour, the gesture record and the pending animation frame. Its handlers
 * change these fields step by step; each is proved to change them exactly as
 * the matching function of Gestures or Selection says.
 */
module Viewer {
  import opened Options
  import opened Geometry
  import opened Materials
  import opened SceneGraph
  import opened Selection
  import opened Gestures

  /** The viewer's properties, after the component's own defaults, and the screen size. */
  datatype Config = Config(
    initialRotation: PartialVec3,
    autoRotate: bool,
    autoRotateSpeed: real,
    cameraPosition: PartialVec3,
    initialZoom: real,
    minZoom: real,
    maxZoom: real,
    enableGestures: bool,
    selectedMeshColor: int,
    screenWidth: real,
    screenHeight: real)

  /** Where the camera is created and where a view reset puts it: missing components are (0, 0, 3). */
  function CameraHome(cfg: Config): (r: Vec3)
    ensures cfg.cameraPosition.x.Some? ==> r.x == cfg.cameraPosition.x.value
    ensures cfg.cameraPosition.y.Some? ==> r.y == cfg.cameraPosition.y.value
    ensures cfg.cameraPosition.z.Some? ==> r.z == cfg.cameraPosition.z.value
    ensures cfg.cameraPosition.x.None? ==> r.x == 0.0
    ensures cfg.cameraPosition.y.None? ==> r.y == 0.0
    ensures cfg.cameraPosition.z.None? ==> r.z == 3.0
  {
    cfg.cameraPosition.OrElse(Vec3(0.0, 0.0, 3.0))
  }

  /** The rotation the model gets at load and at a view reset: missing components are 0. */
  function InitialRotation(cfg: Config): (r: Vec3)
    ensures cfg.initialRotation.x.Some? ==> r.x == cfg.initialRotation.x.value
    ensures cfg.initialRotation.y.Some? ==> r.y == cfg.initialRotation.y.value
    ensures cfg.initialRotation.z.Some? ==> r.z == cfg.initialRotation.z.value
    ensures cfg.initialRotation.x.None? ==> r.x == 0.0
    ensures cfg.initialRotation.y.None? ==> r.y == 0.0
    ensures cfg.initialRotation.z.None? ==> r.z == 0.0
  {
    cfg.initialRotation.OrElse(Vec3(0.0, 0.0, 0.0))
  }

  /** The reference distance of the zoom ratio and the zoom bounds. */
  function ZoomOf(cfg: Config): (r: ZoomRange)
    ensures r.referenceZ == cfg.cameraPosition.z.GetOr(3.0)
    ensures r.minZoom == cfg.minZoom && r.maxZoom == cfg.maxZoom
  {
    ZoomRange(CameraHome(cfg).z, cfg.minZoom, cfg.maxZoom)
  }

  /** The camera distance set at load: the configured one, or 1 / initialZoom without one. */
  function LoadedCameraZ(cfg: Config): (r: real)
    requires ValidConfig(cfg)
    ensures r > 0.0
    ensures cfg.cameraPosition.z.None? ==> r * cfg.initialZoom == 1.0
  {
    cfg.cameraPosition.z.GetOr(1.0 / cfg.initialZoom)
  }

  /** Configurations whose distances and bounds keep every division defined. */
  predicate ValidConfig(cfg: Config) {
    ValidZoom(ZoomOf(cfg)) && cfg.initialZoom > 0.0 && cfg.screenWidth > 0.0 && cfg.screenHeight > 0.0
  }

  /** A ray cast only ever reports objects of the loaded model. */
  ghost predicate HitsWithin(raycast: (real, real) -> Option<nat>, n: nat) {
    forall u: real, v: real :: raycast(u, v).Some? ==> raycast(u, v).value < n
  }

  function PendingSet(frame: Option<nat>): set<nat> {
    if frame.Some? then {frame.value} else {}
  }

  class ModelViewer {
    const cfg: Config

    // Scene references.
    var camera: Option<Vec3>
    var model: Option<Transform>
    var nodes: seq<SceneNode>
    var meshes: seq<nat>
    var originalMaterials: map<string, MaterialSlot>
    var meshNames: seq<string>
    // The model as loaded (empty before a load): the originals map was built
    // from it, and since then only materials have changed.
    ghost var loadedTree: seq<SceneNode>

    // Selection.
    var selectedMesh: Option<string>
    var selectedMeshColor: int

    // Touch tracking.
    var gesture: GestureState

    // The pending frame, and the frame scheduler: the frames requested and
    // neither run nor cancelled, and the next frame number it hands out.
    var animationFrame: Option<nat>
    var scheduledFrames: set<nat>
    var nextFrameId: nat

    function Scene(): SceneContent
      reads this
    {
      SceneContent(nodes, meshes, originalMaterials, selectedMesh, selectedMeshColor)
    }

    function CurrentStage(): Stage
      reads this
    {
      Stage(gesture, model, camera)
    }

    function Frames(): (Option<nat>, set<nat>, nat)
      reads this
    {
      (animationFrame, scheduledFrames, nextFrameId)
    }

    /**
     * The object invariant: a valid configuration; the scene content is
     * consistent and descends from the model as loaded; no model before load (and then no meshes and an empty
     * originals map), no model without a camera, the camera in front; the
     * last touch tracks the previous position; at most one frame is pending
     * and it is the one remembered.
     */
    ghost predicate Valid()
      reads this
    {
      && ValidConfig(cfg)
      && Consistent(Scene())
      && FromLoad(loadedTree, nodes, originalMaterials)
      && (model.None? ==> nodes == [] && meshes == [] && originalMaterials == map[])
      && (model.Some? ==> camera.Some?)
      && CameraInFront(CurrentStage())
      && TracksLastTouch(gesture)
      && scheduledFrames == PendingSet(animationFrame)
      && (animationFrame.Some? ==> animationFrame.value < nextFrameId)
    }

    /** The viewer as mounted: no camera, no model, nothing selected, no touch, no frame. */
    constructor (cfg: Config)
      requires ValidConfig(cfg)
      ensures Valid() && this.cfg == cfg
      ensures camera.None? && model.None? && meshNames == [] && selectedMesh.None?
      ensures selectedMeshColor == cfg.selectedMeshColor && gesture == Idle
      ensures animationFrame.None? && scheduledFrames == {}
    {
      this.cfg := cfg;
      camera := None;
      model := None;
      nodes := [];
      meshes := [];
      originalMaterials := map[];
      loadedTree := [];
      meshNames := [];
      selectedMesh := None;
      selectedMeshColor := cfg.selectedMeshColor;
      gesture := Idle;
      animationFrame := None;
      scheduledFrames := {};
      nextFrameId := 1;
    }

    /** Creating the drawing context: a camera at its home position and fresh, empty scene references. */
    method CreateContext()
      requires Valid()
      modifies this
      ensures Valid()
      ensures camera == Some(CameraHome(cfg)) && model.None?
      ensures nodes == [] && meshes == [] && originalMaterials == map[] && loadedTree == []
      ensures selectedMesh == old(selectedMesh) && selectedMeshColor == old(selectedMeshColor)
      ensures gesture == old(gesture) && meshNames == old(meshNames) && Frames() == old(Frames())
    {
      camera := Some(CameraHome(cfg));
      model := None;
      nodes := [];
      meshes := [];
      originalMaterials := map[];
      loadedTree := [];
      LoadedConsistent(Scene());
    }

    /**
     * The load traversal: visits every object in order and, for each Mesh,
     * appends it and its name and stores its material under its name.
     */
    static method CollectMeshes(tree: seq<SceneNode>) returns (found: seq<nat>, names: seq<string>, originals: map<string, MaterialSlot>)
      ensures found == MeshIndices(tree) && names == MeshNamesBelow(tree, |tree|) && originals == Originals(tree)
    {
      found, names, originals := [], [], map[];
      for i := 0 to |tree|
        invariant found == MeshIndicesBelow(tree, i)
        invariant names == MeshNamesBelow(tree, i)
        invariant originals == OriginalsBelow(tree, i)
      {
        if tree[i].IsMesh() {
          found := found + [i];
          names := names + [tree[i].name];
          originals := originals[tree[i].name := tree[i].material.value];
        }
        assert found == MeshIndicesBelow(tree, i + 1);
        assert names == MeshNamesBelow(tree, i + 1);
        assert originals == OriginalsBelow(tree, i + 1);
      }
    }

    /**
     * The loader's completion: place the model at the origin with the initial
     * rotation, set the camera distance, traverse the model collecting the
     * meshes, their names and their materials (keyed by name), and start the
     * frame loop.
     */
    method LoadModel(tree: seq<SceneNode>)
      requires Valid() && camera.Some? && model.None?
      requires WellFormed(tree)
      modifies this
      ensures Valid()
      ensures model == Some(Transform(InitialRotation(cfg), Vec3(0.0, 0.0, 0.0)))
      ensures camera == Some(old(camera).value.(z := LoadedCameraZ(cfg)))
      ensures nodes == tree && meshes == MeshIndices(tree)
      ensures meshNames == MeshNamesBelow(tree, |tree|)
      ensures originalMaterials == Originals(tree) && loadedTree == tree
      ensures selectedMesh == old(selectedMesh) && selectedMeshColor == old(selectedMeshColor)
      ensures gesture == old(gesture)
      ensures animationFrame.Some? && scheduledFrames == {animationFrame.value}
    {
      var cam := camera.value;
      camera := Some(cam.(z := LoadedCameraZ(cfg)));
      var found, names, originals := CollectMeshes(tree);
      originalMaterials := originals;
      meshNames := names;
      meshes := found;
      nodes := tree;
      loadedTree := tree;
      model := Some(Transform(InitialRotation(cfg), Vec3(0.0, 0.0, 0.0)));
      LoadedConsistent(Scene());
      StartAnimation();
    }

    // -------------------------------------------------------------------------
    // Materials and selection

    /** Puts every mesh whose name has an original back to that original. */
    method ResetAllMeshMaterials()
      requires Valid()
      modifies this
      ensures Valid()
      ensures Scene() == RestoreAll(old(Scene()))
      ensures CurrentStage() == old(CurrentStage()) && meshNames == old(meshNames) && Frames() == old(Frames())
    {
      var k := 0;
      while k < |meshes|
        invariant 0 <= k <= |meshes|
        invariant nodes == Restored(old(nodes), meshes[..k], originalMaterials)
        invariant meshes == old(meshes) && originalMaterials == old(originalMaterials) && loadedTree == old(loadedTree)
        invariant selectedMesh == old(selectedMesh) && selectedMeshColor == old(selectedMeshColor)
        invariant CurrentStage() == old(CurrentStage()) && meshNames == old(meshNames) && Frames() == old(Frames())
      {
        var mesh := meshes[k];
        RestoredStep(old(nodes), meshes, originalMaterials, k);
        if nodes[mesh].name in originalMaterials {
          nodes := nodes[mesh := nodes[mesh].(material := Some(originalMaterials[nodes[mesh].name]))];
        }
        k := k + 1;
      }
      assert meshes[..k] == meshes;
      assert Scene() == RestoreAll(old(Scene()));
      ShapeIsStructure(old(nodes), nodes);
    }

    /** Replaces a mesh's material by a recoloured clone (entry by entry for an array). */
    method ApplyHighlightMaterial(mesh: nat)
      requires Valid() && mesh < |nodes| && nodes[mesh].IsMesh()
      modifies this
      ensures Valid()
      ensures Scene() == HighlightMesh(old(Scene()), mesh)
      ensures CurrentStage() == old(CurrentStage()) && meshNames == old(meshNames) && Frames() == old(Frames())
    {
      var current := nodes[mesh].material.value;
      var replacement: MaterialSlot;
      match current {
        case Many(ms) =>
          var newMaterials: seq<Material> := [];
          for i := 0 to |ms|
            invariant |newMaterials| == i
            invariant forall j :: 0 <= j < i ==> newMaterials[j] == HighlightEntry(ms[j], selectedMeshColor)
          {
            var material := ms[i];
            if IsColorModel(material.kind) {
              var newMaterial := material.(color := Some(selectedMeshColor));
              if newMaterial.emissive.Some? {
                newMaterial := newMaterial.(emissive := Some(HighlightGlow));
              }
              newMaterials := newMaterials + [newMaterial];
            } else {
              newMaterials := newMaterials + [material];
            }
          }
          replacement := Many(newMaterials);
        case Single(m) =>
          var newMaterial := m;
          if newMaterial.color.Some? {
            newMaterial := newMaterial.(color := Some(selectedMeshColor));
          }
          if newMaterial.emissive.Some? {
            newMaterial := newMaterial.(emissive := Some(HighlightGlow));
          }
          replacement := Single(newMaterial);
      }
      assert replacement == Highlight(current, selectedMeshColor);
      nodes := nodes[mesh := nodes[mesh].(material := Some(replacement))];
      assert Scene() == HighlightMesh(old(Scene()), mesh);
      ShapeIsStructure(old(nodes), nodes);
    }

    /** The first Mesh with the given name in a traversal of the loaded model. */
    method FindMeshByName(name: string) returns (found: Option<nat>)
      requires Valid()
      ensures found == FirstMeshNamed(nodes, name)
      ensures found.Some? ==> found.value < |nodes| && nodes[found.value].IsMesh() && nodes[found.value].name == name
      ensures found.None? ==> forall j :: 0 <= j < |nodes| ==> !(nodes[j].IsMesh() && nodes[j].name == name)
    {
      found := None;
      if model.None? {
        return;
      }
      for i := 0 to |nodes|
        invariant found.Some? ==> found.value < i && Matches(nodes, Named(name), found.value)
        invariant found.Some? ==> forall j :: 0 <= j < found.value ==> !Matches(nodes, Named(name), j)
        invariant found.None? ==> forall j :: 0 <= j < i ==> !Matches(nodes, Named(name), j)
      {
        if found.None? && nodes[i].IsMesh() && nodes[i].name == name {
          found := Some(i);
        }
      }
      if found.None? {
        forall j | 0 <= j < |nodes| ensures !(nodes[j].IsMesh() && nodes[j].name == name) {
          assert !Matches(nodes, Named(name), j);
        }
      }
    }

    /** What a pick at screen point (x, y) leads to: nothing before the scene is ready, else Pick. */
    ghost function PickOutcome(x: real, y: real, raycast: (real, real) -> Option<nat>): (r: (SceneContent, Option<string>))
      requires Valid() && HitsWithin(raycast, |nodes|)
      reads this
      ensures camera.None? || |meshes| == 0 ==> r == (Scene(), None)
      ensures Consistent(r.0) && SameStructure(nodes, r.0.nodes)
      ensures camera.Some? && |meshes| > 0 ==> r.1 == r.0.selected
      ensures r.0 == Scene().(nodes := r.0.nodes, selected := r.0.selected)
    {
      if camera.None? || |meshes| == 0 then (Scene(), None)
      else
        var coords := NormalizedCoordinates(x, y, cfg.screenWidth, cfg.screenHeight);
        Pick(Scene(), raycast(coords.0, coords.1))
    }

    /** The walk from a hit object up through unnamed objects to a named one or the root. */
    method WalkToNamedAncestor(hit: nat) returns (target: nat)
      requires ParentsBefore(nodes) && hit < |nodes|
      ensures target == NamedAncestor(nodes, hit)
      ensures target < |nodes| && IsAncestorOrSelf(nodes, target, hit)
    {
      target := hit;
      while nodes[target].name == "" && nodes[target].parent.Some?
        invariant target < |nodes| && NamedAncestor(nodes, target) == NamedAncestor(nodes, hit)
        decreases target
      {
        target := nodes[target].parent.value;
      }
    }

    /** The traversal of the subtree rooted at `target`: its first Mesh, if any. */
    method FirstMeshInSubtree(target: nat) returns (mesh: Option<nat>)
      requires target < |nodes|
      ensures mesh == FirstMeshUnder(nodes, target)
      ensures mesh.Some? ==> mesh.value < |nodes| && nodes[mesh.value].IsMesh() && IsAncestorOrSelf(nodes, target, mesh.value)
    {
      mesh := None;
      for j := target to |nodes|
        invariant mesh.Some? ==> mesh == FirstMatch(nodes, Under(target), target)
        invariant mesh.None? ==> forall l :: target <= l < j ==> !Matches(nodes, Under(target), l)
      {
        if mesh.None? && IsAncestorOrSelf(nodes, target, j) && nodes[j].IsMesh() {
          mesh := Some(j);
          FirstMatchSkips(nodes, Under(target), target, j);
        }
      }
      if mesh.None? {
        FirstMatchSkips(nodes, Under(target), target, |nodes|);
      }
    }

    /**
     * Selection by touch at screen point (x, y): cast a ray through it, restore
     * all materials and clear the selection, then select what the nearest hit
     * resolves to. Returns the name reported to the click listener.
     */
    method HandleMeshSelection(x: real, y: real, raycast: (real, real) -> Option<nat>) returns (clicked: Option<string>)
      requires Valid() && HitsWithin(raycast, |nodes|)
      modifies this
      ensures Valid()
      ensures (Scene(), clicked) == old(PickOutcome(x, y, raycast))
      ensures CurrentStage() == old(CurrentStage()) && meshNames == old(meshNames) && Frames() == old(Frames())
    {
      if camera.None? || |meshes| == 0 {
        return None;
      }
      var coords := NormalizedCoordinates(x, y, cfg.screenWidth, cfg.screenHeight);
      var hit := raycast(coords.0, coords.1);
      ResetAllMeshMaterials();
      clicked := SelectHit(hit);
    }

    /**
     * After the restore: walk from the hit to a named ancestor and highlight
     * that object, or the first Mesh below it, selecting the ancestor's name;
     * with no hit or no such Mesh, select nothing.
     */
    method SelectHit(hit: Option<nat>) returns (clicked: Option<string>)
      requires Valid() && (hit.Some? ==> hit.value < |nodes|)
      modifies this
      ensures Valid()
      ensures (Scene(), clicked) == Choose(old(Scene()), hit)
      ensures CurrentStage() == old(CurrentStage()) && meshNames == old(meshNames) && Frames() == old(Frames())
    {
      // The selection is cleared here too, as a queued state update that the
      // update made on every path below supersedes.
      if hit.Some? {
        var target := WalkToNamedAncestor(hit.value);
        var meshName := nodes[target].name;
        var actualMesh: Option<nat>;
        if nodes[target].IsMesh() {
          actualMesh := Some(target);
        } else {
          actualMesh := FirstMeshInSubtree(target);
        }
        assert Resolve(nodes, hit.value) == if actualMesh.Some? then Some((meshName, actualMesh.value)) else None;
        if actualMesh.Some? {
          ApplyHighlightMaterial(actualMesh.value);
          selectedMesh := Some(meshName);
          clicked := Some(meshName);
          assert (Scene(), clicked) == Choose(old(Scene()), hit);
          return;
        }
      }
      selectedMesh := None;
      clicked := None;
      assert (Scene(), clicked) == Choose(old(Scene()), hit);
    }

    /**
     * Selection by name: restore all materials and clear the selection, then
     * highlight the first Mesh with that name and select the name, if found.
     */
    method SelectMeshByName(name: string) returns (found: bool)
      requires Valid()
      modifies this
      ensures Valid()
      ensures (Scene(), found) == SelectByName(old(Scene()), name)
      ensures CurrentStage() == old(CurrentStage()) && meshNames == old(meshNames) && Frames() == old(Frames())
    {
      ResetAllMeshMaterials();
      selectedMesh := None;
      ghost var cleared := Scene();
      var mesh := FindMeshByName(name);
      if mesh.Some? {
        ApplyHighlightMaterial(mesh.value);
        selectedMesh := Some(name);
        assert Scene() == HighlightMesh(cleared, mesh.value).(selected := Some(name));
        return true;
      }
      assert Scene() == cleared;
      return false;
    }

    /**
     * Changing the highlight colour: re-highlight in place when `name` is the
     * selected name (false when no Mesh has it), otherwise select by name.
     */
    method ChangeMeshColor(name: string, color: int) returns (ok: bool)
      requires Valid()
      modifies this
      ensures Valid()
      ensures (Scene(), ok) == ChangeColor(old(Scene()), name, color)
      ensures CurrentStage() == old(CurrentStage()) && meshNames == old(meshNames) && Frames() == old(Frames())
    {
      selectedMeshColor := color;
      if selectedMesh == Some(name) {
        var mesh := FindMeshByName(name);
        if mesh.Some? {
          ApplyHighlightMaterial(mesh.value);
          return true;
        }
      } else {
        ok := SelectMeshByName(name);
        return;
      }
      return false;
    }

    /** The mesh names collected at load, in traversal order. */
    method GetMeshNames() returns (names: seq<string>)
      ensures names == meshNames
    {
      names := meshNames;
    }

    // -------------------------------------------------------------------------
    // Control surface: rotation, zoom, reset

    /** Sets the model's rotation about one axis; nothing happens before load. */
    method RotateModel(axis: Axis, angle: real)
      requires Valid()
      modifies this
      ensures Valid()
      ensures old(model).None? ==> model.None?
      ensures old(model).Some? ==>
                model == Some(old(model).value.(rotation := old(model).value.rotation.With(axis, angle)))
      ensures camera == old(camera) && gesture == old(gesture)
      ensures Scene() == old(Scene()) && meshNames == old(meshNames) && Frames() == old(Frames())
    {
      if model.Some? {
        var m := model.value;
        model := Some(m.(rotation := m.rotation.With(axis, angle)));
      }
    }

    /**
     * Sets the zoom: the factor is clamped to the bounds and the camera placed
     * at the reference distance over it; nothing happens without a camera.
     */
    method ZoomCamera(zoomFactor: real)
      requires Valid()
      modifies this
      ensures Valid()
      ensures old(camera).None? ==> camera.None?
      ensures old(camera).Some? ==>
                camera == Some(old(camera).value.(z := ZoomOf(cfg).referenceZ / Clamp(cfg.minZoom, cfg.maxZoom, zoomFactor)))
      ensures camera.Some? && cfg.minZoom <= cfg.maxZoom ==>
                cfg.minZoom <= ZoomOf(cfg).referenceZ / camera.value.z <= cfg.maxZoom
      ensures model == old(model) && gesture == old(gesture)
      ensures Scene() == old(Scene()) && meshNames == old(meshNames) && Frames() == old(Frames())
    {
      if camera.Some? {
        var newZoom := Clamp(cfg.minZoom, cfg.maxZoom, zoomFactor);
        var initialZ := CameraHome(cfg).z;
        ReciprocalOfQuotient(initialZ, newZoom);
        camera := Some(camera.value.(z := initialZ / newZoom));
      }
    }

    /**
     * Resets the view once model and camera exist: initial rotation, camera
     * home, all materials restored, nothing selected. The model's position is
     * left as it is.
     */
    method ResetView()
      requires Valid()
      modifies this
      ensures Valid()
      ensures old(model).None? || old(camera).None? ==>
                CurrentStage() == old(CurrentStage()) && Scene() == old(Scene())
      ensures old(model).Some? && old(camera).Some? ==>
                && model == Some(Transform(InitialRotation(cfg), old(model).value.position))
                && camera == Some(CameraHome(cfg))
                && Scene() == RestoreAll(old(Scene())).(selected := None)
      ensures gesture == old(gesture) && meshNames == old(meshNames) && Frames() == old(Frames())
    {
      if model.Some? && camera.Some? {
        var m := model.value;
        model := Some(m.(rotation := InitialRotation(cfg)));
        camera := Some(CameraHome(cfg));
        ResetAllMeshMaterials();
        selectedMesh := None;
      }
    }

    // -------------------------------------------------------------------------
    // Touch handlers

    /** Touch start. Without gestures enabled the viewer never becomes the responder. */
    method Grant(touches: seq<Touch>, now: int, metrics: Metrics)
      requires Valid()
      modifies this
      ensures Valid()
      ensures gesture == if cfg.enableGestures then Gestures.Grant(old(gesture), touches, now, metrics) else old(gesture)
      ensures model == old(model) && camera == old(camera)
      ensures Scene() == old(Scene()) && meshNames == old(meshNames) && Frames() == old(Frames())
    {
      if !cfg.enableGestures {
        return;
      }
      gesture := gesture.(startTime := Some(now));
      if |touches| == 1 {
        gesture := gesture.(previousX := Some(touches[0].pageX), previousY := Some(touches[0].pageY));
        gesture := gesture.(lastTouchX := Some(touches[0].pageX), lastTouchY := Some(touches[0].pageY));
        gesture := gesture.(isTap := Some(true));
      } else if |touches| == 2 {
        var distance := metrics.distance(touches[0], touches[1]);
        gesture := gesture.(previousDistance := Some(distance));
        var angle := metrics.angle(touches[0], touches[1]);
        gesture := gesture.(previousRotation := Some(angle));
        gesture := gesture.(isTap := Some(false));
      }
    }

    /** Touch move; (dx, dy) is the displacement since the sequence started. */
    method Move(touches: seq<Touch>, dx: real, dy: real, metrics: Metrics)
      requires Valid()
      modifies this
      ensures Valid()
      ensures CurrentStage() ==
              if cfg.enableGestures then Gestures.Move(ZoomOf(cfg), old(CurrentStage()), touches, dx, dy, metrics)
              else old(CurrentStage())
      ensures Scene() == old(Scene()) && meshNames == old(meshNames) && Frames() == old(Frames())
    {
      if !cfg.enableGestures {
        return;
      }
      if Abs(dx) > TapSlop || Abs(dy) > TapSlop {
        gesture := gesture.(isTap := Some(false));
      }
      if model.None? {
        assert CurrentStage() == Gestures.Move(ZoomOf(cfg), old(CurrentStage()), touches, dx, dy, metrics);
        return;
      }
      if |touches| == 1 {
        RotateByDrag(touches[0]);
      } else if |touches| == 2 {
        var touch1, touch2 := touches[0], touches[1];
        PanBy((touch1.pageX + touch2.pageX) / 2.0, (touch1.pageY + touch2.pageY) / 2.0);
        PinchTo(metrics.distance(touch1, touch2));
        TwistBy(metrics.angle(touch1, touch2));
      }
      assert CurrentStage() == Gestures.Move(ZoomOf(cfg), old(CurrentStage()), touches, dx, dy, metrics);
    }

    /** One finger: rotate the model by the drag since the previous position, if one is recorded. */
    method RotateByDrag(t: Touch)
      requires model.Some?
      modifies this
      ensures CurrentStage() == OneFingerMove(old(CurrentStage()), t)
      ensures Scene() == old(Scene()) && meshNames == old(meshNames) && Frames() == old(Frames())
      ensures loadedTree == old(loadedTree)
    {
      if gesture.previousX.None? || gesture.previousY.None? {
        return;
      }
      var currentX, currentY := t.pageX, t.pageY;
      var deltaX := currentX - gesture.previousX.value;
      var deltaY := currentY - gesture.previousY.value;
      var m := model.value;
      m := m.(rotation := m.rotation.(y := m.rotation.y + deltaX * RotateSpeed));
      m := m.(rotation := m.rotation.(x := m.rotation.x + deltaY * RotateSpeed));
      model := Some(m);
      gesture := gesture.(previousX := Some(currentX), previousY := Some(currentY));
      gesture := gesture.(lastTouchX := Some(currentX), lastTouchY := Some(currentY));
    }

    /** Two fingers, pan: move the model by the centroid's motion, then record the centroid. */
    method PanBy(centerX: real, centerY: real)
      requires model.Some?
      modifies this
      ensures CurrentStage() == Pan(old(CurrentStage()), centerX, centerY)
      ensures Scene() == old(Scene()) && meshNames == old(meshNames) && Frames() == old(Frames())
      ensures loadedTree == old(loadedTree)
    {
      if gesture.lastCenterX.Some? && gesture.lastCenterY.Some? {
        var deltaX := centerX - gesture.lastCenterX.value;
        var deltaY := centerY - gesture.lastCenterY.value;
        var m := model.value;
        m := m.(position := m.position.(x := m.position.x + deltaX * PanSpeed));
        m := m.(position := m.position.(y := m.position.y - deltaY * PanSpeed));
        model := Some(m);
      }
      gesture := gesture.(lastCenterX := Some(centerX), lastCenterY := Some(centerY));
    }

    /** Two fingers, pinch: scale the zoom by the distance ratio, clamped; record the distance. */
    method PinchTo(currentDistance: real)
      requires ValidZoom(ZoomOf(cfg)) && CameraInFront(CurrentStage())
      modifies this
      ensures CurrentStage() == Pinch(ZoomOf(cfg), old(CurrentStage()), currentDistance)
      ensures Scene() == old(Scene()) && meshNames == old(meshNames) && Frames() == old(Frames())
      ensures loadedTree == old(loadedTree)
    {
      if camera.None? {
        return;
      }
      var cam := camera.value;
      if gesture.previousDistance.Some? && gesture.previousDistance.value > 0.0 {
        var pinchChange := currentDistance / gesture.previousDistance.value;
        var currentZoom := ZoomOf(cfg).referenceZ / cam.z;
        var newZoom := currentZoom * pinchChange;
        var clampedZoom := Clamp(cfg.minZoom, cfg.maxZoom, newZoom);
        camera := Some(cam.(z := ZoomOf(cfg).referenceZ / clampedZoom));
      }
      assert camera.value == PinchedCamera(ZoomOf(cfg), cam, gesture.previousDistance, currentDistance);
      gesture := gesture.(previousDistance := Some(currentDistance));
    }

    /** Two fingers, twist: roll the model by a tenth of the angle change, once an angle is recorded. */
    method TwistBy(currentRotation: real)
      requires model.Some?
      modifies this
      ensures CurrentStage() == Twist(old(CurrentStage()), currentRotation)
      ensures Scene() == old(Scene()) && meshNames == old(meshNames) && Frames() == old(Frames())
      ensures loadedTree == old(loadedTree)
    {
      if gesture.previousRotation.Some? {
        var rotationDelta := (currentRotation - gesture.previousRotation.value) * TwistDamping;
        var m := model.value;
        model := Some(m.(rotation := m.rotation.(z := m.rotation.z + rotationDelta * (Pi / 180.0))));
        gesture := gesture.(previousRotation := Some(currentRotation));
      }
    }

    /**
     * Touch end: if the sequence is still a tap candidate with a recorded last
     * touch and the classifier accepts it, pick at the last touch; then forget
     * the sequence. Returns the name reported to the click listener.
     */
    method Release(now: int, raycast: (real, real) -> Option<nat>) returns (clicked: Option<string>)
      requires Valid() && HitsWithin(raycast, |nodes|)
      modifies this
      ensures Valid()
      ensures !cfg.enableGestures ==>
                clicked.None? && gesture == old(gesture) && Scene() == old(Scene())
      ensures cfg.enableGestures ==> gesture == Idle
      ensures cfg.enableGestures && TapPoint(old(gesture), now).None? ==>
                clicked.None? && Scene() == old(Scene())
      ensures cfg.enableGestures && TapPoint(old(gesture), now).Some? ==>
                (Scene(), clicked) ==
                old(PickOutcome(TapPoint(gesture, now).value.0, TapPoint(gesture, now).value.1, raycast))
      ensures model == old(model) && camera == old(camera)
      ensures meshNames == old(meshNames) && Frames() == old(Frames())
    {
      clicked := None;
      if !cfg.enableGestures {
        return;
      }
      ghost var tap := TapPoint(gesture, now);
      var endTime := now;
      var startTime := if gesture.startTime.Some? && gesture.startTime.value != 0 then gesture.startTime.value else endTime;
      var duration := endTime - startTime;
      if gesture.isTap == Some(true) && gesture.lastTouchX.Some? && gesture.lastTouchY.Some? {
        var isTapped := IsTap(gesture.previousX.GetOr(0.0), gesture.previousY.GetOr(0.0),
                              gesture.lastTouchX.value, gesture.lastTouchY.value, duration);
        assert isTapped <==> tap.Some?;
        if isTapped {
          clicked := HandleMeshSelection(gesture.lastTouchX.value, gesture.lastTouchY.value, raycast);
        }
      } else {
        assert tap.None?;
      }
      gesture := Idle;
    }

    // -------------------------------------------------------------------------
    // Frame loop

    /** The scheduler hands out a new frame number and records the frame as pending. */
    method RequestFrame() returns (id: nat)
      modifies this
      ensures id == old(nextFrameId) && nextFrameId == id + 1
      ensures scheduledFrames == old(scheduledFrames) + {id}
      ensures animationFrame == old(animationFrame)
      ensures CurrentStage() == old(CurrentStage()) && Scene() == old(Scene()) && meshNames == old(meshNames)
      ensures loadedTree == old(loadedTree)
    {
      id := nextFrameId;
      nextFrameId := nextFrameId + 1;
      scheduledFrames := scheduledFrames + {id};
    }

    /** Cancels the pending frame, if any; calling it again changes nothing. */
    method CancelAnimation()
      requires Valid()
      modifies this
      ensures Valid()
      ensures animationFrame.None? && scheduledFrames == {} && nextFrameId == old(nextFrameId)
      ensures CurrentStage() == old(CurrentStage()) && Scene() == old(Scene()) && meshNames == old(meshNames)
      ensures loadedTree == old(loadedTree)
    {
      if animationFrame.Some? {
        scheduledFrames := scheduledFrames - {animationFrame.value};
        animationFrame := None;
      }
    }

    /** Starts the frame loop: cancel any pending frame, then request one. */
    method StartAnimation()
      requires Valid()
      modifies this
      ensures Valid()
      ensures animationFrame == Some(old(nextFrameId)) && scheduledFrames == {animationFrame.value}
      ensures animationFrame.value !in old(scheduledFrames)
      ensures CurrentStage() == old(CurrentStage()) && Scene() == old(Scene()) && meshNames == old(meshNames)
      ensures loadedTree == old(loadedTree)
    {
      CancelAnimation();
      var id := RequestFrame();
      animationFrame := Some(id);
    }

    /**
     * The scheduler runs pending frame `id`: with auto-rotation on, turn the
     * loaded model about the vertical axis by the configured speed, then
     * request the next frame. Drawing is not modelled.
     */
    method AnimationFrame(id: nat)
      requires Valid() && id in scheduledFrames
      modifies this
      ensures Valid()
      ensures old(model).Some? && cfg.autoRotate ==>
                model == Some(old(model).value.(rotation := old(model).value.rotation.(y := old(model).value.rotation.y + cfg.autoRotateSpeed)))
      ensures old(model).None? || !cfg.autoRotate ==> model == old(model)
      ensures animationFrame == Some(old(nextFrameId)) && scheduledFrames == {animationFrame.value}
      ensures camera == old(camera) && gesture == old(gesture)
      ensures Scene() == old(Scene()) && meshNames == old(meshNames)
    {
      scheduledFrames := scheduledFrames - {id};
      if model.Some? && cfg.autoRotate {
        var m := model.value;
        model := Some(m.(rotation := m.rotation.(y := m.rotation.y + cfg.autoRotateSpeed)));
      }
      var next := RequestFrame();
      animationFrame := Some(next);
    }
  }
}
