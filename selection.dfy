/**
 * The material/selection store of the viewer as a value, with one function
 * per operation: restoring all originals, highlighting one mesh, selecting by
 * name, changing the highlight colour, and resolving a ray-cast hit. The
 * viewer's methods are proved to change their state exactly as these do.
 */
module Selection {
  import opened Options
  import opened Materials
  import opened SceneGraph

  /**
   * The objects of the loaded model (with the materials they carry now), the
   * positions of its meshes, the originals map captured at load, the selected
   * name and the highlight colour.
   */
  datatype SceneContent = SceneContent(
    nodes: seq<SceneNode>,
    meshes: seq<nat>,
    originals: map<string, MaterialSlot>,
    selected: Option<string>,
    color: int)

  /** The selection and the colour are free; the objects, mesh list and originals must agree. */
  predicate Consistent(sc: SceneContent) {
    Indexed(sc.nodes, sc.meshes, sc.originals)
  }

  /** `meshes` lists exactly the meshes, and every mesh's name has an original. */
  predicate Indexed(nodes: seq<SceneNode>, meshes: seq<nat>, originals: map<string, MaterialSlot>) {
    WellFormed(nodes) &&
    (forall k :: 0 <= k < |meshes| ==>
       meshes[k] < |nodes| && nodes[meshes[k]].IsMesh() && nodes[meshes[k]].name in originals) &&
    (forall i :: 0 <= i < |nodes| && nodes[i].IsMesh() ==> i in meshes)
  }

  /**
   * The content descends from the load of `tree`: the originals map is the
   * one the load traversal built from it, and only materials changed since.
   */
  predicate FromLoad(tree: seq<SceneNode>, nodes: seq<SceneNode>, originals: map<string, MaterialSlot>) {
    originals == Originals(tree) && Shape(tree) == Shape(nodes)
  }

  /** Every mesh listed in `meshes` whose name is a key gets that key's material; nothing else changes. */
  function Restored(nodes: seq<SceneNode>, meshes: seq<nat>, originals: map<string, MaterialSlot>): seq<SceneNode> {
    seq(|nodes|, i requires 0 <= i < |nodes| =>
      if i in meshes && nodes[i].name in originals then nodes[i].(material := Some(originals[nodes[i].name]))
      else nodes[i])
  }

  /** `nodes` with mesh `a` carrying `slot`. */
  function WithMaterial(nodes: seq<SceneNode>, a: nat, slot: MaterialSlot): seq<SceneNode>
    requires a < |nodes|
  {
    nodes[a := nodes[a].(material := Some(slot))]
  }

  /** Puts every mesh back to the original stored under its name. */
  function RestoreAll(sc: SceneContent): (r: SceneContent)
    requires Consistent(sc)
    ensures Consistent(r) && SameStructure(sc.nodes, r.nodes)
    ensures r == sc.(nodes := r.nodes)
    ensures forall i :: 0 <= i < |sc.nodes| && sc.nodes[i].IsMesh() ==>
              r.nodes[i].material == Some(sc.originals[sc.nodes[i].name])
    ensures forall i :: 0 <= i < |sc.nodes| && !sc.nodes[i].IsMesh() ==> r.nodes[i] == sc.nodes[i]
  {
    var r := sc.(nodes := Restored(sc.nodes, sc.meshes, sc.originals));
    WellFormedSameStructure(sc.nodes, r.nodes);
    r
  }

  /** The content right after load is consistent: the traversal found exactly the meshes and every name has an original. */
  lemma LoadedConsistent(sc: SceneContent)
    requires WellFormed(sc.nodes) && sc.meshes == MeshIndices(sc.nodes) && sc.originals == Originals(sc.nodes)
    ensures Consistent(sc)
  {
    MeshNamesAreKeys(sc.nodes);
  }

  /** Restoring one more listed mesh: the step the restore loop takes. */
  lemma RestoredStep(nodes: seq<SceneNode>, meshes: seq<nat>, originals: map<string, MaterialSlot>, k: nat)
    requires k < |meshes| && meshes[k] < |nodes|
    ensures var cur := Restored(nodes, meshes[..k], originals);
      var m := meshes[k];
      Restored(nodes, meshes[..k + 1], originals) ==
        if cur[m].name in originals then cur[m := cur[m].(material := Some(originals[cur[m].name]))] else cur
  {
    assert meshes[..k + 1] == meshes[..k] + [meshes[k]];
  }

  /** Replaces mesh `a`'s material by its highlighted copy in the current colour. */
  function HighlightMesh(sc: SceneContent, a: nat): (r: SceneContent)
    requires Consistent(sc) && a < |sc.nodes| && sc.nodes[a].IsMesh()
    ensures Consistent(r) && SameStructure(sc.nodes, r.nodes)
    ensures r == sc.(nodes := r.nodes)
    ensures r.nodes[a].material == Some(Highlight(sc.nodes[a].material.value, sc.color))
    ensures forall i :: 0 <= i < |sc.nodes| && i != a ==> r.nodes[i] == sc.nodes[i]
  {
    var r := sc.(nodes := WithMaterial(sc.nodes, a, Highlight(sc.nodes[a].material.value, sc.color)));
    WellFormedSameStructure(sc.nodes, r.nodes);
    r
  }

  /** The first mesh named `name`, if any. */
  function Find(sc: SceneContent, name: string): (r: Option<nat>)
    ensures r.Some? <==> exists i :: 0 <= i < |sc.nodes| && sc.nodes[i].IsMesh() && sc.nodes[i].name == name
    ensures r.Some? ==> r.value < |sc.nodes| && sc.nodes[r.value].IsMesh() && sc.nodes[r.value].name == name
    ensures r.Some? ==> forall j :: 0 <= j < r.value ==> !(sc.nodes[j].IsMesh() && sc.nodes[j].name == name)
  {
    FirstMeshNamed(sc.nodes, name)
  }

  /**
   * Selecting by name: restore everything and clear the selection, then
   * highlight the first mesh with that name and select the name, if there is one.
   */
  function SelectByName(sc: SceneContent, name: string): (r: (SceneContent, bool))
    requires Consistent(sc)
    ensures Consistent(r.0) && SameStructure(sc.nodes, r.0.nodes)
    ensures r.0 == sc.(nodes := r.0.nodes, selected := r.0.selected)
  {
    var cleared := RestoreAll(sc).(selected := None);
    match Find(cleared, name)
    case Some(a) => (HighlightMesh(cleared, a).(selected := Some(name)), true)
    case None => (cleared, false)
  }

  /**
   * Changing the highlight colour: when `name` is the selected name the first
   * mesh of that name is re-highlighted in place; otherwise this is a selection.
   */
  function ChangeColor(sc: SceneContent, name: string, color: int): (r: (SceneContent, bool))
    requires Consistent(sc)
    ensures Consistent(r.0) && SameStructure(sc.nodes, r.0.nodes)
    ensures r.0 == sc.(nodes := r.0.nodes, selected := r.0.selected, color := color)
  {
    var recolored := sc.(color := color);
    if sc.selected == Some(name) then
      match Find(recolored, name)
      case Some(a) => (HighlightMesh(recolored, a), true)
      case None => (recolored, false)
    else SelectByName(recolored, name)
  }

  /**
   * Resolving a hit object: climb to the nearest named ancestor (or the root);
   * the mesh to highlight is that object when it is a Mesh, else the first
   * Mesh of its subtree. The result is the ancestor's name and that mesh.
   */
  function Resolve(nodes: seq<SceneNode>, hit: nat): (r: Option<(string, nat)>)
    requires WellFormed(nodes) && hit < |nodes|
    ensures r.Some? ==> r.value.1 < |nodes| && nodes[r.value.1].IsMesh()
    ensures r.Some? ==> r.value.0 == nodes[NamedAncestor(nodes, hit)].name
    ensures r.Some? ==> Some(r.value.1) == FirstMatch(nodes, Under(NamedAncestor(nodes, hit)), 0)
    ensures r.None? <==> FirstMatch(nodes, Under(NamedAncestor(nodes, hit)), 0).None?
  {
    var target := NamedAncestor(nodes, hit);
    FirstMeshUnderIsFirstOverall(nodes, target);
    var mesh := if nodes[target].IsMesh() then Some(target) else FirstMeshUnder(nodes, target);
    if mesh.Some? then Some((nodes[target].name, mesh.value)) else None
  }

  /**
   * A pick at a point whose ray hit `hit` (the nearest object, if any): restore
   * everything first, then highlight the resolved mesh and select the resolved
   * name, or clear the selection. The second component is the name reported
   * to the click listener.
   */
  function Pick(sc: SceneContent, hit: Option<nat>): (r: (SceneContent, Option<string>))
    requires Consistent(sc) && (hit.Some? ==> hit.value < |sc.nodes|)
    ensures Consistent(r.0) && SameStructure(sc.nodes, r.0.nodes)
    ensures r.1 == r.0.selected
    ensures r.0 == sc.(nodes := r.0.nodes, selected := r.0.selected)
  {
    Choose(RestoreAll(sc), hit)
  }

  /** The step of a pick after the restore: highlight the resolved mesh and select its name, or select nothing. */
  function Choose(cleared: SceneContent, hit: Option<nat>): (r: (SceneContent, Option<string>))
    requires Consistent(cleared) && (hit.Some? ==> hit.value < |cleared.nodes|)
    ensures Consistent(r.0) && SameStructure(cleared.nodes, r.0.nodes)
    ensures r.1 == r.0.selected
    ensures r.0 == cleared.(nodes := r.0.nodes, selected := r.0.selected)
  {
    var resolved := if hit.Some? then Resolve(cleared.nodes, hit.value) else None;
    match resolved
    case Some((name, a)) => (HighlightMesh(cleared, a).(selected := Some(name)), Some(name))
    case None => (cleared.(selected := None), None)
  }

  // ---------------------------------------------------------------------------
  // Properties

  /** Restoring twice is restoring once. */
  lemma RestoreAllIdempotent(sc: SceneContent)
    requires Consistent(sc)
    ensures RestoreAll(RestoreAll(sc)) == RestoreAll(sc)
  {
    var once := RestoreAll(sc);
    var twice := RestoreAll(once);
    assert twice.nodes == once.nodes;
  }

  /**
   * The originals map is built once, at load: whatever highlights came since,
   * a restore gives every mesh the load-time material of the last mesh that
   * bore its name (itself, or a later mesh with the same name).
   */
  lemma RestoreGivesLoadTimeMaterial(tree: seq<SceneNode>, sc: SceneContent)
    requires Consistent(sc) && FromLoad(tree, sc.nodes, sc.originals)
    ensures forall i :: 0 <= i < |sc.nodes| && sc.nodes[i].IsMesh() ==>
              var last := LastMeshNamedBelow(tree, sc.nodes[i].name, |tree|);
              && last.Some? && i <= last.value
              && RestoreAll(sc).nodes[i].material == tree[last.value].material
  {
    OriginalsBelowSpec(tree, |tree|);
    ShapeIsStructure(tree, sc.nodes);
    forall i | 0 <= i < |sc.nodes| && sc.nodes[i].IsMesh()
      ensures var last := LastMeshNamedBelow(tree, sc.nodes[i].name, |tree|);
              last.Some? && i <= last.value && RestoreAll(sc).nodes[i].material == tree[last.value].material
    {
      var name := sc.nodes[i].name;
      assert tree[i].IsMesh() && tree[i].name == name;
      var last := LastMeshNamedBelow(tree, name, |tree|);
      assert last.Some? && i <= last.value;
      assert name in Originals(tree);
    }
  }

  /** The outcome of a restore depends only on the structure and the originals, not on any earlier highlight. */
  lemma RestoreAllForgetsHighlights(sc1: SceneContent, sc2: SceneContent)
    requires Consistent(sc1) && Consistent(sc2)
    requires SameStructure(sc1.nodes, sc2.nodes) && sc1.originals == sc2.originals
    ensures RestoreAll(sc1).nodes == RestoreAll(sc2).nodes
  {
    var r1, r2 := RestoreAll(sc1).nodes, RestoreAll(sc2).nodes;
    forall i | 0 <= i < |r1| ensures r1[i] == r2[i] {
      if !sc1.nodes[i].IsMesh() {
        assert sc1.nodes[i].material == None == sc2.nodes[i].material;
      }
    }
  }

  /**
   * Selecting by name succeeds exactly when some mesh has that name; afterwards
   * the first such mesh carries the highlight of its original, every other mesh
   * carries its original, and the name is selected (nothing is on failure).
   */
  lemma SelectByNameSpec(sc: SceneContent, name: string)
    requires Consistent(sc)
    ensures var (r, found) := SelectByName(sc, name);
      && (found <==> exists i :: 0 <= i < |sc.nodes| && sc.nodes[i].IsMesh() && sc.nodes[i].name == name)
      && r.selected == (if found then Some(name) else None)
      && r.originals == sc.originals && r.meshes == sc.meshes && r.color == sc.color
      && forall i :: 0 <= i < |sc.nodes| && sc.nodes[i].IsMesh() ==>
           r.nodes[i].material ==
             if found && Some(i) == FirstMeshNamed(sc.nodes, name)
             then Some(Highlight(sc.originals[sc.nodes[i].name], sc.color))
             else Some(sc.originals[sc.nodes[i].name])
  {
    var cleared := RestoreAll(sc).(selected := None);
    FirstMatchSameStructure(sc.nodes, cleared.nodes, Named(name), 0);
    var (r, found) := SelectByName(sc, name);
    if !found {
      assert FirstMeshNamed(sc.nodes, name).None?;
      forall i | 0 <= i < |sc.nodes| ensures !(sc.nodes[i].IsMesh() && sc.nodes[i].name == name) {
        assert !Matches(sc.nodes, Named(name), i);
      }
    } else {
      var a := FirstMeshNamed(sc.nodes, name).value;
      assert Matches(sc.nodes, Named(name), a);
    }
  }

  /**
   * What a selection leaves behind does not depend on what was highlighted or
   * selected before: selecting A, then B, then A again gives A's highlight of
   * its load-time original, never a copy of an earlier highlight.
   */
  lemma SelectForgetsHistory(sc1: SceneContent, sc2: SceneContent, name: string)
    requires Consistent(sc1) && Consistent(sc2)
    requires SameStructure(sc1.nodes, sc2.nodes)
    requires sc1.originals == sc2.originals && sc1.meshes == sc2.meshes && sc1.color == sc2.color
    ensures SelectByName(sc1, name) == SelectByName(sc2, name)
  {
    RestoreAllForgetsHighlights(sc1, sc2);
  }

  /**
   * Changing the colour of the selected name works in place: it reports
   * whether some mesh has the name; if so the first such mesh carries the
   * highlight of the material it has now, in the new colour, and every other
   * object is as it was; if not, no object changes. The selection stays.
   */
  lemma ChangeColorOfSelected(sc: SceneContent, name: string, color: int)
    requires Consistent(sc) && sc.selected == Some(name)
    ensures var (r, found) := ChangeColor(sc, name, color);
            && r.selected == sc.selected
            && (found <==> exists i :: 0 <= i < |sc.nodes| && sc.nodes[i].IsMesh() && sc.nodes[i].name == name)
            && (found ==>
                  var a := FirstMeshNamed(sc.nodes, name).value;
                  && r.nodes[a].material == Some(Highlight(sc.nodes[a].material.value, color))
                  && forall i :: 0 <= i < |sc.nodes| && i != a ==> r.nodes[i] == sc.nodes[i])
            && (!found ==> r.nodes == sc.nodes)
  {
    var (r, found) := ChangeColor(sc, name, color);
    if found {
      assert FirstMeshNamed(sc.nodes, name).Some?;
    } else {
      assert FirstMeshNamed(sc.nodes, name).None?;
    }
  }

  /**
   * Changing the colour of the selected name right after selecting it gives
   * the same scene as selecting it afresh with the new colour.
   */
  lemma ChangeColorAfterSelect(sc: SceneContent, name: string, color: int)
    requires Consistent(sc)
    requires SelectByName(sc, name).1
    ensures ChangeColor(SelectByName(sc, name).0, name, color) == (SelectByName(sc.(color := color), name).0, true)
  {
    var selected := SelectByName(sc, name).0;
    var cleared := RestoreAll(sc).(selected := None);
    var a := Find(cleared, name).value;
    var afresh := SelectByName(sc.(color := color), name).0;
    RestoreAllForgetsHighlights(sc, sc.(color := color));
    HighlightOverrides(cleared.nodes[a].material.value, sc.color, color);
    FirstMatchSameStructure(cleared.nodes, selected.nodes, Named(name), 0);
    var changed := ChangeColor(selected, name, color).0;
    assert changed.nodes == afresh.nodes;
  }

  /**
   * A pick always restores first: afterwards every mesh other than the one it
   * highlights carries its original, and a miss leaves nothing selected.
   */
  lemma PickRestoresOthers(sc: SceneContent, hit: Option<nat>)
    requires Consistent(sc) && (hit.Some? ==> hit.value < |sc.nodes|)
    ensures var (r, clicked) := Pick(sc, hit);
      && (hit.None? ==> clicked.None?)
      && (clicked.None? ==> forall i :: 0 <= i < |sc.nodes| && sc.nodes[i].IsMesh() ==>
                               r.nodes[i].material == Some(sc.originals[sc.nodes[i].name]))
      && (clicked.Some? ==>
            (exists a :: 0 <= a < |sc.nodes| && sc.nodes[a].IsMesh() &&
               r.nodes[a].material == Some(Highlight(sc.originals[sc.nodes[a].name], sc.color)) &&
               forall i :: 0 <= i < |sc.nodes| && sc.nodes[i].IsMesh() && i != a ==>
                 r.nodes[i].material == Some(sc.originals[sc.nodes[i].name])))
  {
    var cleared := RestoreAll(sc);
    if hit.Some? {
      var resolved := Resolve(cleared.nodes, hit.value);
      if resolved.Some? {
        var a := resolved.value.1;
        assert cleared.nodes[a].material == Some(sc.originals[sc.nodes[a].name]);
      }
    }
  }

  /**
   * A pick whose ray hit `hit` targets the nearest named ancestor of `hit` (or
   * the root): the mesh highlighted is that object itself when it is a Mesh,
   * else the first Mesh of its subtree, and the name selected and reported is
   * the target's. With no Mesh there, nothing is selected and the restore is
   * all that happens.
   */
  lemma PickTargetsAncestor(sc: SceneContent, hit: nat)
    requires Consistent(sc) && hit < |sc.nodes|
    ensures var t := NamedAncestor(sc.nodes, hit);
            var mesh := if sc.nodes[t].IsMesh() then Some(t) else FirstMeshUnder(sc.nodes, t);
            var (r, clicked) := Pick(sc, Some(hit));
            && (mesh.Some? <==> clicked.Some?)
            && (mesh.Some? ==>
                  && clicked == Some(sc.nodes[t].name)
                  && IsAncestorOrSelf(sc.nodes, t, mesh.value)
                  && r.nodes[mesh.value].material == Some(Highlight(sc.originals[sc.nodes[mesh.value].name], sc.color)))
            && (mesh.None? ==> r.nodes == RestoreAll(sc).nodes)
  {
    var cleared := RestoreAll(sc);
    var t := NamedAncestor(sc.nodes, hit);
    NamedAncestorSameStructure(sc.nodes, cleared.nodes, hit);
    FirstMeshUnderIsFirstOverall(sc.nodes, t);
    FirstMeshUnderIsFirstOverall(cleared.nodes, t);
    FirstMatchSameStructure(sc.nodes, cleared.nodes, Under(t), 0);
    var mesh := if sc.nodes[t].IsMesh() then Some(t) else FirstMeshUnder(sc.nodes, t);
    assert Resolve(cleared.nodes, hit) == if mesh.Some? then Some((sc.nodes[t].name, mesh.value)) else None;
  }
}
