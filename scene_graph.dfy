/**
 * The object tree of a loaded model. The tree is kept as a sequence of
 * objects in the order a depth-first traversal visits them (root first);
 * an object's position is its identity and each object names its parent by
 * position. Meshes are the objects that carry a material.
 */
module SceneGraph {
  import opened Options
  import opened Materials

  /** One object of the model: its name, its parent's position, and its material when it is a Mesh. */
  datatype SceneNode = SceneNode(name: string, parent: Option<nat>, material: Option<MaterialSlot>) {
    predicate IsMesh() {
      material.Some?
    }
  }

  /** Only the root (position 0) has no parent, and every parent comes before its children. */
  predicate ParentsBefore(nodes: seq<SceneNode>) {
    forall i :: 0 <= i < |nodes| ==>
      (nodes[i].parent.None? <==> i == 0) &&
      (nodes[i].parent.Some? ==> nodes[i].parent.value < i)
  }

  /** `a` is `j` itself or an ancestor of `j`. */
  predicate IsAncestorOrSelf(nodes: seq<SceneNode>, a: nat, j: nat)
    requires j < |nodes|
    decreases j
  {
    j == a ||
    (nodes[j].parent.Some? && nodes[j].parent.value < j &&
     IsAncestorOrSelf(nodes, a, nodes[j].parent.value))
  }

  /**
   * The sequence is a pre-order traversal of a tree: each object's parent lies
   * on the path from the root to the object listed just before it.
   */
  predicate WellFormed(nodes: seq<SceneNode>) {
    ParentsBefore(nodes) &&
    forall i :: 0 < i < |nodes| ==> ParentOnPath(nodes, i)
  }

  /** The parent of object `i` is on the path from the root to object `i - 1`. */
  predicate ParentOnPath(nodes: seq<SceneNode>, i: nat)
    requires 0 < i < |nodes| && ParentsBefore(nodes)
  {
    IsAncestorOrSelf(nodes, nodes[i].parent.value, i - 1)
  }

  /** Two object sequences that differ at most in the materials their meshes carry. */
  predicate SameStructure(a: seq<SceneNode>, b: seq<SceneNode>) {
    |a| == |b| &&
    forall i :: 0 <= i < |a| ==>
      a[i].name == b[i].name && a[i].parent == b[i].parent && a[i].IsMesh() == b[i].IsMesh()
  }

  /** Ancestors come no later than their descendants. */
  lemma {:induction false} AncestorNotAfter(nodes: seq<SceneNode>, a: nat, j: nat)
    requires j < |nodes| && IsAncestorOrSelf(nodes, a, j)
    ensures a <= j
    decreases j
  {
    if j != a {
      AncestorNotAfter(nodes, a, nodes[j].parent.value);
    }
  }

  lemma {:induction false} AncestorSameStructure(a: seq<SceneNode>, b: seq<SceneNode>, x: nat, j: nat)
    requires SameStructure(a, b) && j < |a|
    ensures IsAncestorOrSelf(a, x, j) == IsAncestorOrSelf(b, x, j)
    decreases j
  {
    if j != x && a[j].parent.Some? && a[j].parent.value < j {
      AncestorSameStructure(a, b, x, a[j].parent.value);
    }
  }

  /** What a load fixes about each object: its name, its parent and whether it is a Mesh. */
  function Shape(nodes: seq<SceneNode>): seq<(string, Option<nat>, bool)> {
    seq(|nodes|, i requires 0 <= i < |nodes| => (nodes[i].name, nodes[i].parent, nodes[i].IsMesh()))
  }

  /** Two models have the same shape exactly when they have the same structure. */
  lemma ShapeIsStructure(a: seq<SceneNode>, b: seq<SceneNode>)
    ensures Shape(a) == Shape(b) <==> SameStructure(a, b)
  {
    if Shape(a) == Shape(b) {
      forall i | 0 <= i < |a| ensures a[i].name == b[i].name && a[i].parent == b[i].parent && a[i].IsMesh() == b[i].IsMesh() {
        assert Shape(a)[i] == Shape(b)[i];
      }
    }
    if SameStructure(a, b) {
      assert forall i :: 0 <= i < |a| ==> Shape(a)[i] == Shape(b)[i];
    }
  }

  /** Changing materials never changes whether the objects form a tree. */
  lemma WellFormedSameStructure(a: seq<SceneNode>, b: seq<SceneNode>)
    requires SameStructure(a, b) && WellFormed(a)
    ensures WellFormed(b)
  {
    forall i | 0 < i < |b| ensures ParentOnPath(b, i) {
      assert ParentOnPath(a, i);
      AncestorSameStructure(a, b, a[i].parent.value, i - 1);
    }
  }

  // ---------------------------------------------------------------------------
  // The load traversal: the mesh list and the map of original materials

  /** Positions of the meshes among the first `n` objects, in traversal order. */
  function MeshIndicesBelow(nodes: seq<SceneNode>, n: nat): (r: seq<nat>)
    requires n <= |nodes|
    ensures forall k :: 0 <= k < |r| ==> r[k] < n && nodes[r[k]].IsMesh()
    ensures forall i :: 0 <= i < n && nodes[i].IsMesh() ==> i in r
    ensures forall k, l :: 0 <= k < l < |r| ==> r[k] < r[l]
  {
    if n == 0 then []
    else MeshIndicesBelow(nodes, n - 1) + (if nodes[n - 1].IsMesh() then [n - 1] else [])
  }

  /** Positions of all meshes, in traversal order. */
  function MeshIndices(nodes: seq<SceneNode>): seq<nat> {
    MeshIndicesBelow(nodes, |nodes|)
  }

  /** Names of the meshes among the first `n` objects, in traversal order. */
  function MeshNamesBelow(nodes: seq<SceneNode>, n: nat): (r: seq<string>)
    requires n <= |nodes|
    ensures |r| == |MeshIndicesBelow(nodes, n)|
    ensures forall k :: 0 <= k < |r| ==> r[k] == nodes[MeshIndicesBelow(nodes, n)[k]].name
  {
    if n == 0 then []
    else MeshNamesBelow(nodes, n - 1) + (if nodes[n - 1].IsMesh() then [nodes[n - 1].name] else [])
  }

  /** The last mesh named `name` among the first `n` objects. */
  function LastMeshNamedBelow(nodes: seq<SceneNode>, name: string, n: nat): (r: Option<nat>)
    requires n <= |nodes|
    ensures r.Some? ==> r.value < n && nodes[r.value].IsMesh() && nodes[r.value].name == name
    ensures r.Some? ==> forall l :: r.value < l < n ==> !(nodes[l].IsMesh() && nodes[l].name == name)
    ensures r.None? ==> forall l :: 0 <= l < n ==> !(nodes[l].IsMesh() && nodes[l].name == name)
  {
    if n == 0 then None
    else if nodes[n - 1].IsMesh() && nodes[n - 1].name == name then Some(n - 1)
    else LastMeshNamedBelow(nodes, name, n - 1)
  }

  /**
   * The map of original materials built by the first `n` steps of the load
   * traversal: every mesh writes its material under its name, so a later
   * mesh overwrites an earlier one of the same name.
   */
  function OriginalsBelow(nodes: seq<SceneNode>, n: nat): map<string, MaterialSlot>
    requires n <= |nodes|
  {
    if n == 0 then map[]
    else
      var prev := OriginalsBelow(nodes, n - 1);
      if nodes[n - 1].IsMesh() then prev[nodes[n - 1].name := nodes[n - 1].material.value] else prev
  }

  /**
   * The map has a key exactly for each name some mesh among the first `n`
   * bears, and each key holds the material of the last such mesh.
   */
  lemma {:induction false} OriginalsBelowSpec(nodes: seq<SceneNode>, n: nat)
    requires n <= |nodes|
    ensures forall k :: k in OriginalsBelow(nodes, n) <==> LastMeshNamedBelow(nodes, k, n).Some?
    ensures forall k :: k in OriginalsBelow(nodes, n) ==>
              OriginalsBelow(nodes, n)[k] == nodes[LastMeshNamedBelow(nodes, k, n).value].material.value
  {
    if n > 0 {
      OriginalsBelowSpec(nodes, n - 1);
    }
  }

  function Originals(nodes: seq<SceneNode>): map<string, MaterialSlot> {
    OriginalsBelow(nodes, |nodes|)
  }

  /** Every mesh's name is a key of the originals map. */
  lemma MeshNamesAreKeys(nodes: seq<SceneNode>)
    ensures forall i :: 0 <= i < |nodes| && nodes[i].IsMesh() ==> nodes[i].name in Originals(nodes)
  {
    OriginalsBelowSpec(nodes, |nodes|);
    forall i | 0 <= i < |nodes| && nodes[i].IsMesh() ensures nodes[i].name in Originals(nodes) {
      assert LastMeshNamedBelow(nodes, nodes[i].name, |nodes|).Some?;
    }
  }

  // ---------------------------------------------------------------------------
  // First mesh in traversal order

  /** What a traversal looks for: a mesh with a given name, or any mesh in a given subtree. */
  datatype Probe = Named(name: string) | Under(root: nat)

  predicate Matches(nodes: seq<SceneNode>, p: Probe, j: nat)
    requires j < |nodes|
  {
    nodes[j].IsMesh() &&
    match p
    case Named(name) => nodes[j].name == name
    case Under(root) => IsAncestorOrSelf(nodes, root, j)
  }

  /** The first object at or after position `k` that matches `p`. */
  function FirstMatch(nodes: seq<SceneNode>, p: Probe, k: nat): (r: Option<nat>)
    ensures r.Some? ==> k <= r.value < |nodes| && Matches(nodes, p, r.value)
    ensures r.Some? ==> forall j :: k <= j < r.value ==> !Matches(nodes, p, j)
    ensures r.None? ==> forall j :: k <= j < |nodes| ==> !Matches(nodes, p, j)
    decreases |nodes| - k
  {
    if k >= |nodes| then None
    else if Matches(nodes, p, k) then Some(k)
    else FirstMatch(nodes, p, k + 1)
  }

  /** The first Mesh named `name` in a traversal of the whole model. */
  function FirstMeshNamed(nodes: seq<SceneNode>, name: string): (r: Option<nat>)
    ensures r.Some? ==> r.value < |nodes| && nodes[r.value].IsMesh() && nodes[r.value].name == name
    ensures r.Some? ==> forall j :: 0 <= j < r.value ==> !(nodes[j].IsMesh() && nodes[j].name == name)
    ensures r.None? ==> forall j :: 0 <= j < |nodes| ==> !(nodes[j].IsMesh() && nodes[j].name == name)
  {
    var r := FirstMatch(nodes, Named(name), 0);
    assert forall j :: 0 <= j < |nodes| ==> (Matches(nodes, Named(name), j) <==> nodes[j].IsMesh() && nodes[j].name == name);
    r
  }

  /** The first Mesh in a traversal of the subtree rooted at `c` (which starts at `c`). */
  function FirstMeshUnder(nodes: seq<SceneNode>, c: nat): (r: Option<nat>)
    ensures r.Some? ==> c <= r.value < |nodes| && nodes[r.value].IsMesh() && IsAncestorOrSelf(nodes, c, r.value)
    ensures r.None? ==> forall j :: c <= j < |nodes| ==> !(nodes[j].IsMesh() && IsAncestorOrSelf(nodes, c, j))
  {
    var r := FirstMatch(nodes, Under(c), c);
    assert forall j :: c <= j < |nodes| ==> (Matches(nodes, Under(c), j) <==> nodes[j].IsMesh() && IsAncestorOrSelf(nodes, c, j));
    r
  }

  /** Starting the subtree's traversal at its root misses nothing: no descendant comes earlier. */
  lemma FirstMeshUnderIsFirstOverall(nodes: seq<SceneNode>, c: nat)
    ensures FirstMeshUnder(nodes, c) == FirstMatch(nodes, Under(c), 0)
  {
    forall j | 0 <= j < c && j < |nodes| ensures !Matches(nodes, Under(c), j) {
      if Matches(nodes, Under(c), j) {
        AncestorNotAfter(nodes, c, j);
      }
    }
    FirstMatchSkips(nodes, Under(c), 0, c);
  }

  /** Positions before `k` that do not match can be skipped. */
  lemma {:induction false} FirstMatchSkips(nodes: seq<SceneNode>, p: Probe, i: nat, k: nat)
    requires i <= k
    requires forall j :: i <= j < k && j < |nodes| ==> !Matches(nodes, p, j)
    ensures FirstMatch(nodes, p, i) == FirstMatch(nodes, p, k)
    decreases k - i
  {
    if i < k && i < |nodes| {
      FirstMatchSkips(nodes, p, i + 1, k);
    }
  }

  lemma {:induction false} FirstMatchSameStructure(a: seq<SceneNode>, b: seq<SceneNode>, p: Probe, k: nat)
    requires SameStructure(a, b)
    ensures FirstMatch(a, p, k) == FirstMatch(b, p, k)
    decreases |a| - k
  {
    if k < |a| {
      if p.Under? {
        AncestorSameStructure(a, b, p.root, k);
      }
      FirstMatchSameStructure(a, b, p, k + 1);
    }
  }

  // ---------------------------------------------------------------------------
  // The walk from a hit object up to a named ancestor

  /**
   * Climbs from `i` while the object is unnamed and has a parent; the result
   * is `i` or an ancestor of it, and it is named or the root.
   */
  function NamedAncestor(nodes: seq<SceneNode>, i: nat): (r: nat)
    requires ParentsBefore(nodes) && i < |nodes|
    ensures r <= i && IsAncestorOrSelf(nodes, r, i)
    ensures nodes[r].name != "" || nodes[r].parent.None?
    ensures nodes[i].name != "" ==> r == i
    decreases i
  {
    if nodes[i].name == "" && nodes[i].parent.Some? then NamedAncestor(nodes, nodes[i].parent.value)
    else i
  }

  /**
   * The walk stops at the NEAREST named-or-root ancestor: every object from
   * the hit up to (not including) the result is unnamed and has a parent.
   */
  lemma {:induction false} NamedAncestorIsNearest(nodes: seq<SceneNode>, i: nat)
    requires ParentsBefore(nodes) && i < |nodes|
    ensures forall a: nat ::
              (a <= i && IsAncestorOrSelf(nodes, a, i) && IsAncestorOrSelf(nodes, NamedAncestor(nodes, i), a) &&
               a != NamedAncestor(nodes, i)) ==>
              nodes[a].name == "" && nodes[a].parent.Some?
    decreases i
  {
    var r := NamedAncestor(nodes, i);
    if nodes[i].name == "" && nodes[i].parent.Some? {
      var p := nodes[i].parent.value;
      NamedAncestorIsNearest(nodes, p);
      forall a: nat | a <= i && IsAncestorOrSelf(nodes, a, i) && IsAncestorOrSelf(nodes, r, a) && a != r
        ensures nodes[a].name == "" && nodes[a].parent.Some?
      {
        if a != i {
          AncestorNotAfter(nodes, a, p);
        }
      }
    } else {
      forall a: nat | a <= i && IsAncestorOrSelf(nodes, a, i) && IsAncestorOrSelf(nodes, r, a)
        ensures a == r
      {
        AncestorNotAfter(nodes, r, a);
      }
    }
  }

  lemma {:induction false} NamedAncestorSameStructure(a: seq<SceneNode>, b: seq<SceneNode>, i: nat)
    requires SameStructure(a, b) && ParentsBefore(a) && ParentsBefore(b) && i < |a|
    ensures NamedAncestor(a, i) == NamedAncestor(b, i)
    decreases i
  {
    if a[i].name == "" && a[i].parent.Some? {
      NamedAncestorSameStructure(a, b, a[i].parent.value);
    }
  }
}
