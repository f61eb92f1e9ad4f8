/**
 * Materials of the loaded meshes and the highlight applied to a selected mesh.
 * Materials are values: cloning one is copying it, so the material a highlight
 * replaces (and the copy kept in the originals map) is never changed.
 */
module Materials {
  import opened Options

  /** The material classes the highlight distinguishes; Other stands for every other class. */
  datatype MaterialKind = Standard | Basic | Phong | Other

  /** A material: its class and the colour channels it has (hex values). */
  datatype Material = Material(kind: MaterialKind, color: Option<int>, emissive: Option<int>)

  /** What a mesh carries: one material or an array of them. */
  datatype MaterialSlot = Single(material: Material) | Many(materials: seq<Material>)

  /** The glow written into the emissive channel of a highlighted material. */
  const HighlightGlow: int := 0x222222

  /** The material classes whose entries of a material array are recoloured. */
  predicate IsColorModel(kind: MaterialKind) {
    kind.Standard? || kind.Basic? || kind.Phong?
  }

  /** One entry of a material array after highlighting. */
  function HighlightEntry(m: Material, color: int): (r: Material)
    ensures r.kind == m.kind
    ensures r.emissive.Some? == m.emissive.Some?
    ensures IsColorModel(m.kind) ==> r.color == Some(color)
    ensures IsColorModel(m.kind) && m.emissive.Some? ==> r.emissive == Some(HighlightGlow)
    ensures !IsColorModel(m.kind) ==> r == m
  {
    if IsColorModel(m.kind) then
      m.(color := Some(color), emissive := if m.emissive.Some? then Some(HighlightGlow) else None)
    else
      m
  }

  /** A single material after highlighting: only the channels it has are overridden. */
  function HighlightSingle(m: Material, color: int): (r: Material)
    ensures r.kind == m.kind
    ensures r.color.Some? == m.color.Some? && r.emissive.Some? == m.emissive.Some?
    ensures m.color.Some? ==> r.color == Some(color)
    ensures m.emissive.Some? ==> r.emissive == Some(HighlightGlow)
  {
    m.(color := if m.color.Some? then Some(color) else None,
       emissive := if m.emissive.Some? then Some(HighlightGlow) else None)
  }

  /**
   * The material a mesh gets when it is highlighted with `color`: an array is
   * mapped entry by entry (same length, same order), a single material is
   * cloned and recoloured.
   */
  function Highlight(slot: MaterialSlot, color: int): (r: MaterialSlot)
    ensures r.Single? == slot.Single?
    ensures slot.Single? ==> r.material == HighlightSingle(slot.material, color)
    ensures slot.Many? ==> |r.materials| == |slot.materials|
    ensures slot.Many? ==> forall i :: 0 <= i < |slot.materials| ==>
              r.materials[i] == HighlightEntry(slot.materials[i], color)
  {
    match slot
    case Single(m) => Single(HighlightSingle(m, color))
    case Many(ms) => Many(seq(|ms|, i requires 0 <= i < |ms| => HighlightEntry(ms[i], color)))
  }

  /**
   * Highlighting an already highlighted material with a new colour gives the
   * same material as highlighting the original with the new colour: recolouring
   * never compounds.
   */
  lemma HighlightOverrides(slot: MaterialSlot, c1: int, c2: int)
    ensures Highlight(Highlight(slot, c1), c2) == Highlight(slot, c2)
  {
    match slot
    case Single(m) =>
    case Many(ms) =>
      var twice := Highlight(Highlight(slot, c1), c2).materials;
      var once := Highlight(slot, c2).materials;
      assert |twice| == |once|;
      forall i | 0 <= i < |ms| ensures twice[i] == once[i] {
        assert Highlight(slot, c1).materials[i] == HighlightEntry(ms[i], c1);
      }
      assert twice == once;
  }

  /** Highlighting twice with the same colour is highlighting once. */
  lemma HighlightIdempotent(slot: MaterialSlot, color: int)
    ensures Highlight(Highlight(slot, color), color) == Highlight(slot, color)
  {
    HighlightOverrides(slot, color, color);
  }
}
