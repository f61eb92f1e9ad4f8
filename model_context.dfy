/**
 * The model context: a provider that holds a reference to one model group
 * and offers four operations on it: set the reference, set the rotation about
 * one axis, set a uniform scale, and reset rotation and scale. Every operation
 * but the first does nothing while no group is set.
 */
module ModelContext {
  import opened Geometry

  /** A model group: its rotation (radians, per axis) and its scale, changed in place. */
  class Group3D {
    var rotation: Vec3
    var scale: Vec3

    constructor (rotation: Vec3, scale: Vec3)
      ensures this.rotation == rotation && this.scale == scale
    {
      this.rotation := rotation;
      this.scale := scale;
    }
  }

  const Unrotated: Vec3 := Vec3(0.0, 0.0, 0.0)
  const UnitScale: Vec3 := Vec3(1.0, 1.0, 1.0)

  class ModelProvider {
    /** The group the operations act on; none until one is set. */
    var modelRef: Group3D?

    constructor ()
      ensures modelRef == null
    {
      modelRef := null;
    }

    /** Makes `model` the group the other operations act on; the group itself is untouched. */
    method SetModel(model: Group3D)
      modifies this
      ensures modelRef == model
      ensures model.rotation == old(model.rotation) && model.scale == old(model.scale)
    {
      modelRef := model;
    }

    /** Sets the group's rotation about `axis` to `angle` (not added to it); the other axes and the scale stay. */
    method RotateModel(axis: Axis, angle: real)
      modifies modelRef
      ensures modelRef != null ==>
                && modelRef.rotation.Get(axis) == angle
                && (forall other: Axis :: other != axis ==> modelRef.rotation.Get(other) == old(modelRef.rotation).Get(other))
                && modelRef.scale == old(modelRef.scale)
    {
      if modelRef == null {
        return;
      }
      if axis == X {
        modelRef.rotation := modelRef.rotation.(x := angle);
      }
      if axis == Y {
        modelRef.rotation := modelRef.rotation.(y := angle);
      }
      if axis == Z {
        modelRef.rotation := modelRef.rotation.(z := angle);
      }
    }

    /** Sets a uniform scale on all three axes; the rotation stays. */
    method ScaleModel(scale: real)
      modifies modelRef
      ensures modelRef != null ==>
                modelRef.scale == Vec3(scale, scale, scale) && modelRef.rotation == old(modelRef.rotation)
    {
      if modelRef == null {
        return;
      }
      modelRef.scale := Vec3(scale, scale, scale);
    }

    /** Puts the rotation back to zero and the scale to one, whatever they were. */
    method ResetModel()
      modifies modelRef
      ensures modelRef != null ==> modelRef.rotation == Unrotated && modelRef.scale == UnitScale
    {
      if modelRef == null {
        return;
      }
      modelRef.rotation := Vec3(0.0, 0.0, 0.0);
      modelRef.scale := Vec3(1.0, 1.0, 1.0);
    }
  }

  /**
   * After the reference moves to a new group, the operations change only the
   * new group: the previous one keeps its rotation and scale whatever axis,
   * angle and scale are applied, and whether or not a reset follows.
   */
  method ReplacedModelIsUntouched(provider: ModelProvider, previous: Group3D, next: Group3D,
                                  axis: Axis, angle: real, s: real, reset: bool)
    requires provider.modelRef == previous && previous != next
    modifies provider, next
    ensures provider.modelRef == next
    ensures previous.rotation == old(previous.rotation) && previous.scale == old(previous.scale)
    ensures !reset ==>
              && next.rotation.Get(axis) == angle
              && (forall other: Axis :: other != axis ==> next.rotation.Get(other) == old(next.rotation).Get(other))
              && next.scale == Vec3(s, s, s)
    ensures reset ==> next.rotation == Unrotated && next.scale == UnitScale
  {
    provider.SetModel(next);
    provider.RotateModel(axis, angle);
    provider.ScaleModel(s);
    if reset {
      provider.ResetModel();
    }
  }
}
