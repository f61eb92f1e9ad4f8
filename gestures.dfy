/**
 * The gesture interpreter as a state machine: the touch-tracking record, the
 * model's rotation and position and the camera, changed by a touch grant
 * (touch start), each touch move, and the release. Each step is a function;
 * the viewer's handlers are proved to perform exactly these steps.
 */
module Gestures {
  import opened Options
  import opened Geometry

  /** What the interpreter remembers about the current touch sequence; every field may be unset. */
  datatype GestureState = GestureState(
    previousDistance: Option<real>,
    previousRotation: Option<real>,
    previousX: Option<real>,
    previousY: Option<real>,
    isTap: Option<bool>,
    startTime: Option<int>,
    lastTouchX: Option<real>,
    lastTouchY: Option<real>,
    lastCenterX: Option<real>,
    lastCenterY: Option<real>)

  /** The empty record: no touch sequence in progress. */
  const Idle: GestureState := GestureState(None, None, None, None, None, None, None, None, None, None)

  /** The loaded model's rotation (radians) and position. */
  datatype Transform = Transform(rotation: Vec3, position: Vec3)

  /** Everything a gesture reads or changes: the record, the model once loaded, the camera once created. */
  datatype Stage = Stage(gesture: GestureState, model: Option<Transform>, camera: Option<Vec3>)

  /** The camera's reference distance and the zoom bounds; zoom is reference distance / camera distance. */
  datatype ZoomRange = ZoomRange(referenceZ: real, minZoom: real, maxZoom: real)

  predicate ValidZoom(z: ZoomRange) {
    z.referenceZ > 0.0 && z.minZoom > 0.0
  }

  /** The camera, when there is one, is in front of the origin (so the zoom ratio is defined). */
  predicate CameraInFront(s: Stage) {
    s.camera.Some? ==> s.camera.value.z > 0.0
  }

  /** Whenever a last touch position is recorded, it is the previous single-touch position. */
  predicate TracksLastTouch(g: GestureState) {
    (g.lastTouchX.Some? ==> g.lastTouchX == g.previousX) &&
    (g.lastTouchY.Some? ==> g.lastTouchY == g.previousY)
  }

  /** Radians of rotation per pixel of one-finger drag. */
  const RotateSpeed: real := 0.01
  /** World units of movement per pixel of two-finger pan. */
  const PanSpeed: real := 0.005
  /** Fraction of the twist angle applied to the model. */
  const TwistDamping: real := 0.1
  /** Displacement (pixels, either axis) beyond which a sequence is no longer a tap. */
  const TapSlop: real := 5.0
  /** The double closest to pi, as the platform provides it. */
  const Pi: real := 3.141592653589793

  // ---------------------------------------------------------------------------
  // Touch start

  /**
   * The grant: record the start time; one contact seeds the single-touch
   * trackers and makes the sequence a tap candidate, two seed the distance
   * and angle trackers and rule a tap out.
   */
  function Grant(g: GestureState, touches: seq<Touch>, now: int, m: Metrics): (r: GestureState)
    ensures r.startTime == Some(now)
    ensures |touches| == 1 ==> r.isTap == Some(true) && TracksLastTouch(r)
    ensures |touches| == 1 ==> r.previousX == Some(touches[0].pageX) && r.previousY == Some(touches[0].pageY)
    ensures |touches| == 1 ==> r.lastTouchX == Some(touches[0].pageX) && r.lastTouchY == Some(touches[0].pageY)
    ensures |touches| == 1 ==>
              r.previousDistance == g.previousDistance && r.previousRotation == g.previousRotation &&
              r.lastCenterX == g.lastCenterX && r.lastCenterY == g.lastCenterY
    ensures |touches| == 2 ==> r.isTap == Some(false)
    ensures |touches| == 2 ==>
              r.previousDistance == Some(m.distance(touches[0], touches[1])) &&
              r.previousRotation == Some(m.angle(touches[0], touches[1]))
    ensures |touches| == 2 ==>
              r.previousX == g.previousX && r.previousY == g.previousY &&
              r.lastTouchX == g.lastTouchX && r.lastTouchY == g.lastTouchY &&
              r.lastCenterX == g.lastCenterX && r.lastCenterY == g.lastCenterY
    ensures |touches| != 1 && |touches| != 2 ==> r == g.(startTime := Some(now))
    ensures TracksLastTouch(g) ==> TracksLastTouch(r)
  {
    var started := g.(startTime := Some(now));
    if |touches| == 1 then
      var t := touches[0];
      started.(previousX := Some(t.pageX), previousY := Some(t.pageY),
               lastTouchX := Some(t.pageX), lastTouchY := Some(t.pageY), isTap := Some(true))
    else if |touches| == 2 then
      started.(previousDistance := Some(m.distance(touches[0], touches[1])),
               previousRotation := Some(m.angle(touches[0], touches[1])), isTap := Some(false))
    else started
  }

  // ---------------------------------------------------------------------------
  // Touch move

  /** One finger: rotate by the drag since the previous position (if one is recorded). */
  function OneFingerMove(s: Stage, t: Touch): (r: Stage)
    requires s.model.Some?
    ensures s.gesture.previousX.None? || s.gesture.previousY.None? ==> r == s
    ensures s.gesture.previousX.Some? && s.gesture.previousY.Some? ==>
              && r.model.Some? && r.camera == s.camera
              && r.model.value.rotation.y == s.model.value.rotation.y + RotateSpeed * (t.pageX - s.gesture.previousX.value)
              && r.model.value.rotation.x == s.model.value.rotation.x + RotateSpeed * (t.pageY - s.gesture.previousY.value)
              && r.model.value.rotation.z == s.model.value.rotation.z
              && r.model.value.position == s.model.value.position
              && r.gesture == s.gesture.(previousX := Some(t.pageX), previousY := Some(t.pageY),
                                         lastTouchX := Some(t.pageX), lastTouchY := Some(t.pageY))
  {
    var g := s.gesture;
    if g.previousX.None? || g.previousY.None? then s
    else
      var rot := s.model.value.rotation;
      var deltaX, deltaY := t.pageX - g.previousX.value, t.pageY - g.previousY.value;
      Stage(g.(previousX := Some(t.pageX), previousY := Some(t.pageY),
               lastTouchX := Some(t.pageX), lastTouchY := Some(t.pageY)),
            Some(s.model.value.(rotation := rot.(y := rot.y + deltaX * RotateSpeed,
                                                 x := rot.x + deltaY * RotateSpeed))),
            s.camera)
  }

  /** Two fingers, pan: move the model by the centroid's motion (screen-down is world-down); the first move only records the centroid. */
  function Pan(s: Stage, centerX: real, centerY: real): (r: Stage)
    requires s.model.Some?
    ensures r.model.Some? && r.camera == s.camera
    ensures r.gesture == s.gesture.(lastCenterX := Some(centerX), lastCenterY := Some(centerY))
    ensures r.model.value.rotation == s.model.value.rotation && r.model.value.position.z == s.model.value.position.z
    ensures s.gesture.lastCenterX.Some? && s.gesture.lastCenterY.Some? ==>
              r.model.value.position.x == s.model.value.position.x + PanSpeed * (centerX - s.gesture.lastCenterX.value) &&
              r.model.value.position.y == s.model.value.position.y - PanSpeed * (centerY - s.gesture.lastCenterY.value)
    ensures s.gesture.lastCenterX.None? || s.gesture.lastCenterY.None? ==> r.model == s.model
  {
    var g := s.gesture;
    var pos := s.model.value.position;
    var moved :=
      if g.lastCenterX.Some? && g.lastCenterY.Some? then
        s.model.value.(position := pos.(x := pos.x + (centerX - g.lastCenterX.value) * PanSpeed,
                                        y := pos.y - (centerY - g.lastCenterY.value) * PanSpeed))
      else s.model.value;
    s.(gesture := g.(lastCenterX := Some(centerX), lastCenterY := Some(centerY)), model := Some(moved))
  }

  /**
   * Two fingers, pinch: when a positive previous distance is recorded, scale
   * the zoom by the distance ratio, clamp it, and place the camera at the
   * reference distance over the clamped zoom. Needs a camera.
   */
  function Pinch(z: ZoomRange, s: Stage, distance: real): (r: Stage)
    requires ValidZoom(z) && CameraInFront(s)
    ensures CameraInFront(r)
    ensures r.model == s.model
    ensures s.camera.None? ==> r == s
    ensures s.camera.Some? ==> r.gesture == s.gesture.(previousDistance := Some(distance))
  {
    if s.camera.None? then s
    else
      s.(gesture := s.gesture.(previousDistance := Some(distance)),
         camera := Some(PinchedCamera(z, s.camera.value, s.gesture.previousDistance, distance)))
  }

  /** The camera after a pinch to `distance` when the recorded distance was `previous`. */
  function PinchedCamera(z: ZoomRange, cam: Vec3, previous: Option<real>, distance: real): (r: Vec3)
    requires ValidZoom(z) && cam.z > 0.0
    ensures r.z > 0.0 && r.x == cam.x && r.y == cam.y
    ensures previous.Some? && previous.value > 0.0 ==>
              z.referenceZ / r.z == Clamp(z.minZoom, z.maxZoom, z.referenceZ / cam.z * (distance / previous.value))
    ensures previous.None? || previous.value <= 0.0 ==> r == cam
  {
    if previous.Some? && previous.value > 0.0 then
      var currentZoom := z.referenceZ / cam.z;
      var newZoom := currentZoom * (distance / previous.value);
      var clamped := Clamp(z.minZoom, z.maxZoom, newZoom);
      ReciprocalOfQuotient(z.referenceZ, clamped);
      cam.(z := z.referenceZ / clamped)
    else cam
  }

  /** Two fingers, twist: roll the model by a tenth of the angle change, only once an angle is recorded. */
  function Twist(s: Stage, angle: real): (r: Stage)
    requires s.model.Some?
    ensures s.gesture.previousRotation.None? ==> r == s
    ensures s.gesture.previousRotation.Some? ==>
              && r.model.Some? && r.camera == s.camera
              && r.model.value.rotation.z ==
                   s.model.value.rotation.z + TwistDamping * (Pi / 180.0) * (angle - s.gesture.previousRotation.value)
              && r.model.value.rotation.x == s.model.value.rotation.x
              && r.model.value.rotation.y == s.model.value.rotation.y
              && r.model.value.position == s.model.value.position
              && r.gesture == s.gesture.(previousRotation := Some(angle))
  {
    var g := s.gesture;
    if g.previousRotation.None? then s
    else
      var rot := s.model.value.rotation;
      var rotationDelta := (angle - g.previousRotation.value) * TwistDamping;
      s.(gesture := g.(previousRotation := Some(angle)),
         model := Some(s.model.value.(rotation := rot.(z := rot.z + rotationDelta * (Pi / 180.0)))))
  }

  /**
   * Two fingers: pan by the centroid, pinch by the distance, twist by the
   * angle. Only the two-finger trackers of the record change.
   */
  function TwoFingerMove(z: ZoomRange, s: Stage, t1: Touch, t2: Touch, m: Metrics): (r: Stage)
    requires ValidZoom(z) && CameraInFront(s) && s.model.Some?
    ensures CameraInFront(r) && r.model.Some?
    ensures r.gesture == s.gesture.(previousDistance := r.gesture.previousDistance, previousRotation := r.gesture.previousRotation,
                                    lastCenterX := r.gesture.lastCenterX, lastCenterY := r.gesture.lastCenterY)
    ensures r.gesture.lastCenterX == Some((t1.pageX + t2.pageX) / 2.0) && r.gesture.lastCenterY == Some((t1.pageY + t2.pageY) / 2.0)
  {
    var panned := Pan(s, (t1.pageX + t2.pageX) / 2.0, (t1.pageY + t2.pageY) / 2.0);
    var pinched := Pinch(z, panned, m.distance(t1, t2));
    Twist(pinched, m.angle(t1, t2))
  }

  /**
   * A touch move, with (dx, dy) the displacement since the sequence started:
   * a displacement beyond the slop ends tap eligibility (with or without a
   * model); then, once a model is loaded, one contact rotates and two
   * contacts pan, pinch and twist.
   */
  function Move(z: ZoomRange, s: Stage, touches: seq<Touch>, dx: real, dy: real, m: Metrics): (r: Stage)
    requires ValidZoom(z) && CameraInFront(s)
    ensures CameraInFront(r)
    ensures r.gesture.isTap == s.gesture.isTap || r.gesture.isTap == Some(false)
    ensures Abs(dx) > TapSlop || Abs(dy) > TapSlop ==> r.gesture.isTap == Some(false)
    ensures Abs(dx) <= TapSlop && Abs(dy) <= TapSlop ==> r.gesture.isTap == s.gesture.isTap
    ensures s.model.None? ==> r == s.(gesture := s.gesture.(isTap := r.gesture.isTap))
    ensures r.gesture.startTime == s.gesture.startTime
    ensures s.model.None? ==> r.model.None? && r.camera == s.camera
    ensures s.model.Some? ==> r.model.Some?
    ensures TracksLastTouch(s.gesture) ==> TracksLastTouch(r.gesture)
  {
    var g := if Abs(dx) > TapSlop || Abs(dy) > TapSlop then s.gesture.(isTap := Some(false)) else s.gesture;
    var checked := s.(gesture := g);
    if s.model.None? then checked
    else if |touches| == 1 then OneFingerMove(checked, touches[0])
    else if |touches| == 2 then TwoFingerMove(z, checked, touches[0], touches[1], m)
    else checked
  }

  // ---------------------------------------------------------------------------
  // Release

  /** The recorded start time, or `now` when it is unset or zero (`startTime || endTime`). */
  function StartOrNow(g: GestureState, now: int): (r: int)
    ensures g.startTime.Some? && g.startTime.value != 0 ==> r == g.startTime.value
    ensures g.startTime.None? || g.startTime == Some(0) ==> r == now
  {
    if g.startTime.Some? && g.startTime.value != 0 then g.startTime.value else now
  }

  /** Milliseconds since the recorded start; zero when no (non-zero) start time was recorded. */
  function Duration(g: GestureState, now: int): (r: int)
    ensures g.startTime.Some? && g.startTime.value != 0 ==> r == now - g.startTime.value
    ensures g.startTime.None? || g.startTime == Some(0) ==> r == 0
  {
    now - StartOrNow(g, now)
  }

  /**
   * Where the release taps, if it does: the sequence must still be a tap
   * candidate with a recorded last touch, and the classifier must accept the
   * move from the previous position to the last touch within the duration.
   */
  function TapPoint(g: GestureState, now: int): (r: Option<(real, real)>)
    ensures r.Some? ==> g.isTap == Some(true) && g.lastTouchX.Some? && g.lastTouchY.Some?
    ensures r.Some? ==> r.value == (g.lastTouchX.value, g.lastTouchY.value)
  {
    if g.isTap == Some(true) && g.lastTouchX.Some? && g.lastTouchY.Some? &&
       IsTap(g.previousX.GetOr(0.0), g.previousY.GetOr(0.0), g.lastTouchX.value, g.lastTouchY.value,
             Duration(g, now))
    then Some((g.lastTouchX.value, g.lastTouchY.value))
    else None
  }

  // ---------------------------------------------------------------------------
  // Sequences of moves

  datatype MoveEvent = MoveEvent(touches: seq<Touch>, dx: real, dy: real)

  /** The stage after the moves `evs`, in order. */
  function Moves(z: ZoomRange, s: Stage, evs: seq<MoveEvent>, m: Metrics): (r: Stage)
    requires ValidZoom(z) && CameraInFront(s)
    ensures CameraInFront(r)
    decreases |evs|
  {
    if evs == [] then s
    else Moves(z, Move(z, s, evs[0].touches, evs[0].dx, evs[0].dy, m), evs[1..], m)
  }

  // ---------------------------------------------------------------------------
  // Properties

  /**
   * Since the last touch is the previous position, the classifier sees no
   * displacement: a release taps exactly when the sequence is still a tap
   * candidate, a last touch exists and it lasted under the time threshold.
   */
  lemma TapDecision(g: GestureState, now: int)
    requires TracksLastTouch(g)
    ensures TapPoint(g, now).Some? <==>
            g.isTap == Some(true) && g.lastTouchX.Some? && g.lastTouchY.Some? && Duration(g, now) < TimeThreshold
  {
    if g.lastTouchX.Some? && g.lastTouchY.Some? {
      assert g.previousX.GetOr(0.0) == g.lastTouchX.value;
      assert g.previousY.GetOr(0.0) == g.lastTouchY.value;
    }
  }

  /** Moves never make a sequence a tap candidate again, and a large displacement rules it out for good. */
  lemma {:induction false} TapEligibilityOnlyFalls(z: ZoomRange, s: Stage, evs: seq<MoveEvent>, m: Metrics)
    requires ValidZoom(z) && CameraInFront(s)
    ensures Moves(z, s, evs, m).gesture.isTap == Some(true) ==> s.gesture.isTap == Some(true)
    ensures (exists k :: 0 <= k < |evs| && (Abs(evs[k].dx) > TapSlop || Abs(evs[k].dy) > TapSlop)) ==>
            Moves(z, s, evs, m).gesture.isTap == Some(false)
    ensures s.gesture.isTap == Some(false) ==> Moves(z, s, evs, m).gesture.isTap == Some(false)
    ensures TracksLastTouch(s.gesture) ==> TracksLastTouch(Moves(z, s, evs, m).gesture)
    ensures Moves(z, s, evs, m).gesture.startTime == s.gesture.startTime
    decreases |evs|
  {
    if evs != [] {
      var next := Move(z, s, evs[0].touches, evs[0].dx, evs[0].dy, m);
      TapEligibilityOnlyFalls(z, next, evs[1..], m);
      if exists k :: 0 <= k < |evs| && (Abs(evs[k].dx) > TapSlop || Abs(evs[k].dy) > TapSlop) {
        var k :| 0 <= k < |evs| && (Abs(evs[k].dx) > TapSlop || Abs(evs[k].dy) > TapSlop);
        if k > 0 {
          assert evs[1..][k - 1] == evs[k];
        }
      }
    }
  }

  /** A sequence that starts with two contacts never ends in a tap, whatever its moves and timing. */
  lemma TwoFingerStartNeverTaps(z: ZoomRange, s: Stage, touches: seq<Touch>, now: int, evs: seq<MoveEvent>, m: Metrics, later: int)
    requires ValidZoom(z) && CameraInFront(s) && |touches| == 2
    ensures TapPoint(Moves(z, s.(gesture := Grant(s.gesture, touches, now, m)), evs, m).gesture, later).None?
  {
    TapEligibilityOnlyFalls(z, s.(gesture := Grant(s.gesture, touches, now, m)), evs, m);
  }

  /**
   * Consecutive one-finger moves telescope: the model turns about the vertical
   * axis by RotateSpeed times the total horizontal drag and about the
   * horizontal axis by RotateSpeed times the total vertical drag, measured
   * from the recorded start position; position, roll and camera stay put.
   */
  lemma {:induction false} DragTelescopes(z: ZoomRange, s: Stage, evs: seq<MoveEvent>, m: Metrics)
    requires ValidZoom(z) && CameraInFront(s)
    requires s.model.Some? && s.gesture.previousX.Some? && s.gesture.previousY.Some?
    requires forall k :: 0 <= k < |evs| ==> |evs[k].touches| == 1
    ensures var r := Moves(z, s, evs, m);
      && r.model.Some? && r.gesture.previousX.Some? && r.gesture.previousY.Some?
      && r.model.value.rotation.y ==
           s.model.value.rotation.y + RotateSpeed * (r.gesture.previousX.value - s.gesture.previousX.value)
      && r.model.value.rotation.x ==
           s.model.value.rotation.x + RotateSpeed * (r.gesture.previousY.value - s.gesture.previousY.value)
      && r.model.value.rotation.z == s.model.value.rotation.z
      && r.model.value.position == s.model.value.position
      && r.camera == s.camera
      && (evs != [] ==>
            r.gesture.previousX == Some(evs[|evs| - 1].touches[0].pageX) &&
            r.gesture.previousY == Some(evs[|evs| - 1].touches[0].pageY))
    decreases |evs|
  {
    if evs != [] {
      var next := Move(z, s, evs[0].touches, evs[0].dx, evs[0].dy, m);
      assert next.gesture.previousX == Some(evs[0].touches[0].pageX);
      assert next.gesture.previousY == Some(evs[0].touches[0].pageY);
      DragTelescopes(z, next, evs[1..], m);
      if |evs| > 1 {
        assert evs[1..][|evs[1..]| - 1] == evs[|evs| - 1];
      }
    }
  }

  /**
   * Consecutive two-finger moves telescope too: the model moves by PanSpeed
   * times the centroid's total motion since the recorded centroid (the
   * vertical axis inverted).
   */
  lemma {:induction false} PanTelescopes(z: ZoomRange, s: Stage, evs: seq<MoveEvent>, m: Metrics)
    requires ValidZoom(z) && CameraInFront(s)
    requires s.model.Some? && s.gesture.lastCenterX.Some? && s.gesture.lastCenterY.Some?
    requires forall k :: 0 <= k < |evs| ==> |evs[k].touches| == 2
    ensures var r := Moves(z, s, evs, m);
      && r.model.Some? && r.gesture.lastCenterX.Some? && r.gesture.lastCenterY.Some?
      && r.model.value.position.x ==
           s.model.value.position.x + PanSpeed * (r.gesture.lastCenterX.value - s.gesture.lastCenterX.value)
      && r.model.value.position.y ==
           s.model.value.position.y - PanSpeed * (r.gesture.lastCenterY.value - s.gesture.lastCenterY.value)
      && r.model.value.position.z == s.model.value.position.z
      && r.model.value.rotation.x == s.model.value.rotation.x
      && r.model.value.rotation.y == s.model.value.rotation.y
    decreases |evs|
  {
    if evs != [] {
      var next := Move(z, s, evs[0].touches, evs[0].dx, evs[0].dy, m);
      PanTelescopes(z, next, evs[1..], m);
    }
  }

  /** The first two-finger move of a sequence only records the centroid: the model does not move. */
  lemma FirstPanOnlyRecords(z: ZoomRange, s: Stage, t1: Touch, t2: Touch, dx: real, dy: real, m: Metrics)
    requires ValidZoom(z) && CameraInFront(s) && s.model.Some?
    requires s.gesture.lastCenterX.None?
    ensures var r := Move(z, s, [t1, t2], dx, dy, m);
      && r.model.value.position == s.model.value.position
      && r.gesture.lastCenterX == Some((t1.pageX + t2.pageX) / 2.0)
      && r.gesture.lastCenterY == Some((t1.pageY + t2.pageY) / 2.0)
  {
  }

  /**
   * After a pinch with a positive recorded distance the zoom (reference
   * distance over camera distance) is the old zoom scaled by the distance
   * ratio, clamped, and so lies within the bounds.
   */
  lemma PinchZoomInRange(z: ZoomRange, s: Stage, t1: Touch, t2: Touch, dx: real, dy: real, m: Metrics)
    requires ValidZoom(z) && z.minZoom <= z.maxZoom && CameraInFront(s)
    requires s.model.Some? && s.camera.Some?
    requires s.gesture.previousDistance.Some? && s.gesture.previousDistance.value > 0.0
    ensures var r := Move(z, s, [t1, t2], dx, dy, m);
      && r.camera.Some? && r.camera.value.z > 0.0
      && z.referenceZ / r.camera.value.z ==
           Clamp(z.minZoom, z.maxZoom,
                 z.referenceZ / s.camera.value.z * (m.distance(t1, t2) / s.gesture.previousDistance.value))
      && z.minZoom <= z.referenceZ / r.camera.value.z <= z.maxZoom
      && r.gesture.previousDistance == Some(m.distance(t1, t2))
  {
    var d := m.distance(t1, t2);
    TwoFingerMovePinches(z, s, t1, t2, dx, dy, m);
    assert Move(z, s, [t1, t2], dx, dy, m).camera == Some(PinchedCamera(z, s.camera.value, s.gesture.previousDistance, d));
  }

  /** A two-finger move changes the camera and the recorded distance exactly as its pinch step does. */
  lemma TwoFingerMovePinches(z: ZoomRange, s: Stage, t1: Touch, t2: Touch, dx: real, dy: real, m: Metrics)
    requires ValidZoom(z) && CameraInFront(s) && s.model.Some?
    ensures Move(z, s, [t1, t2], dx, dy, m).camera == Pinch(z, s, m.distance(t1, t2)).camera
    ensures Move(z, s, [t1, t2], dx, dy, m).gesture.previousDistance ==
            Pinch(z, s, m.distance(t1, t2)).gesture.previousDistance
  {
    var g := if Abs(dx) > TapSlop || Abs(dy) > TapSlop then s.gesture.(isTap := Some(false)) else s.gesture;
    var panned := Pan(s.(gesture := g), (t1.pageX + t2.pageX) / 2.0, (t1.pageY + t2.pageY) / 2.0);
    assert panned.camera == s.camera && panned.gesture.previousDistance == s.gesture.previousDistance;
  }

  /** Dividing by a quotient gives back the divisor. */
  lemma ReciprocalOfQuotient(a: real, c: real)
    requires a > 0.0 && c > 0.0
    ensures a / c > 0.0 && a / (a / c) == c
  {
    assert a / c * c == a;
  }

  /** The contact of the last one-contact move in `evs`, or `t` when there is none. */
  function LastSingleTouch(t: Touch, evs: seq<MoveEvent>): Touch
    decreases |evs|
  {
    if evs == [] then t
    else LastSingleTouch(if |evs[0].touches| == 1 then evs[0].touches[0] else t, evs[1..])
  }

  /**
   * Moves that all stay within the slop keep a tap candidate a tap candidate;
   * once a model is loaded every one-contact move records its contact as the
   * last touch, and without a model the last touch stays where it was.
   */
  lemma {:induction false} MovesWithinSlopKeepTap(z: ZoomRange, s: Stage, p: Touch, evs: seq<MoveEvent>, m: Metrics)
    requires ValidZoom(z) && CameraInFront(s)
    requires s.gesture.isTap == Some(true) && TracksLastTouch(s.gesture)
    requires s.gesture.lastTouchX == Some(p.pageX) && s.gesture.lastTouchY == Some(p.pageY)
    requires forall k :: 0 <= k < |evs| ==> Abs(evs[k].dx) <= TapSlop && Abs(evs[k].dy) <= TapSlop
    ensures var r := Moves(z, s, evs, m);
      && r.gesture.isTap == Some(true) && TracksLastTouch(r.gesture)
      && r.gesture.startTime == s.gesture.startTime
      && var q := if s.model.Some? then LastSingleTouch(p, evs) else p;
         r.gesture.lastTouchX == Some(q.pageX) && r.gesture.lastTouchY == Some(q.pageY)
    decreases |evs|
  {
    if evs != [] {
      var next := Move(z, s, evs[0].touches, evs[0].dx, evs[0].dy, m);
      var p' := if s.model.Some? && |evs[0].touches| == 1 then evs[0].touches[0] else p;
      assert next.gesture.lastTouchX == Some(p'.pageX) && next.gesture.lastTouchY == Some(p'.pageY);
      assert forall k :: 0 <= k < |evs[1..]| ==> evs[1..][k] == evs[k + 1];
      MovesWithinSlopKeepTap(z, next, p', evs[1..], m);
    }
  }

  /**
   * A one-contact touch sequence whose moves all stay within the slop and that
   * is released less than TimeThreshold milliseconds after it started is a
   * tap at the last recorded contact: the start contact, or, once a model is
   * loaded, the contact of the last one-contact move.
   */
  lemma OneFingerQuickReleaseTaps(z: ZoomRange, s: Stage, touches: seq<Touch>, now: int, evs: seq<MoveEvent>, m: Metrics, later: int)
    requires ValidZoom(z) && CameraInFront(s) && |touches| == 1
    requires forall k :: 0 <= k < |evs| ==> Abs(evs[k].dx) <= TapSlop && Abs(evs[k].dy) <= TapSlop
    requires later - now < TimeThreshold
    ensures var r := Moves(z, s.(gesture := Grant(s.gesture, touches, now, m)), evs, m);
      var q := if s.model.Some? then LastSingleTouch(touches[0], evs) else touches[0];
      TapPoint(r.gesture, later) == Some((q.pageX, q.pageY))
  {
    var granted := s.(gesture := Grant(s.gesture, touches, now, m));
    MovesWithinSlopKeepTap(z, granted, touches[0], evs, m);
    var g := Moves(z, granted, evs, m).gesture;
    assert g.startTime == Some(now);
    TapDecision(g, later);
  }

  /**
   * Consecutive two-finger moves telescope in the roll: once an angle is
   * recorded, the model's rotation about the view axis grows by TwistDamping
   * times the total change of angle (in degrees, converted to radians).
   */
  lemma {:induction false} TwistTelescopes(z: ZoomRange, s: Stage, evs: seq<MoveEvent>, m: Metrics)
    requires ValidZoom(z) && CameraInFront(s)
    requires s.model.Some? && s.gesture.previousRotation.Some?
    requires forall k :: 0 <= k < |evs| ==> |evs[k].touches| == 2
    ensures var r := Moves(z, s, evs, m);
      && r.model.Some? && r.gesture.previousRotation.Some?
      && r.model.value.rotation.z ==
           s.model.value.rotation.z +
           TwistDamping * (Pi / 180.0) * (r.gesture.previousRotation.value - s.gesture.previousRotation.value)
      && (evs != [] ==> r.gesture.previousRotation == Some(m.angle(evs[|evs| - 1].touches[0], evs[|evs| - 1].touches[1])))
    decreases |evs|
  {
    if evs != [] {
      var e := evs[0];
      var g := if Abs(e.dx) > TapSlop || Abs(e.dy) > TapSlop then s.gesture.(isTap := Some(false)) else s.gesture;
      var checked := s.(gesture := g);
      var t1, t2 := e.touches[0], e.touches[1];
      var panned := Pan(checked, (t1.pageX + t2.pageX) / 2.0, (t1.pageY + t2.pageY) / 2.0);
      var pinched := Pinch(z, panned, m.distance(t1, t2));
      var next := Move(z, s, e.touches, e.dx, e.dy, m);
      assert next == Twist(pinched, m.angle(t1, t2));
      assert pinched.gesture.previousRotation == s.gesture.previousRotation;
      assert pinched.model.value.rotation.z == s.model.value.rotation.z;
      TwistTelescopes(z, next, evs[1..], m);
      if |evs| > 1 {
        assert evs[1..][|evs[1..]| - 1] == evs[|evs| - 1];
      }
      assert forall k :: 0 <= k < |evs[1..]| ==> |evs[1..][k].touches| == 2;
    }
  }

  /**
   * A sequence whose record has no angle (one that began with one contact)
   * never twists: its roll is unchanged after any moves, even two-finger ones.
   */
  lemma {:induction false} NoTwistWithoutAngle(z: ZoomRange, s: Stage, evs: seq<MoveEvent>, m: Metrics)
    requires ValidZoom(z) && CameraInFront(s)
    requires s.gesture.previousRotation.None?
    ensures Moves(z, s, evs, m).gesture.previousRotation.None?
    ensures s.model.Some? ==>
              Moves(z, s, evs, m).model.Some? &&
              Moves(z, s, evs, m).model.value.rotation.z == s.model.value.rotation.z
    decreases |evs|
  {
    if evs != [] {
      var next := Move(z, s, evs[0].touches, evs[0].dx, evs[0].dy, m);
      NoTwistWithoutAngle(z, next, evs[1..], m);
    }
  }

  /** A one-finger start leaves no angle in the record, so the whole sequence never twists. */
  lemma OneFingerStartNeverTwists(z: ZoomRange, s: Stage, t: Touch, now: int, evs: seq<MoveEvent>, m: Metrics)
    requires ValidZoom(z) && CameraInFront(s) && s.model.Some?
    requires s.gesture == Idle
    ensures var r := Moves(z, s.(gesture := Grant(s.gesture, [t], now, m)), evs, m);
      r.model.Some? && r.model.value.rotation.z == s.model.value.rotation.z
  {
    NoTwistWithoutAngle(z, s.(gesture := Grant(s.gesture, [t], now, m)), evs, m);
  }
}
