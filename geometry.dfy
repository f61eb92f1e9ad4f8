/**
 * Touch geometry of the model viewer: contact points, the tap classifier,
 * the screen-to-clip-space mapping and the clamp used for zooming, plus the
 * three-component vectors that make up rotations, positions and scales.
 */
module Geometry {
  import opened Options

  /** One contact point of a touch event, in screen pixels. */
  datatype Touch = Touch(pageX: real, pageY: real)

  datatype Axis = X | Y | Z

  datatype Vec3 = Vec3(x: real, y: real, z: real) {

    function Get(axis: Axis): real {
      match axis
      case X => x
      case Y => y
      case Z => z
    }

    /** This vector with the component on `axis` set to `a`. */
    function With(axis: Axis, a: real): (r: Vec3)
      ensures r.Get(axis) == a
      ensures forall other: Axis :: other != axis ==> r.Get(other) == Get(other)
    {
      match axis
      case X => this.(x := a)
      case Y => this.(y := a)
      case Z => this.(z := a)
    }
  }

  /** A configuration vector whose components may each be left out. */
  datatype PartialVec3 = PartialVec3(x: Option<real>, y: Option<real>, z: Option<real>) {

    /** Each missing component replaced by the matching one of `d`. */
    function OrElse(d: Vec3): (r: Vec3)
      ensures x.Some? ==> r.x == x.value
      ensures y.Some? ==> r.y == y.value
      ensures z.Some? ==> r.z == z.value
      ensures x.None? ==> r.x == d.x
      ensures y.None? ==> r.y == d.y
      ensures z.None? ==> r.z == d.z
    {
      Vec3(x.GetOr(d.x), y.GetOr(d.y), z.GetOr(d.z))
    }
  }

  /**
   * The platform's measurements of a pair of contact points: the Euclidean
   * distance (a square root) and the angle of the line between them in
   * degrees (an arc tangent). Both are left uninterpreted.
   */
  datatype Metrics = Metrics(distance: (Touch, Touch) -> real, angle: (Touch, Touch) -> real)

  function Abs(v: real): real {
    if v < 0.0 then -v else v
  }

  function Min(a: real, b: real): real {
    if a <= b then a else b
  }

  function Max(a: real, b: real): real {
    if a >= b then a else b
  }

  /** `Math.max(lo, Math.min(hi, v))`. */
  function Clamp(lo: real, hi: real, v: real): (r: real)
    ensures lo <= r
    ensures lo <= hi ==> r <= hi
    ensures lo <= v <= hi ==> r == v
    ensures v < lo ==> r == lo
    ensures lo <= hi < v ==> r == hi
  {
    Max(lo, Min(hi, v))
  }

  /** Largest displacement (exclusive) between the ends of a tap. */
  const MoveThreshold: real := 10.0
  /** Longest duration (exclusive, in milliseconds) of a tap. */
  const TimeThreshold: int := 300

  /**
   * Whether a touch from (startX, startY) to (endX, endY) lasting `duration`
   * milliseconds is a tap. The distance is compared through its square,
   * which is equivalent for non-negative values (see TapBySquareRoot).
   */
  function IsTap(startX: real, startY: real, endX: real, endY: real, duration: int): (r: bool)
    ensures r ==> duration < TimeThreshold
    ensures r ==> Abs(endX - startX) < MoveThreshold && Abs(endY - startY) < MoveThreshold
    ensures endX == startX && endY == startY ==> (r <==> duration < TimeThreshold)
  {
    var dx, dy := endX - startX, endY - startY;
    SquareBelowBound(dx, dy, MoveThreshold);
    SquareBelowBound(dy, dx, MoveThreshold);
    dx * dx + dy * dy < MoveThreshold * MoveThreshold && duration < TimeThreshold
  }

  /** A coordinate whose square (plus another square) is below t² is within t. */
  lemma SquareBelowBound(a: real, b: real, t: real)
    requires t > 0.0
    ensures a * a + b * b < t * t ==> Abs(a) < t
  {
    if Abs(a) >= t {
      assert Abs(a) * Abs(a) >= t * Abs(a) >= t * t;
      assert a * a == Abs(a) * Abs(a);
    }
  }

  /**
   * The source compares the square root of the squared displacement with the
   * threshold; for any non-negative root `d` that is the same test as IsTap's.
   */
  lemma TapBySquareRoot(startX: real, startY: real, endX: real, endY: real, duration: int, d: real)
    requires d >= 0.0
    requires d * d == (endX - startX) * (endX - startX) + (endY - startY) * (endY - startY)
    ensures (d < MoveThreshold && duration < TimeThreshold) == IsTap(startX, startY, endX, endY, duration)
  {
    if d < MoveThreshold {
      assert d * d <= d * MoveThreshold < MoveThreshold * MoveThreshold;
    } else {
      assert d * d >= MoveThreshold * d >= MoveThreshold * MoveThreshold;
    }
  }

  /**
   * Maps a screen point to clip space: the horizontal axis from [0, width] to
   * [-1, 1], the vertical one from [0, height] to [1, -1] (screen-down is clip-up).
   */
  function NormalizedCoordinates(x: real, y: real, width: real, height: real): (r: (real, real))
    requires width > 0.0 && height > 0.0
    ensures 0.0 <= x <= width ==> -1.0 <= r.0 <= 1.0
    ensures 0.0 <= y <= height ==> -1.0 <= r.1 <= 1.0
    ensures x == 0.0 ==> r.0 == -1.0
    ensures x == width ==> r.0 == 1.0
    ensures y == 0.0 ==> r.1 == 1.0
    ensures y == height ==> r.1 == -1.0
  {
    (x / width * 2.0 - 1.0, -(y / height) * 2.0 + 1.0)
  }

  /** The inverse mapping, from clip space back to screen pixels. */
  function ScreenCoordinates(u: real, v: real, width: real, height: real): (r: (real, real))
    requires width > 0.0 && height > 0.0
  {
    ((u + 1.0) / 2.0 * width, (1.0 - v) / 2.0 * height)
  }

  /** Normalizing loses nothing: mapping back gives the original screen point. */
  lemma NormalizedRoundTrip(x: real, y: real, width: real, height: real)
    requires width > 0.0 && height > 0.0
    ensures var n := NormalizedCoordinates(x, y, width, height);
            ScreenCoordinates(n.0, n.1, width, height) == (x, y)
  {
    var n := NormalizedCoordinates(x, y, width, height);
    assert (n.0 + 1.0) / 2.0 == x / width;
    assert x / width * width == x;
    assert (1.0 - n.1) / 2.0 == y / height;
    assert y / height * height == y;
    var back := ScreenCoordinates(n.0, n.1, width, height);
    assert back.0 == (n.0 + 1.0) / 2.0 * width == x;
    assert back.1 == (1.0 - n.1) / 2.0 * height == y;
  }
}
