/** The pure update rules the orbit controller applies: clamping, the rotate
    and pan rules of a drag, the wheel-delta normalisation and zoom, the
    fit-to-bounds distance and the eye position. */
module OrbitMath {
  import opened OrbitTypes
  import opened JsArith

  // ---------------------------------------------------------------------------
  // clamp

  /** Constrains x between min and max. When min > max the result is min for
      x < min and max otherwise; it is never x. */
  function Clamp(x: real, min: real, max: real): (r: real)
    ensures min <= max ==> min <= r <= max
    ensures min <= x <= max ==> r == x
    ensures x < min ==> r == min
    ensures min <= x && max < x ==> r == max
    ensures max < min ==> r == (if x < min then min else max)
  {
    if x < min then min
    else if x > max then max
    else x
  }

  lemma ClampIdempotent(x: real, min: real, max: real)
    requires min <= max
    ensures Clamp(Clamp(x, min, max), min, max) == Clamp(x, min, max)
  {
  }

  // ---------------------------------------------------------------------------
  // angles and the orbit rotation

  /** Degrees to radians, in the order the source computes it: deg / 180 * pi. */
  function Radians(h: Host, deg: real): real {
    deg / 180.0 * h.pi
  }

  /** tan of half the vertical field of view. */
  function TanHalfFov(h: Host, fov: real): real {
    h.tan(Radians(h, fov) / 2.0)
  }

  /** Rotates q about the pivot by rotationX about the X axis, then by
      rotationY about the Y axis. */
  function Orient(h: Host, q: Vec3, pivot: Vec3, rotationX: real, rotationY: real): Vec3 {
    h.rotateY(h.rotateX(q, pivot, Radians(h, rotationX)), pivot, Radians(h, rotationY))
  }

  // ---------------------------------------------------------------------------
  // getViewport

  /** The eye sits `distance` along +Z from the pivot, then orbits it. */
  function ComputeEye(h: Host, lookAt: Vec3, distance: real, rotationX: real, rotationY: real): Vec3 {
    Orient(h, Add(lookAt, Vec3(0.0, 0.0, distance)), lookAt, rotationX, rotationY)
  }

  function GetViewport(h: Host, p: Props): (v: Viewport)
    ensures v.near == 0.1 && v.far == 1000.0
    ensures v.fovy == p.fov && v.width == p.width && v.height == p.height && v.lookAt == p.lookAt
    ensures v.eye == ComputeEye(h, p.lookAt, p.distance, p.rotationX, p.rotationY)
  {
    Viewport(p.width, p.height, p.lookAt, 1000.0, 0.1, p.fov,
             ComputeEye(h, p.lookAt, p.distance, p.rotationX, p.rotationY))
  }

  /** With both rotation angles zero, and rotations by a zero angle leaving the
      point alone, the eye is the pivot moved `distance` along +Z. */
  lemma EyeWithoutRotation(h: Host, p: Props)
    requires p.rotationX == 0.0 && p.rotationY == 0.0
    requires var q := Add(p.lookAt, Vec3(0.0, 0.0, p.distance));
             h.rotateX(q, p.lookAt, 0.0) == q && h.rotateY(q, p.lookAt, 0.0) == q
    ensures GetViewport(h, p).eye == Vec3(p.lookAt.x, p.lookAt.y, p.lookAt.z + p.distance)
  {
  }

  // ---------------------------------------------------------------------------
  // _onDragStart, _onDragEnd

  /** The delta a drag start or a drag end emits. */
  function DraggingDelta(dragging: bool): (r: Delta)
    ensures Keys(r) == {IsDragging} && r.isDragging == Some(dragging)
  {
    Delta(None, None, None, None, Some(dragging))
  }

  // ---------------------------------------------------------------------------
  // _onDrag

  /** The rotate branch: emits only the two angles, rotationX clamped to
      [-90, 90] and rotationY reduced by `% 360`. */
  function RotateDelta(p: Props, dx: real, dy: real): (r: Delta)
    ensures Keys(r) == {RotationX, RotationY}
    ensures r.rotationX.Some? && -90.0 <= r.rotationX.value <= 90.0
    ensures -90.0 <= p.rotationX - dy * 180.0 <= 90.0 ==> r.rotationX.value == p.rotationX - dy * 180.0
    ensures p.rotationX - dy * 180.0 < -90.0 ==> r.rotationX.value == -90.0
    ensures p.rotationX - dy * 180.0 > 90.0 ==> r.rotationX.value == 90.0
    ensures r.rotationY.Some? && -360.0 < r.rotationY.value < 360.0
    ensures p.rotationY - dx * 180.0 >= 0.0 ==> r.rotationY.value >= 0.0
    ensures p.rotationY - dx * 180.0 <= 0.0 ==> r.rotationY.value <= 0.0
    ensures -360.0 < p.rotationY - dx * 180.0 < 360.0 ==> r.rotationY.value == p.rotationY - dx * 180.0
    ensures IsWhole((p.rotationY - dx * 180.0 - r.rotationY.value) / 360.0)
  {
    var ry := p.rotationY - dx * 180.0;
    TruncRemBounds(ry, 360.0);
    TruncRemWholeTurns(ry, 360.0);
    Delta(None, None,
          Some(Clamp(p.rotationX - dy * 180.0, -90.0, 90.0)),
          Some(TruncRem(ry, 360.0)),
          None)
  }

  /** World units moved per unit of normalised pointer travel at the pivot's depth. */
  function UnitsPerPixel(h: Host, p: Props): real
    requires TanHalfFov(h, p.fov) != 0.0
  {
    p.distance / TanHalfFov(h, p.fov) / 2.0
  }

  /** The pivot moved by the pan offset in screen axes, before orientation:
      against the horizontal pointer motion and with the vertical one. */
  function PanTarget(h: Host, p: Props, dx: real, dy: real): Vec3
    requires TanHalfFov(h, p.fov) != 0.0
  {
    var u := UnitsPerPixel(h, p);
    Add(p.lookAt, Vec3(-u * dx, u * dy, 0.0))
  }

  /** The pan branch: emits only the new pivot, the screen offset oriented
      like the camera about the current pivot. */
  function PanDelta(h: Host, p: Props, dx: real, dy: real): (r: Delta)
    requires TanHalfFov(h, p.fov) != 0.0
    ensures Keys(r) == {LookAt}
  {
    Delta(Some(Orient(h, PanTarget(h, p, dx, dy), p.lookAt, p.rotationX, p.rotationY)),
          None, None, None, None)
  }

  /** With the camera unrotated, a pan moves the pivot against the horizontal
      pointer motion and with the vertical one, in the view plane. */
  lemma PanWithoutRotation(h: Host, p: Props, dx: real, dy: real)
    requires TanHalfFov(h, p.fov) != 0.0
    requires p.rotationX == 0.0 && p.rotationY == 0.0
    requires var q := PanTarget(h, p, dx, dy);
             h.rotateX(q, p.lookAt, 0.0) == q && h.rotateY(q, p.lookAt, 0.0) == q
    ensures var u := UnitsPerPixel(h, p);
            PanDelta(h, p, dx, dy).lookAt.value
              == Vec3(p.lookAt.x - u * dx, p.lookAt.y + u * dy, p.lookAt.z)
  {
  }

  /** The delta one drag move emits, from the stored pointer position `start`:
      the pan branch under any modifier, the rotate branch otherwise. */
  function DragDelta(h: Host, p: Props, start: (real, real), e: PointerEvent): (r: Delta)
    requires p.width != 0.0 && p.height != 0.0
    requires e.Modified() ==> TanHalfFov(h, p.fov) != 0.0
    ensures e.Modified() ==> Keys(r) == {LookAt}
    ensures !e.Modified() ==> Keys(r) == {RotationX, RotationY}
    ensures IsDragging !in Keys(r) && Distance !in Keys(r)
  {
    var dx := (e.pageX - start.0) / p.width;
    var dy := (e.pageY - start.1) / p.height;
    if e.Modified() then PanDelta(h, p, dx, dy) else RotateDelta(p, dx, dy)
  }

  /** A drag from (100, 100) to (150, 100) over a 500 x 500 viewport, with no
      modifier and an unrotated camera, turns the azimuth by -18 degrees and
      leaves the elevation at 0. */
  lemma RotateScenario(h: Host, p: Props)
    requires p.width == 500.0 && p.height == 500.0
    requires p.rotationX == 0.0 && p.rotationY == 0.0
    ensures DragDelta(h, p, (100.0, 100.0), PointerEvent(150.0, 100.0, false, false, false, false))
            == Delta(None, None, Some(0.0), Some(-18.0), None)
  {
    TruncRemBounds(-18.0, 360.0);
  }

  // ---------------------------------------------------------------------------
  // _onWheel

  /** The delta of a discrete mouse-wheel notch on some platforms. */
  const WheelTick: real := 4.000244140625

  /** The wheel delta in pixel-like units: divided by the device pixel ratio
      for Firefox's doubled pixel-mode deltas, times 40 in line mode. */
  function ScaledWheelDelta(e: WheelEvent, firefox: bool, devicePixelRatio: real): real
    requires firefox && e.deltaMode == Pixel ==> devicePixelRatio != 0.0
  {
    match e.deltaMode
    case Pixel => if firefox then e.deltaY / devicePixelRatio else e.deltaY
    case Line => e.deltaY * 40.0
    case Page => e.deltaY
  }

  /** A notch multiple is collapsed to a whole exponent of at least 1 in size,
      with the notch's sign. */
  lemma CollapsedNotch(v: real)
    requires v != 0.0 && TruncRem(v, WheelTick) == 0.0
    ensures v > 0.0 ==> (v / 4.0).Floor >= 1
    ensures v < 0.0 ==> (v / 4.0).Floor <= -1
  {
    TruncRemZeroIff(v, WheelTick);
    var n := (v / WheelTick).Floor;
    assert v == n as real * WheelTick;
    if v > 0.0 {
      assert n >= 1;
    }
  }

  /** A nonzero whole multiple of the notch size is a mouse wheel: it is
      brought to trackpad scale as floor(v / 4); anything else is kept. Zero
      stays zero and a nonzero value keeps its sign. */
  function NormalizeTick(v: real): (r: real)
    ensures v == 0.0 ==> r == 0.0
    ensures v > 0.0 ==> r > 0.0
    ensures v < 0.0 ==> r < 0.0
    ensures TruncRem(v, WheelTick) != 0.0 ==> r == v
    ensures TruncRem(v, WheelTick) == 0.0 ==> IsWhole(r)
  {
    if v != 0.0 && TruncRem(v, WheelTick) == 0.0 then
      CollapsedNotch(v);
      (v / 4.0).Floor as real
    else
      v
  }

  /** k notches of the wheel (k below 16384, where v / 4 first gains a whole
      extra unit) give exponent k scrolling one way and -k - 1 the other. */
  lemma NotchCount(k: int)
    requires 1 <= k < 16384
    ensures NormalizeTick(k as real * WheelTick) == k as real
    ensures NormalizeTick(-(k as real) * WheelTick) == -(k as real) - 1.0
  {
    var up, down := k as real * WheelTick, -(k as real) * WheelTick;
    assert up / WheelTick == k as real;
    assert down / WheelTick == -(k as real);
    TruncRemZeroIff(up, WheelTick);
    TruncRemZeroIff(down, WheelTick);
    assert up / 4.0 == k as real + k as real / 16384.0;
    assert (up / 4.0).Floor == k;
    assert down / 4.0 == -(k as real) - k as real / 16384.0;
    assert (down / 4.0).Floor == -k - 1;
  }

  /** The exponent the wheel handler zooms by; a zero delta gives zero. */
  function WheelValue(e: WheelEvent, firefox: bool, devicePixelRatio: real): (r: real)
    requires firefox && e.deltaMode == Pixel ==> devicePixelRatio != 0.0
    ensures e.deltaY == 0.0 ==> r == 0.0
  {
    NormalizeTick(ScaledWheelDelta(e, firefox, devicePixelRatio))
  }

  /** With a positive device pixel ratio the exponent has the sign of the
      wheel delta, so the zoom direction follows the scroll direction. */
  lemma WheelValueSign(e: WheelEvent, firefox: bool, devicePixelRatio: real)
    requires firefox && e.deltaMode == Pixel ==> devicePixelRatio > 0.0
    ensures e.deltaY > 0.0 <==> WheelValue(e, firefox, devicePixelRatio) > 0.0
    ensures e.deltaY < 0.0 <==> WheelValue(e, firefox, devicePixelRatio) < 0.0
  {
    if firefox && e.deltaMode == Pixel {
      QuotientSign(e.deltaY, devicePixelRatio);
      assert e.deltaY != 0.0 ==> e.deltaY / devicePixelRatio != 0.0;
    }
  }

  /** The distance scaled by 1.01 to the power `value`, then clamped to the
      distance bounds. */
  function ZoomedDistance(h: Host, p: Props, value: real): (r: real)
    ensures p.minDistance <= p.maxDistance ==> p.minDistance <= r <= p.maxDistance
    ensures var zoomed := p.distance * h.pow(1.01, value);
            && (p.minDistance <= zoomed <= p.maxDistance ==> r == zoomed)
            && (zoomed < p.minDistance ==> r == p.minDistance)
            && (p.minDistance <= zoomed && p.maxDistance < zoomed ==> r == p.maxDistance)
  {
    Clamp(p.distance * h.pow(1.01, value), p.minDistance, p.maxDistance)
  }

  /** The wheel handler emits only the new distance, which lies within the
      distance bounds. */
  function WheelDelta(h: Host, p: Props, value: real): (r: Delta)
    ensures Keys(r) == {Distance}
    ensures p.minDistance <= p.maxDistance ==> p.minDistance <= r.distance.value <= p.maxDistance
  {
    Delta(None, Some(ZoomedDistance(h, p, value)), None, None, None)
  }

  /** A zero delta skips the notch rule and, since 1.01^0 is 1, only clamps
      the current distance. */
  lemma WheelZeroDelta(h: Host, p: Props, mode: DeltaMode, firefox: bool, devicePixelRatio: real)
    requires firefox && mode == Pixel ==> devicePixelRatio != 0.0
    requires h.pow(1.01, 0.0) == 1.0
    ensures WheelValue(WheelEvent(0.0, mode), firefox, devicePixelRatio) == 0.0
    ensures WheelDelta(h, p, 0.0).distance == Some(Clamp(p.distance, p.minDistance, p.maxDistance))
  {
  }

  /** A pixel-mode notch of +4.000244140625 zooms by exponent 1 but a notch of
      -4.000244140625 by exponent -2, because floor rounds toward minus infinity. */
  lemma WheelNotchScenario(devicePixelRatio: real)
    ensures WheelValue(WheelEvent(WheelTick, Pixel), false, devicePixelRatio) == 1.0
    ensures WheelValue(WheelEvent(-WheelTick, Pixel), false, devicePixelRatio) == -2.0
  {
    TruncRemZeroIff(WheelTick, WheelTick);
    TruncRemZeroIff(-WheelTick, WheelTick);
    assert (WheelTick / 4.0).Floor == 1;
    assert (-WheelTick / 4.0).Floor == -2;
  }

  /** On Firefox a doubled notch on a 2x display is halved before the notch
      rule; three lines in line mode are 120, not a notch multiple, and kept. */
  lemma WheelScalingScenario()
    ensures WheelValue(WheelEvent(2.0 * WheelTick, Pixel), true, 2.0) == 1.0
    ensures WheelValue(WheelEvent(3.0, Line), false, 1.0) == 120.0
  {
    TruncRemZeroIff(WheelTick, WheelTick);
    assert (WheelTick / 4.0).Floor == 1;
    TruncRemZeroIff(120.0, WheelTick);
    assert (120.0 / WheelTick).Floor == 29;
  }

  // ---------------------------------------------------------------------------
  // fitBounds

  /** The largest of the three box extents. */
  function MaxExtent(lo: Vec3, hi: Vec3): (s: real)
    ensures s >= hi.x - lo.x && s >= hi.y - lo.y && s >= hi.z - lo.z
    ensures s == hi.x - lo.x || s == hi.y - lo.y || s == hi.z - lo.z
  {
    var a, b, c := hi.x - lo.x, hi.y - lo.y, hi.z - lo.z;
    if a >= b && a >= c then a else if b >= c then b else c
  }

  /** fitBounds emits only a distance: the largest extent over tan(fov / 2), halved. */
  function FitBoundsDelta(h: Host, p: Props, lo: Vec3, hi: Vec3): (r: Delta)
    requires TanHalfFov(h, p.fov) != 0.0
    ensures Keys(r) == {Distance}
    ensures r.distance.value == MaxExtent(lo, hi) / TanHalfFov(h, p.fov) / 2.0
  {
    Delta(None, Some(MaxExtent(lo, hi) / TanHalfFov(h, p.fov) / 2.0), None, None, None)
  }

  /** A 10-unit cube seen with a 90-degree field of view (tan 45 degrees = 1)
      is fitted at distance 5. */
  lemma FitBoundsScenario(h: Host, p: Props)
    requires p.fov == 90.0 && TanHalfFov(h, 90.0) == 1.0
    ensures FitBoundsDelta(h, p, Vec3(0.0, 0.0, 0.0), Vec3(10.0, 10.0, 10.0)).distance == Some(5.0)
  {
    assert MaxExtent(Vec3(0.0, 0.0, 0.0), Vec3(10.0, 10.0, 10.0)) == 10.0;
  }
}
