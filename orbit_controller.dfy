/** The controller object: its one piece of state is the pointer position a
    drag last saw, and every handler reports to the owner through the
    viewport-change callback, modelled as the sequence of deltas emitted. */
module OrbitController {
  import opened OrbitTypes
  import opened JsArith
  import opened OrbitMath

  /** The last isDragging flag the owner was told, if any. */
  function LastDraggingFlag(emitted: seq<Delta>): Option<bool> {
    if emitted == [] then None
    else if emitted[|emitted| - 1].isDragging.Some? then emitted[|emitted| - 1].isDragging
    else LastDraggingFlag(emitted[..|emitted| - 1])
  }

  /** Emitting a delta without the flag leaves the owner's last flag as it
      was; emitting one with the flag makes it the last. */
  lemma LastDraggingFlagAppend(emitted: seq<Delta>, d: Delta)
    ensures LastDraggingFlag(emitted + [d])
            == if d.isDragging.Some? then d.isDragging else LastDraggingFlag(emitted)
  {
    assert (emitted + [d])[..|emitted|] == emitted;
  }

  class Controller {
    /** The numeric host routines (Math and gl-vec3). */
    const host: Host
    /** `_dragStartPos`: None while idle, the last pointer position while dragging. */
    var dragStartPos: Option<(real, real)>
    /** Every delta passed to onViewportChange, oldest first. */
    var emitted: seq<Delta>

    /** The controller is dragging exactly when the last isDragging flag it
        reported to its owner is true. */
    ghost predicate Valid()
      reads this
    {
      dragStartPos.Some? <==> LastDraggingFlag(emitted) == Some(true)
    }

    constructor (host: Host)
      ensures Valid()
      ensures this.host == host && dragStartPos == None && emitted == []
    {
      this.host := host;
      dragStartPos := None;
      emitted := [];
    }

    /** `_onDragStart`: whatever the state, start dragging from the pointer
        and report isDragging: true. */
    method OnDragStart(e: PointerEvent)
      requires Valid()
      modifies this
      ensures Valid()
      ensures dragStartPos == Some((e.pageX, e.pageY))
      ensures emitted == old(emitted) + [DraggingDelta(true)]
    {
      dragStartPos := Some((e.pageX, e.pageY));
      LastDraggingFlagAppend(emitted, DraggingDelta(true));
      emitted := emitted + [DraggingDelta(true)];
    }

    /** `_onDrag`: while idle nothing happens; while dragging, one pan or
        rotate delta is reported and the pointer position is remembered. */
    method OnDrag(e: PointerEvent, p: Props)
      requires Valid()
      requires dragStartPos.Some? ==> p.width != 0.0 && p.height != 0.0
      requires dragStartPos.Some? && e.Modified() ==> TanHalfFov(host, p.fov) != 0.0
      modifies this
      ensures Valid()
      ensures old(dragStartPos).None? ==> dragStartPos == None && emitted == old(emitted)
      ensures old(dragStartPos).Some? ==>
                dragStartPos == Some((e.pageX, e.pageY)) &&
                emitted == old(emitted) + [DragDelta(host, p, old(dragStartPos).value, e)]
    {
      if dragStartPos.Some? {
        var start := dragStartPos.value;
        var dx := (e.pageX - start.0) / p.width;
        var dy := (e.pageY - start.1) / p.height;
        var d: Delta;
        if e.shiftKey || e.ctrlKey || e.altKey || e.metaKey {
          var unitsPerPixel := UnitsPerPixel(host, p);
          var newLookAt := Add(p.lookAt, Vec3(-unitsPerPixel * dx, unitsPerPixel * dy, 0.0));
          assert newLookAt == PanTarget(host, p, dx, dy);
          newLookAt := host.rotateX(newLookAt, p.lookAt, Radians(host, p.rotationX));
          newLookAt := host.rotateY(newLookAt, p.lookAt, Radians(host, p.rotationY));
          d := Delta(Some(newLookAt), None, None, None, None);
          assert d == PanDelta(host, p, dx, dy);
        } else {
          var newRotationX := Clamp(p.rotationX - dy * 180.0, -90.0, 90.0);
          var newRotationY := TruncRem(p.rotationY - dx * 180.0, 360.0);
          d := Delta(None, None, Some(newRotationX), Some(newRotationY), None);
          assert d == RotateDelta(p, dx, dy);
        }
        assert d == DragDelta(host, p, start, e);
        LastDraggingFlagAppend(emitted, d);
        emitted := emitted + [d];
        dragStartPos := Some((e.pageX, e.pageY));
      }
    }

    /** `_onDragEnd`: whatever the state, stop dragging and report
        isDragging: false. */
    method OnDragEnd()
      requires Valid()
      modifies this
      ensures Valid()
      ensures dragStartPos == None
      ensures emitted == old(emitted) + [DraggingDelta(false)]
    {
      dragStartPos := None;
      LastDraggingFlagAppend(emitted, DraggingDelta(false));
      emitted := emitted + [DraggingDelta(false)];
    }

    /** `_onWheel`: normalise the delta step by step, then report the zoomed
        distance clamped to its bounds; the drag state is untouched. The
        Firefox test and the device pixel ratio are given by the caller. */
    method OnWheel(e: WheelEvent, firefox: bool, devicePixelRatio: real, p: Props)
      requires Valid()
      requires firefox && e.deltaMode == Pixel ==> devicePixelRatio != 0.0
      modifies this
      ensures Valid()
      ensures dragStartPos == old(dragStartPos)
      ensures emitted == old(emitted) + [WheelDelta(host, p, WheelValue(e, firefox, devicePixelRatio))]
    {
      var value := e.deltaY;
      if firefox && e.deltaMode == Pixel {
        value := value / devicePixelRatio;
      }
      if e.deltaMode == Line {
        value := value * 40.0;
      }
      if value != 0.0 && TruncRem(value, WheelTick) == 0.0 {
        value := (value / 4.0).Floor as real;
      }
      assert value == WheelValue(e, firefox, devicePixelRatio);
      var newDistance := ZoomedDistance(host, p, value);
      var d := Delta(None, Some(newDistance), None, None, None);
      LastDraggingFlagAppend(emitted, d);
      emitted := emitted + [d];
    }

    /** `fitBounds`: report the distance at which the box [lo, hi] fits the
        field of view; the drag state is untouched. */
    method FitBounds(lo: Vec3, hi: Vec3, p: Props)
      requires Valid()
      requires TanHalfFov(host, p.fov) != 0.0
      modifies this
      ensures Valid()
      ensures dragStartPos == old(dragStartPos)
      ensures emitted == old(emitted) + [FitBoundsDelta(host, p, lo, hi)]
    {
      var size := MaxExtent(lo, hi);
      var newDistance := size / TanHalfFov(host, p.fov) / 2.0;
      var d := Delta(None, Some(newDistance), None, None, None);
      LastDraggingFlagAppend(emitted, d);
      emitted := emitted + [d];
    }
  }

  /** A gesture as a client sees it through the contracts alone: a move
      before any drag start is ignored, a drag reports the flag, one rotation
      and the flag again, and the controller ends idle. */
  method GestureScenario(h: Host, p: Props)
    requires p.width == 500.0 && p.height == 500.0
    requires p.rotationX == 0.0 && p.rotationY == 0.0
  {
    var c := new Controller(h);
    c.OnDrag(PointerEvent(10.0, 10.0, false, false, false, false), p);
    assert c.emitted == [] && c.dragStartPos == None;
    c.OnDragStart(PointerEvent(100.0, 100.0, false, false, false, false));
    c.OnDrag(PointerEvent(150.0, 100.0, false, false, false, false), p);
    RotateScenario(h, p);
    assert c.dragStartPos == Some((150.0, 100.0));
    c.OnDragEnd();
    assert c.emitted == [DraggingDelta(true),
                         Delta(None, None, Some(0.0), Some(-18.0), None),
                         DraggingDelta(false)];
    assert c.dragStartPos == None;
  }
}
