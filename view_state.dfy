/** The owner's side of the delta callback: it merges each partial update into
    its own parameters and hands them back on the next event. The invariants
    below are the ones the camera parameters are meant to keep. */
module ViewState {
  import opened OrbitTypes
  import opened OrbitMath

  /** Fields present in the delta replace the owner's; absent ones stay. The
      isDragging flag is not a camera parameter and is dropped. */
  function Merge(p: Props, d: Delta): Props {
    p.(lookAt := d.lookAt.GetOr(p.lookAt),
       distance := d.distance.GetOr(p.distance),
       rotationX := d.rotationX.GetOr(p.rotationX),
       rotationY := d.rotationY.GetOr(p.rotationY))
  }

  /** Elevation within [-90, 90], azimuth within (-360, 360), distance within
      its bounds. */
  predicate OrbitBounds(p: Props) {
    && -90.0 <= p.rotationX <= 90.0
    && -360.0 < p.rotationY < 360.0
    && p.minDistance <= p.distance <= p.maxDistance
  }

  /** Merging a drag-start or drag-end delta changes no camera parameter. */
  lemma DraggingFlagKeepsParameters(p: Props, dragging: bool)
    ensures Merge(p, DraggingDelta(dragging)) == p
  {
  }

  /** A rotate move puts both angles in bounds whatever they were before, and
      leaves the pivot and the distance alone. */
  lemma RotateEstablishesAngleBounds(p: Props, dx: real, dy: real)
    ensures var q := Merge(p, RotateDelta(p, dx, dy));
            && -90.0 <= q.rotationX <= 90.0
            && -360.0 < q.rotationY < 360.0
            && q.lookAt == p.lookAt && q.distance == p.distance
  {
  }

  /** Any drag move keeps the orbit bounds: a rotation re-establishes the
      angles and a pan changes only the pivot. */
  lemma DragKeepsOrbitBounds(h: Host, p: Props, start: (real, real), e: PointerEvent)
    requires p.width != 0.0 && p.height != 0.0
    requires e.Modified() ==> TanHalfFov(h, p.fov) != 0.0
    requires OrbitBounds(p)
    ensures OrbitBounds(Merge(p, DragDelta(h, p, start, e)))
    ensures e.Modified() ==> Merge(p, DragDelta(h, p, start, e)).(lookAt := p.lookAt) == p
  {
  }

  /** A wheel event puts the distance within its bounds whatever it was, and
      changes nothing else. */
  lemma WheelEstablishesDistanceBounds(h: Host, p: Props, value: real)
    requires p.minDistance <= p.maxDistance
    ensures var q := Merge(p, WheelDelta(h, p, value));
            && p.minDistance <= q.distance <= p.maxDistance
            && q.(distance := p.distance) == p
  {
  }

  /** fitBounds does not clamp: a 10-unit cube with tan(fov / 2) = 1 is
      fitted at distance 5 even when the owner caps the distance at 1. */
  lemma FitBoundsIgnoresDistanceBounds(h: Host, p: Props)
    requires p.fov == 90.0 && TanHalfFov(h, 90.0) == 1.0
    requires p.minDistance == 0.0 && p.maxDistance == 1.0
    ensures Merge(p, FitBoundsDelta(h, p, Vec3(0.0, 0.0, 0.0), Vec3(10.0, 10.0, 10.0))).distance
            > p.maxDistance
  {
    FitBoundsScenario(h, p);
  }
}
