/** Values exchanged between the orbit controller and its owner: the orbit
    parameters it reads, the input events it receives, the partial updates it
    emits, and the numeric host routines it calls without interpreting them. */
module OrbitTypes {

  datatype Option<+T> = None | Some(value: T) {
    function GetOr(default: T): T {
      match this
      case Some(v) => v
      case None => default
    }
  }

  /** A point or offset in world space. */
  datatype Vec3 = Vec3(x: real, y: real, z: real)

  function Add(a: Vec3, b: Vec3): Vec3 {
    Vec3(a.x + b.x, a.y + b.y, a.z + b.z)
  }

  /** The owner's camera parameters, read afresh on every event
      (angles in degrees, sizes in pixels). */
  datatype Props = Props(
    lookAt: Vec3,
    distance: real,
    minDistance: real,
    maxDistance: real,
    rotationX: real,
    rotationY: real,
    fov: real,
    width: real,
    height: real)

  /** A pointer event: page coordinates and the modifier keys held. */
  datatype PointerEvent = PointerEvent(
    pageX: real, pageY: real,
    shiftKey: bool, ctrlKey: bool, altKey: bool, metaKey: bool)
  {
    /** Any modifier turns a drag into a pan. */
    predicate Modified() {
      shiftKey || ctrlKey || altKey || metaKey
    }
  }

  /** The unit a wheel event reports its delta in. */
  datatype DeltaMode = Pixel | Line | Page

  datatype WheelEvent = WheelEvent(deltaY: real, deltaMode: DeltaMode)

  /** A partial update handed to the owner: a field is present iff it is Some. */
  datatype Delta = Delta(
    lookAt: Option<Vec3>,
    distance: Option<real>,
    rotationX: Option<real>,
    rotationY: Option<real>,
    isDragging: Option<bool>)

  /** The names of the fields a delta may carry. */
  datatype Field = LookAt | Distance | RotationX | RotationY | IsDragging

  /** The fields a delta actually carries. */
  function Keys(d: Delta): set<Field> {
    (if d.lookAt.Some? then {LookAt} else {}) +
    (if d.distance.Some? then {Distance} else {}) +
    (if d.rotationX.Some? then {RotationX} else {}) +
    (if d.rotationY.Some? then {RotationY} else {}) +
    (if d.isDragging.Some? then {IsDragging} else {})
  }

  /** Numeric routines the controller calls but this model does not interpret:
      Math.PI, Math.tan, Math.pow, and the gl-vec3 rotations of a point about
      an origin by an angle in radians. */
  datatype Host = Host(
    pi: real,
    tan: real -> real,
    pow: (real, real) -> real,
    rotateX: (Vec3, Vec3, real) -> Vec3,
    rotateY: (Vec3, Vec3, real) -> Vec3)

  /** The camera description handed to the renderer. */
  datatype Viewport = Viewport(
    width: real,
    height: real,
    lookAt: Vec3,
    far: real,
    near: real,
    fovy: real,
    eye: Vec3)
}
