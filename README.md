# Orbit camera controller — a Dafny model

This project models the core of `OrbitController`, the orbit-camera
controller of deck.gl's React bindings (`src/controllers/orbit-controller.js`).
The controller turns pointer and wheel input into partial updates of a
camera orbiting a pivot:

- a plain drag rotates the camera (elevation `rotationX`, azimuth `rotationY`);
- a drag with shift, ctrl, alt or meta held pans the pivot `lookAt`;
- the wheel zooms (`distance`);
- `fitBounds` picks the distance at which a box fills the field of view.

Its only state is `_dragStartPos`: `null` while idle, the last pointer
position while dragging. Every handler reports through the owner's
`onViewportChange` callback. The owner merges the delta into the parameters
it holds and passes them back on the next event.

## Layout

- `orbit_types.dfy` — module `OrbitTypes`. The values that cross the
  controller's boundary: `Props` (the owner's parameters), pointer and wheel
  events, and `Delta`, a partial update whose fields are `Option`s, so
  `Keys(d)` is exactly the set of fields it carries. It also holds `Host`,
  the numeric routines the code calls but the model leaves uninterpreted:
  `Math.PI`, `Math.tan`, `Math.pow`, and gl-vec3's `rotateX`/`rotateY`.
- `js_arith.dfy` — module `JsArith`. JavaScript's `%` on numbers, whose
  quotient is truncated toward zero, so the result takes the dividend's
  sign. Dafny's own `%` is Euclidean, so `TruncRem` is written out.
- `orbit_math.dfy` — module `OrbitMath`. The pure rules: `clamp`, the
  rotate and pan branches of a drag, the wheel-delta normalisation and the
  zoom, `fitBounds`' distance, and `getViewport`'s eye position.
- `orbit_controller.dfy` — module `OrbitController`. Class `Controller`
  has the field `dragStartPos: Option<(real, real)>` and the field
  `emitted: seq<Delta>`, which stands in for the callback. Each handler is a
  method that updates the field and appends to `emitted`. The object
  invariant `Valid()` states that the controller is dragging exactly when
  the last `isDragging` flag it reported is `true`.
- `view_state.dfy` — module `ViewState`. The owner's merge of a delta into
  its parameters, used to state the bounds the parameters are meant to keep
  from one event to the next.

Points where the model follows the code closely:

- **`clamp` with `min > max`** (lines 11-19). The code returns `min` when
  `x < min` and `max` otherwise; it never returns `x`. The model keeps this
  behaviour rather than a "min always wins" rule.
- **The rotate branch** uses the truncating remainder
  `(rotationY - dx * 180) % 360` (line 107). The result stays strictly
  inside (-360, 360) and has the sign of the dividend.
- **The wheel's notch test** is `value % 4.000244140625 === 0` (line 134).
  It is modelled as exact divisibility on reals, `TruncRem(value, 4.000244140625) == 0`.
  JavaScript's `%` on doubles is exact, so this agrees with the code for
  the values a browser reports.
- **A notch is collapsed with `Math.floor(value / 4)`** (line 137). This
  makes the zoom asymmetric: one notch of +4.000244140625 gives exponent 1,
  and one notch of -4.000244140625 gives exponent -2
  (`OrbitMath.WheelNotchScenario`).
- **`fitBounds` does not clamp** its distance to
  `[minDistance, maxDistance]` (`ViewState.FitBoundsIgnoresDistanceBounds`).

## Model

| member | source | states |
|---|---|---|
| `OrbitMath.Clamp` | src/controllers/orbit-controller.js:11-19 | With min <= max the result lies in [min, max]. It is x when x is already in range, min below the range and max above it. With min > max it is min for x < min and max otherwise. |
| `OrbitMath.ClampIdempotent` | src/controllers/orbit-controller.js:11-19 | With min <= max, clamping an already clamped value changes nothing. |
| `JsArith.TruncRemIsDividendMinusTruncated` | src/controllers/orbit-controller.js:107 | `x % m` equals x - m * trunc(x / m), the quotient truncated toward zero. |
| `JsArith.TruncRemBounds` | src/controllers/orbit-controller.js:107 | `x % m` lies in [0, m) for x >= 0 and in (-m, 0] for x <= 0. It is x itself when abs(x) < m. |
| `JsArith.TruncRemWholeTurns` | src/controllers/orbit-controller.js:107 | `x % m` differs from x by a whole number of m. |
| `JsArith.TruncRemZeroIff` | src/controllers/orbit-controller.js:134 | `x % m === 0` holds exactly when x / m is a whole number. |
| `OrbitMath.GetViewport` | src/controllers/orbit-controller.js:56-70 | The viewport has near 0.1, far 1000, fovy = fov, and the owner's width, height and lookAt. The eye is lookAt + (0, 0, distance), rotated about the pivot first by rotationX about X and then by rotationY about Y. |
| `OrbitMath.EyeWithoutRotation` | src/controllers/orbit-controller.js:57-59 | With both angles 0, and zero-angle rotations leaving the point alone, the eye is the pivot moved `distance` along +Z. |
| `OrbitMath.DraggingDelta` | src/controllers/orbit-controller.js:77-81 | A drag start or drag end emits exactly `{isDragging}` with the given flag. |
| `OrbitMath.RotateDelta` | src/controllers/orbit-controller.js:103-112 | The rotate branch emits exactly rotationX and rotationY. rotationX = clamp(rotationX - dy*180, -90, 90) lies in [-90, 90]: it is the unclamped angle when that is in range, -90 below the range and 90 above it. rotationY lies in (-360, 360), has the sign of rotationY - dx*180, equals it when it is already in range, and differs from it by whole turns. |
| `OrbitMath.PanDelta` | src/controllers/orbit-controller.js:90-102 | The pan branch emits exactly lookAt; distance and both angles are not emitted. |
| `OrbitMath.PanWithoutRotation` | src/controllers/orbit-controller.js:94-98 | For an unrotated camera the new pivot is lookAt + (-u*dx, u*dy, 0), with u = distance / tan(fov/2) / 2. |
| `OrbitMath.DragDelta` | src/controllers/orbit-controller.js:84-113 | A move while dragging emits exactly lookAt when a modifier is held and exactly the two angles otherwise. It never emits isDragging or distance. |
| `OrbitMath.RotateScenario` | src/controllers/orbit-controller.js:86-112 | A drag from (100, 100) to (150, 100) over 500 x 500 pixels with no modifier emits rotationX 0 and rotationY -18. |
| `OrbitMath.ZoomedDistance` | src/controllers/orbit-controller.js:140-141 | The zoomed distance lies in [minDistance, maxDistance] whenever minDistance <= maxDistance. It is distance * 1.01^value when that is in range, minDistance below minDistance, and maxDistance above maxDistance when it is not also below minDistance. |
| `OrbitMath.WheelDelta` | src/controllers/orbit-controller.js:140-145 | The wheel handler emits exactly distance, and it lies within the distance bounds when minDistance <= maxDistance. |
| `OrbitMath.NormalizeTick` | src/controllers/orbit-controller.js:134-138 | Zero stays zero and a nonzero value keeps its sign. A value that is not a whole multiple of 4.000244140625 is kept; a multiple becomes a whole number. |
| `OrbitMath.CollapsedNotch` | src/controllers/orbit-controller.js:134-138 | A positive notch multiple is collapsed to at least 1, a negative one to at most -1. |
| `OrbitMath.NotchCount` | src/controllers/orbit-controller.js:134-138 | For 1 <= k < 16384, k notches give exponent k and -k notches give exponent -k - 1. |
| `OrbitMath.WheelValue` | src/controllers/orbit-controller.js:126-138 | The normalised wheel exponent is zero for a zero delta. |
| `OrbitMath.WheelValueSign` | src/controllers/orbit-controller.js:126-138 | With a positive device pixel ratio, the exponent is positive exactly when the delta is and negative exactly when the delta is. |
| `OrbitMath.WheelZeroDelta` | src/controllers/orbit-controller.js:126-141 | A zero wheel delta skips the notch rule in every mode. The result is clamp(distance, minDistance, maxDistance). |
| `OrbitMath.WheelNotchScenario` | src/controllers/orbit-controller.js:134-138 | A notch of +4.000244140625 becomes exponent 1. A notch of -4.000244140625 becomes exponent -2. |
| `OrbitMath.WheelScalingScenario` | src/controllers/orbit-controller.js:126-138 | In Firefox, a pixel-mode delta is divided by the device pixel ratio before the notch test. A line-mode delta of 3 becomes 120, which is not a notch multiple and is kept. |
| `OrbitMath.MaxExtent` | src/controllers/orbit-controller.js:151 | The size is at least each of the three box extents and equal to one of them. |
| `OrbitMath.FitBoundsDelta` | src/controllers/orbit-controller.js:149-157 | fitBounds emits exactly distance, equal to the largest extent / tan(fov/2) / 2. |
| `OrbitMath.FitBoundsScenario` | src/controllers/orbit-controller.js:149-157 | A 10-unit cube with a 90-degree field of view is fitted at distance 5. |
| `OrbitController.LastDraggingFlagAppend` | src/controllers/orbit-controller.js:77-122 | Emitting a delta without isDragging leaves the owner's last flag unchanged; emitting one with the flag makes it the last. |
| `OrbitController.Controller.constructor` | src/controllers/orbit-controller.js:72-75 | A new controller is idle and has emitted nothing. |
| `OrbitController.Controller.OnDragStart` | src/controllers/orbit-controller.js:77-81 | Whatever the prior state, the drag state becomes the pointer position and exactly `{isDragging: true}` is appended. |
| `OrbitController.Controller.OnDrag` | src/controllers/orbit-controller.js:83-117 | While idle, the state and the emitted deltas are unchanged. While dragging, exactly one delta (pan or rotate) is appended and the stored position becomes the new pointer. |
| `OrbitController.Controller.OnDragEnd` | src/controllers/orbit-controller.js:119-122 | Whatever the prior state, the controller becomes idle and exactly `{isDragging: false}` is appended. |
| `OrbitController.Controller.OnWheel` | src/controllers/orbit-controller.js:124-146 | The delta is normalised step by step. The handler appends the one distance delta that the wheel functions specify and leaves the drag state untouched. |
| `OrbitController.Controller.FitBounds` | src/controllers/orbit-controller.js:149-157 | The handler appends the fit-to-bounds distance delta and leaves the drag state untouched. |
| `ViewState.DraggingFlagKeepsParameters` | src/controllers/orbit-controller.js:80 | Merging an isDragging delta changes no camera parameter. |
| `ViewState.RotateEstablishesAngleBounds` | src/controllers/orbit-controller.js:103-112 | After a rotate move both angles are within bounds, whatever they were before. The pivot and the distance are unchanged. |
| `ViewState.DragKeepsOrbitBounds` | src/controllers/orbit-controller.js:83-117 | Parameters within the orbit bounds stay within them after any drag move. A pan changes only the pivot. |
| `ViewState.WheelEstablishesDistanceBounds` | src/controllers/orbit-controller.js:140-145 | When minDistance <= maxDistance, after a wheel event the distance is within its bounds, whatever it was before. Nothing else changes. |
| `ViewState.FitBoundsIgnoresDistanceBounds` | src/controllers/orbit-controller.js:149-157 | fitBounds can emit a distance above maxDistance: it does not clamp. |

## Left out

- `render`, `propTypes`, `defaultProps` and the React component lifecycle (lines 2, 25-52, 159-173) are UI plumbing. The owner's parameters are passed to each handler as a `Props` value.
- User-agent sniffing and the `window.WheelEvent` / `window.devicePixelRatio` lookups (lines 21-23, 128-131) detect the environment. `OnWheel` takes the Firefox flag, the device pixel ratio and a classified `DeltaMode` as parameters.
- `evt.preventDefault()` (line 125) is a DOM side effect and is not modelled.
- Real numbers replace IEEE doubles. The rounding of divisions and products, `NaN` and `Infinity` are not modelled.
- `maxDistance`'s default of `Infinity` cannot be written as a real. `maxDistance` is always a finite bound here.
- Division by a zero width, height, `tan(fov / 2)` or device pixel ratio gives `Infinity` or `NaN` in the code. The model requires these divisors to be nonzero where they are used (for a drag move, only while dragging).
- `Math.tan`, `Math.pow`, `Math.PI` and gl-vec3's `rotateX`/`rotateY` are fields of `Host` and are not interpreted. `PerspectiveViewport` is replaced by the plain record `Viewport`. No numeric value is proved for the trigonometry or the powers.
- OrbitMath.PanDelta: the contract states only which fields are emitted. The new pivot's value is stated by `PanWithoutRotation`, for an unrotated camera only, because the rotations are not interpreted.
- OrbitMath.GetViewport: the eye is stated only as the rotation of lookAt + (0, 0, distance). Without interpreted rotations, its distance from the pivot is not proved.
