# slant-photo view controller, modelled in Dafny

slant-photo is a panoramic photo viewer: an equirectangular image is painted
on the inside of a sphere and the user turns the view by dragging and zooms
with the wheel. This project models the viewer's input-to-camera-state
controller in `index.js`: the `state` record `{x, y, lon, lat, mousedown,
fov, velocity}`, the get-or-set accessors (`fov`, `velocity`, `width`,
`height`, `src`), the four handlers (`onmousedown`, `onmousemove`,
`onmouseup`, `onmousewheel`) with the events they emit, and the angles
`draw` derives from the orientation.

Modules, one per concern:

- `JsValues` (`js_values.dfy`): `undefined` as `None`, and JavaScript
  truthiness of numbers and strings.
- `ViewModel` (`view_model.dfy`): constants `MIN_FOV = 3`, `MAX_FOV = 100`,
  `DEFAULT_FOV = 70`, `DEFAULT_VELOCITY = 0.09`; the state, size, camera and
  viewer datatypes; the invariant `Wf`.
- `Accessors` (`accessors.dfy`): the clamping `fov` setter and the other
  accessors.
- `Handlers` (`handlers.dfy`): the pointer and wheel handlers, each returning
  the new viewer, the emitted `(type, snapshot)` events, whether the default
  action was suppressed, and any escaping exception.
- `Session` (`session.dfy`): construction, one `Step` per event or call,
  `Replay` of a sequence with the event log, and the drag lemmas.
- `Projector` (`projector.dfy`): the degree-domain part of `draw`, as written
  and as intended (see Findings).

Modelling choices:

- Pointer coordinates, `lon` and `lat` are `int`; `fov`, `velocity` and the
  size are `real`, so arithmetic is exact.
- The fov setter stores the clamped value before it calls
  `this.camera.setLens`. Before `render` has created a camera that call
  throws. The model keeps the stored value and reports the fault `CameraMissing`.
  A wheel event in that situation therefore changes the fov but emits nothing.
- `emit` hands listeners the live `state` object. Listeners run
  synchronously, so the model records a copy of the state at emission time.
- `render` is modelled only as far as it touches the viewer's record
  (`Session.Render`). Its `size()` call fills a zero width or height from the
  element's computed CSS size, which is passed in as a parameter. It then
  creates a camera whose first argument is the current fov.
- Every emitted event is named by the handler's `e.type` (index.js:254, 273,
  287, 312), so a touch start emits `touchstart` and a mouse press emits
  `mousedown`.
- `draw` computes `phi` from the unclamped latitude. Its ±85° clamp never
  reaches the look direction (see Findings).
- `velocity(0)` is a read (index.js:115), so the velocity can never be set
  to zero.

## Model

| member | source | states |
|---|---|---|
| `Accessors.ClampFov` | index.js:132-136 | the result lies in [3, 100], equals max(3, min(100, f)), and is `f` itself when `f` is already in range |
| `Accessors.SetFov` | index.js:129-142 | writing any number, including 0 and negatives, stores max(3, min(100, f)) and changes no other state field; with a camera the lens receives exactly the stored value, without one the write still happens and a `CameraMissing` fault escapes |
| `Accessors.Fov` | index.js:129-138 | only an `undefined` argument reads the stored fov; every supplied number is a clamped write, so `fov(0)` stores 3 |
| `Accessors.Velocity` | index.js:114-119 | a falsy argument (undefined or 0) reads the current velocity; any other value is stored unclamped, nothing else changes, and the stored velocity is never 0 |
| `Accessors.Width` | index.js:152-157 | falsy argument reads the width; otherwise only the width changes, to the non-zero argument |
| `Accessors.Height` | index.js:168-173 | falsy argument reads the height; otherwise only the height changes, to the non-zero argument |
| `Accessors.Src` | index.js:183-188 | missing or empty source reads the current one; otherwise only the source changes, to the non-empty argument |
| `Accessors.FovRoundTrip` | index.js:130-138 | after `fov(f)`, `fov()` returns max(3, min(100, f)): 3 for anything at or below 3, 100 for anything at or above 100, whether or not a camera exists |
| `Accessors.FovReachesLens` | index.js:138-139 | with a camera present, the lens value after `fov(f)` is the stored fov, which is the clamped `f` |
| `Accessors.VelocityRoundTrip` | index.js:114-118 | `velocity(s)` with s ≠ 0 then `velocity()` returns s; `velocity(0)` is a read returning the current velocity |
| `Accessors.WidthRoundTrip` | index.js:152-156 | `width(w)` with w ≠ 0 then `width()` returns w; `width(0)` is a read returning the current width |
| `Accessors.HeightRoundTrip` | index.js:168-172 | `height(h)` with h ≠ 0 then `height()` returns h; `height(0)` is a read returning the current height |
| `Accessors.SrcRoundTrip` | index.js:183-187 | `src(s)` with a non-empty s then `src()` returns s; `src("")` is a read returning the current source |
| `Handlers.OnMouseDown` | index.js:249-256 | arms the drag, records the pointer position, leaves lon, lat, fov, velocity, size, source and camera unchanged, suppresses the default and emits one event of the raw type carrying that state |
| `Handlers.OnMouseMove` | index.js:265-274 | unarmed: viewer unchanged, nothing emitted; armed: new position recorded, lon grows by the x travel, lat shrinks by the y travel, nothing else changes, one event emitted, default not suppressed |
| `Handlers.OnMouseUp` | index.js:283-288 | whatever the prior state, disarms the drag and changes nothing else; suppresses the default and emits one event with the disarmed state |
| `Handlers.OnMouseWheel` | index.js:297-313 | the first non-zero of wheelDeltaY, wheelDelta, detail chooses the candidate (fov − d·velocity for the first two, fov + detail for the last, fov itself if all are 0); the stored fov is the clamped candidate and lies in [3, 100]; nothing else in the state changes; one event is emitted unless the missing camera made the setter throw |
| `Handlers.WheelPrecedence` | index.js:304-310 | once an earlier delta field is non-zero, the values of the later fields do not affect the outcome |
| `Handlers.WheelDirection` | index.js:304-310 | with a positive velocity, positive wheelDeltaY/wheelDelta never widen the view and positive detail never narrows it (opposite signs the other way); an all-zero event leaves an in-range fov as it was |
| `Handlers.MoveThereAndBack` | index.js:267-272 | during a drag, moving away and back to the last recorded position restores the whole state, orientation included |
| `Handlers.UpIdempotent` | index.js:283-288 | a second release leaves the viewer exactly as the first one did |
| `Session.New` | index.js:44-60 | a new viewer is unarmed at x 0, y 0, lon 0, lat 0, fov 70, velocity 0.09, size 0×0, no camera; its source is the element's `src` if non-empty, else its `data-src` if non-empty, else none; it satisfies the invariant |
| `Session.SizeFromStyle` | index.js:100-103 | a width still at 0 becomes the computed CSS width and a height still at 0 the computed CSS height; a non-zero width or height is kept; state, source and camera are unchanged |
| `Session.Render` | index.js:197-204 | rendering settles the size from the computed style as above and creates a camera handed the current fov; the view state and source are unchanged |
| `Session.RenderKeepsSettledSize` | index.js:101-102 | once a render has left a non-zero width and height, whether set explicitly before it or taken from the computed style, a later render with any computed style (zero included) leaves the size as it is |
| `Session.Step` | index.js:67-74 | every event or call preserves the invariant (fov in [3, 100], velocity ≠ 0, camera lens equal to the stored fov) and emits at most one event |
| `Session.Replay` | index.js:249-313 | a run of any length of events (routed to the handlers as bound at index.js:67-74) and accessor or render calls preserves the invariant and emits at most one event per action |
| `Session.ReachableWf` | index.js:49-57 | every viewer reachable from construction satisfies the invariant |
| `Session.DragTelescopes` | index.js:265-273 | over any run of moves during a drag, the lon change equals the final x minus the drag's last x and the lat change equals the drag's last y minus the final y; fov, velocity and setup are unchanged and one event is emitted per move |
| `Session.IdleMovesAreNoOps` | index.js:266 | any run of moves with no drag armed leaves the viewer unchanged and emits nothing |
| `Session.PressThenDrag` | index.js:249-273 | a press at (x0, y0) followed by moves ending at (xn, yn) turns lon by exactly xn − x0 and lat by y0 − yn, leaves fov alone and emits one event per action |
| `Session.ReleaseStopsDrag` | index.js:283-288 | after a release, any run of moves changes nothing and emits nothing |
| `Session.FreshVelocity` | index.js:114-115 | a new viewer reports velocity 0.09, and `velocity(0)` on it is a read |
| `Session.DragScenario` | test/index.js:145-177 | press at (100, 200) then move to (300, 400) emits a move event whose state has x 300, y 400, lon 200, lat −200 |
| `Projector.ClampLat` | index.js:333 | the clamped latitude lies in [−85, 85], is the latitude itself within that range and the bound beyond it |
| `Projector.DrawAsWritten` | index.js:332-336 | the field beside the state receives exactly the clamped latitude, while phi is 90 minus the unclamped latitude and theta is the longitude |
| `Projector.Draw` | index.js:333-336 | with the clamp applied, phi stays in [5, 175], so the view never reaches a pole; within the limit phi is 90 minus the latitude |
| `Projector.DrawSaturates` | index.js:333 | any latitude beyond ±85 aims exactly as ±85 does |
| `Projector.DrawAgreesWithinLimit` | index.js:333-336 | for latitudes within ±85 the corrected and the written projections agree |
| `Projector.DrawAsWrittenReachesPole` | index.js:333-335 | a press at (0, 0) and a move to (0, −90) give latitude 90, and `draw` as written aims at phi 0 (the pole) while its clamped field reads 85; the corrected projection aims at phi 5 |

## Findings

| source | as written | input that shows it | evidently intended | confidence | as-written member | corrected member |
|---|---|---|---|---|---|---|
| index.js:333-335 | the latitude is clamped to ±85 into `this.lat`, a field nothing reads, and `phi` is computed from the unclamped `this.state.lat` | press at (0, 0), move to (0, −90): latitude 90, `phi` = 0, the camera looks straight at the pole | compute `phi` from the clamped latitude, keeping it in [5°, 175°] | medium, not executed | `Projector.DrawAsWrittenReachesPole` | `Projector.Draw` |

## Left out

- Non-number arguments are not modelled: `NaN`, `null`, strings passed as numbers. For example, `fov(NaN)` would store NaN and `fov(null)` stores 3. Only `undefined`, 0 and ordinary numbers are modelled.
- Floating-point rounding is not modelled. The wheel arithmetic `fov − d·velocity` is exact real arithmetic.
- Pointer coordinates are integers. Fractional page coordinates are not modelled.
- Touch events are modelled as if they carried page coordinates. The source routes `touchstart`, `touchmove` and `touchend` to the same handlers (index.js:69, 71, 73), and those handlers read `e.pageX`/`e.pageY` (index.js:252-253, 267-270). A standard `TouchEvent` keeps its coordinates in `touches`/`changedTouches` and has no `pageX`/`pageY`, so there the source would store `undefined` and turn `lon`/`lat` into NaN. `Session.DragTelescopes` and `Session.PressThenDrag` therefore describe drags whose events supply page coordinates, such as mouse drags.
- The trigonometry in `draw` is not modelled (sin/cos, the radius-500 look-at point, `lookAt`, `renderer.render`), because it is floating-point work on a rendering library. Only the degree-domain angles are modelled.
- `loop` is not modelled. It is a self-rescheduling animation-frame loop with no termination.
- Most of `render` and `resize` are not modelled: the mesh, the texture, the aspect ratio and `renderer.setSize`. These are rendering-library calls.
- `resize` and `size(size)` with an explicit size are not modelled. They are sizing plumbing for the renderer. `size()` without an argument is modelled inside `Session.Render`, with the computed CSS width and height as parameters; reading them from the DOM, and `parseFloat` yielding NaN, are not modelled.
- The constructor's DOM and scene wiring is not modelled: scene and renderer creation, appending the canvas, and event binding. Only the resulting routing of events to handlers is modelled, in `Session.Step`.
- `debug` logging is not modelled. The call to `e.preventDefault()` is modelled only as the `defaultPrevented` flag.
- The listener registry is reduced to a log of emitted events. Listeners themselves are not modelled.
- What the camera does with the `setLens` argument is not modelled. That belongs to the rendering library. The model records the value it receives.
- The zoom buttons in `example.js` are not modelled separately. They only call the `fov` getter and setter, which `Accessors.Fov` covers.
