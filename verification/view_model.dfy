/** The viewer instance: the shared view state record, the element size,
    the image source and the camera the field of view is forwarded to. */
module ViewModel {
  import opened JsValues

  const MIN_FOV: real := 3.0
  const MAX_FOV: real := 100.0
  const DEFAULT_FOV: real := 70.0
  const DEFAULT_VELOCITY: real := 0.09

  /** The `state` record every handler mutates and every event carries.
      `x`/`y` are the last pointer position, `lon`/`lat` the accumulated
      orientation in degrees, `mousedown` whether a drag is armed. */
  datatype ViewState = ViewState(
    x: int, y: int,
    lon: int, lat: int,
    mousedown: bool,
    fov: real,
    velocity: real)

  datatype Size = Size(width: real, height: real)

  /** The camera exists only once the viewer has been rendered; `lens` is the
      last value handed to it (the first constructor argument at creation,
      then the argument of each `setLens` call). */
  datatype Camera = NoCamera | PerspectiveCamera(lens: real)

  datatype Viewer = Viewer(state: ViewState, size: Size, src: Option<string>, camera: Camera)

  predicate FovInRange(f: real) {
    MIN_FOV <= f <= MAX_FOV
  }

  /** What every reachable viewer satisfies: the field of view is inside its
      bounds, the scroll velocity was never set to zero, and a camera, once
      present, holds the stored field of view. */
  predicate Wf(v: Viewer) {
    && FovInRange(v.state.fov)
    && v.state.velocity != 0.0
    && (v.camera.PerspectiveCamera? ==> v.camera.lens == v.state.fov)
  }

  /** Size, source and camera are the same in both viewers. */
  predicate SameSetup(v: Viewer, w: Viewer) {
    v.size == w.size && v.src == w.src && v.camera == w.camera
  }
}
