/** The get-or-set accessors `fov`, `velocity`, `width`, `height` and `src`.
    Called without an argument each returns the current value; called with
    one it stores it and returns the viewer for chaining. `fov` reads only
    when the argument is `undefined`; the others read whenever it is falsy. */
module Accessors {
  import opened JsValues
  import opened ViewModel

  /** The `TypeError` raised by `this.camera.setLens` before any render. */
  datatype Fault = CameraMissing

  /** The effect of a setter: the updated viewer and the exception, if any,
      that escaped after the update. */
  datatype Write = Write(viewer: Viewer, fault: Option<Fault>)

  datatype Access<T> = Read(value: T) | Wrote(write: Write)

  function Min(a: real, b: real): real {
    if a <= b then a else b
  }

  function Max(a: real, b: real): real {
    if a <= b then b else a
  }

  /** The setter's clamp, written as the source's two guarded branches. */
  function ClampFov(f: real): (r: real)
    ensures FovInRange(r)
    ensures r == Max(MIN_FOV, Min(MAX_FOV, f))
    ensures FovInRange(f) ==> r == f
  {
    if f < MIN_FOV then MIN_FOV
    else if f > MAX_FOV then MAX_FOV
    else f
  }

  /** `fov(f)` with a supplied number: the clamped value is stored first and
      then forwarded to the camera, which throws when there is none yet. */
  function SetFov(v: Viewer, f: real): (r: Write)
    ensures r.viewer.state == v.state.(fov := Max(MIN_FOV, Min(MAX_FOV, f)))
    ensures FovInRange(r.viewer.state.fov)
    ensures r.viewer.size == v.size && r.viewer.src == v.src
    ensures r.fault.Some? <==> v.camera.NoCamera?
    ensures r.fault.Some? ==> r.fault.value == CameraMissing && r.viewer.camera == NoCamera
    ensures r.fault.None? ==> r.viewer.camera == PerspectiveCamera(r.viewer.state.fov)
  {
    var stored := v.(state := v.state.(fov := ClampFov(f)));
    match v.camera
    case NoCamera => Write(stored, Some(CameraMissing))
    case PerspectiveCamera(_) => Write(stored.(camera := PerspectiveCamera(stored.state.fov)), None)
  }

  /** `fov([f])`: only an `undefined` argument reads, so `fov(0)` is a write. */
  function Fov(v: Viewer, arg: Option<real>): (r: Access<real>)
    ensures r.Read? <==> arg.None?
    ensures r.Read? ==> r.value == v.state.fov
    ensures r.Wrote? ==> r.write.viewer.state.fov == Max(MIN_FOV, Min(MAX_FOV, arg.value))
    ensures r.Wrote? ==> r.write.viewer.state == v.state.(fov := r.write.viewer.state.fov)
    ensures arg == Some(0.0) ==> r.Wrote? && r.write.viewer.state.fov == MIN_FOV
  {
    match arg
    case None => Read(v.state.fov)
    case Some(f) => Wrote(SetFov(v, f))
  }

  /** `velocity([v])`: a falsy argument (including `0`) reads; anything else
      is stored unclamped. */
  function Velocity(v: Viewer, arg: Option<real>): (r: Access<real>)
    ensures r.Read? <==> !NumberTruthy(arg)
    ensures r.Read? ==> r.value == v.state.velocity
    ensures r.Wrote? ==> r.write.fault.None?
    ensures r.Wrote? ==> r.write.viewer.state.velocity == arg.value != 0.0
    ensures r.Wrote? ==> r.write.viewer.state == v.state.(velocity := arg.value)
    ensures r.Wrote? ==> SameSetup(v, r.write.viewer)
  {
    if !NumberTruthy(arg) then Read(v.state.velocity)
    else Wrote(Write(v.(state := v.state.(velocity := arg.value)), None))
  }

  /** `width([w])`, with the same falsy guard as `velocity`. */
  function Width(v: Viewer, arg: Option<real>): (r: Access<real>)
    ensures r.Read? <==> !NumberTruthy(arg)
    ensures r.Read? ==> r.value == v.size.width
    ensures r.Wrote? ==> r.write.fault.None? && r.write.viewer.size.width == arg.value != 0.0
    ensures r.Wrote? ==> r.write.viewer == v.(size := v.size.(width := arg.value))
  {
    if !NumberTruthy(arg) then Read(v.size.width)
    else Wrote(Write(v.(size := v.size.(width := arg.value)), None))
  }

  /** `height([h])`, with the same falsy guard as `velocity`. */
  function Height(v: Viewer, arg: Option<real>): (r: Access<real>)
    ensures r.Read? <==> !NumberTruthy(arg)
    ensures r.Read? ==> r.value == v.size.height
    ensures r.Wrote? ==> r.write.fault.None? && r.write.viewer.size.height == arg.value != 0.0
    ensures r.Wrote? ==> r.write.viewer == v.(size := v.size.(height := arg.value))
  {
    if !NumberTruthy(arg) then Read(v.size.height)
    else Wrote(Write(v.(size := v.size.(height := arg.value)), None))
  }

  /** `src([s])`: a missing or empty source reads the current one, which is
      `None` (`null`) until a non-empty source is set. */
  function Src(v: Viewer, arg: Option<string>): (r: Access<Option<string>>)
    ensures r.Read? <==> !StringTruthy(arg)
    ensures r.Read? ==> r.value == v.src
    ensures r.Wrote? ==> r.write.fault.None? && r.write.viewer.src == arg && arg.value != ""
    ensures r.Wrote? ==> r.write.viewer == v.(src := arg)
  {
    if !StringTruthy(arg) then Read(v.src)
    else Wrote(Write(v.(src := arg), None))
  }

  /** Setting a field of view and reading it back yields the clamped value,
      whether or not the camera was there to receive it. */
  lemma FovRoundTrip(v: Viewer, f: real)
    ensures Fov(Fov(v, Some(f)).write.viewer, None) == Read(Max(MIN_FOV, Min(MAX_FOV, f)))
    ensures f <= MIN_FOV ==> Fov(Fov(v, Some(f)).write.viewer, None) == Read(MIN_FOV)
    ensures f >= MAX_FOV ==> Fov(Fov(v, Some(f)).write.viewer, None) == Read(MAX_FOV)
  {
  }

  /** The camera is handed exactly the value now stored as the field of view. */
  lemma FovReachesLens(v: Viewer, f: real)
    requires v.camera.PerspectiveCamera?
    ensures var w := Fov(v, Some(f)).write.viewer;
      w.camera.PerspectiveCamera? && w.camera.lens == w.state.fov == ClampFov(f)
  {
  }

  /** A non-zero velocity reads back unchanged; `velocity(0)` is a read that
      leaves the viewer as it was. */
  lemma VelocityRoundTrip(v: Viewer, s: real)
    ensures s != 0.0 ==> Velocity(Velocity(v, Some(s)).write.viewer, None) == Read(s)
    ensures Velocity(v, Some(0.0)) == Read(v.state.velocity)
  {
  }

  /** A non-zero width reads back unchanged; `width(0)` is a read. */
  lemma WidthRoundTrip(v: Viewer, w: real)
    ensures w != 0.0 ==> Width(Width(v, Some(w)).write.viewer, None) == Read(w)
    ensures Width(v, Some(0.0)) == Read(v.size.width)
  {
  }

  /** A non-zero height reads back unchanged; `height(0)` is a read. */
  lemma HeightRoundTrip(v: Viewer, h: real)
    ensures h != 0.0 ==> Height(Height(v, Some(h)).write.viewer, None) == Read(h)
    ensures Height(v, Some(0.0)) == Read(v.size.height)
  {
  }

  /** A non-empty source reads back unchanged; `src("")` is a read. */
  lemma SrcRoundTrip(v: Viewer, s: string)
    ensures s != "" ==> Src(Src(v, Some(s)).write.viewer, None) == Read(Some(s))
    ensures Src(v, Some("")) == Read(v.src)
  {
  }
}
