/** The pointer and wheel handlers. Each one mutates the view state and then
    emits an event named by the raw event type (`mousedown`, `touchstart`,
    ...) whose payload is the state after the mutation. */
module Handlers {
  import opened JsValues
  import opened ViewModel
  import opened Accessors

  /** A mouse or touch event: its raw type and its page coordinates. */
  datatype PointerEvent = PointerEvent(name: string, pageX: int, pageY: int)

  /** A wheel event. The three delta fields are the platform variants of the
      same motion; `0` stands for a field the platform left out. */
  datatype WheelEvent = WheelEvent(name: string, wheelDeltaY: int, wheelDelta: int, detail: int)

  /** One event delivered to the listeners, with the state it carried. */
  datatype Emission = Emission(name: string, snapshot: ViewState)

  /** The outcome of a handler: the updated viewer, the events it emitted,
      whether it suppressed the platform's default action, and the exception
      that escaped from it, if any. */
  datatype Handled = Handled(viewer: Viewer, emitted: seq<Emission>, defaultPrevented: bool, fault: Option<Fault>)

  /** `onmousedown`: arms a drag at the pointer position. */
  function OnMouseDown(v: Viewer, e: PointerEvent): (r: Handled)
    ensures r.viewer.state.mousedown
    ensures r.viewer.state.x == e.pageX && r.viewer.state.y == e.pageY
    ensures r.viewer.state.lon == v.state.lon && r.viewer.state.lat == v.state.lat
    ensures r.viewer.state.fov == v.state.fov && r.viewer.state.velocity == v.state.velocity
    ensures SameSetup(v, r.viewer)
    ensures r.emitted == [Emission(e.name, r.viewer.state)]
    ensures r.defaultPrevented && r.fault.None?
  {
    var s := v.state.(mousedown := true, x := e.pageX, y := e.pageY);
    Handled(v.(state := s), [Emission(e.name, s)], true, None)
  }

  /** `onmousemove`: ignored unless a drag is armed; otherwise the pointer's
      horizontal travel is added to the longitude and its vertical travel
      subtracted from the latitude. */
  function OnMouseMove(v: Viewer, e: PointerEvent): (r: Handled)
    ensures !v.state.mousedown ==> r == Handled(v, [], false, None)
    ensures v.state.mousedown ==>
      && r.viewer.state.mousedown
      && r.viewer.state.x == e.pageX && r.viewer.state.y == e.pageY
      && r.viewer.state.lon - v.state.lon == e.pageX - v.state.x
      && v.state.lat - r.viewer.state.lat == e.pageY - v.state.y
      && r.viewer.state.fov == v.state.fov && r.viewer.state.velocity == v.state.velocity
      && SameSetup(v, r.viewer)
      && r.emitted == [Emission(e.name, r.viewer.state)]
      && !r.defaultPrevented && r.fault.None?
  {
    if !v.state.mousedown then Handled(v, [], false, None)
    else
      var dx := e.pageX - v.state.x;
      var dy := e.pageY - v.state.y;
      var s := v.state.(x := e.pageX, y := e.pageY, lon := v.state.lon + dx, lat := v.state.lat - dy);
      Handled(v.(state := s), [Emission(e.name, s)], false, None)
  }

  /** `onmouseup`: disarms the drag whatever the prior state. */
  function OnMouseUp(v: Viewer, e: PointerEvent): (r: Handled)
    ensures !r.viewer.state.mousedown
    ensures r.viewer.state == v.state.(mousedown := false)
    ensures SameSetup(v, r.viewer)
    ensures r.emitted == [Emission(e.name, r.viewer.state)]
    ensures r.defaultPrevented && r.fault.None?
  {
    var s := v.state.(mousedown := false);
    Handled(v.(state := s), [Emission(e.name, s)], true, None)
  }

  /** The field of view a wheel event asks for, before the setter clamps it:
      the first non-zero delta field wins, in the order `wheelDeltaY`,
      `wheelDelta`, `detail`. */
  function WheelTarget(fov: real, velocity: real, e: WheelEvent): real {
    if e.wheelDeltaY != 0 then fov - e.wheelDeltaY as real * velocity
    else if e.wheelDelta != 0 then fov - e.wheelDelta as real * velocity
    else if e.detail != 0 then fov + e.detail as real * 1.0
    else fov
  }

  /** `onmousewheel`: reads the current field of view and velocity, adjusts
      the field of view by the selected delta and pushes it through the
      clamping setter, then emits. When the setter throws (no camera yet) the
      adjusted value is already stored but nothing is emitted. */
  function OnMouseWheel(v: Viewer, e: WheelEvent): (r: Handled)
    ensures FovInRange(r.viewer.state.fov)
    ensures e.wheelDeltaY != 0 ==>
      r.viewer.state.fov == ClampFov(v.state.fov - e.wheelDeltaY as real * v.state.velocity)
    ensures e.wheelDeltaY == 0 && e.wheelDelta != 0 ==>
      r.viewer.state.fov == ClampFov(v.state.fov - e.wheelDelta as real * v.state.velocity)
    ensures e.wheelDeltaY == 0 && e.wheelDelta == 0 && e.detail != 0 ==>
      r.viewer.state.fov == ClampFov(v.state.fov + e.detail as real)
    ensures e.wheelDeltaY == 0 && e.wheelDelta == 0 && e.detail == 0 ==>
      r.viewer.state.fov == ClampFov(v.state.fov)
    ensures r.viewer.state == v.state.(fov := r.viewer.state.fov)
    ensures r.viewer.size == v.size && r.viewer.src == v.src
    ensures r.defaultPrevented
    ensures r.fault.Some? <==> v.camera.NoCamera?
    ensures r.fault.None? ==>
      r.emitted == [Emission(e.name, r.viewer.state)] && r.viewer.camera == PerspectiveCamera(r.viewer.state.fov)
    ensures r.fault.Some? ==> r.emitted == [] && r.viewer.camera == NoCamera
  {
    var fov := Fov(v, None).value;
    var velocity := Velocity(v, None).value;
    var w := SetFov(v, WheelTarget(fov, velocity, e));
    if w.fault.Some? then Handled(w.viewer, [], true, w.fault)
    else Handled(w.viewer, [Emission(e.name, w.viewer.state)], true, None)
  }

  /** Once an earlier delta field is non-zero the later ones are ignored. */
  lemma WheelPrecedence(v: Viewer, e: WheelEvent, wheelDelta: int, detail: int)
    ensures e.wheelDeltaY != 0 ==>
      OnMouseWheel(v, e) == OnMouseWheel(v, e.(wheelDelta := wheelDelta, detail := detail))
    ensures e.wheelDelta != 0 ==>
      OnMouseWheel(v, e.(wheelDeltaY := 0)) == OnMouseWheel(v, e.(wheelDeltaY := 0, detail := detail))
  {
    var fov, velocity := v.state.fov, v.state.velocity;
    if e.wheelDeltaY != 0 {
      assert WheelTarget(fov, velocity, e) == WheelTarget(fov, velocity, e.(wheelDelta := wheelDelta, detail := detail));
    }
    if e.wheelDelta != 0 {
      assert WheelTarget(fov, velocity, e.(wheelDeltaY := 0))
        == WheelTarget(fov, velocity, e.(wheelDeltaY := 0, detail := detail));
    }
  }

  /** With a positive velocity, a positive `wheelDeltaY`/`wheelDelta` never
      widens the view and a positive `detail` never narrows it; the opposite
      signs act the other way. */
  lemma WheelDirection(v: Viewer, e: WheelEvent)
    requires FovInRange(v.state.fov) && v.state.velocity > 0.0
    ensures e.wheelDeltaY > 0 ==> OnMouseWheel(v, e).viewer.state.fov <= v.state.fov
    ensures e.wheelDeltaY < 0 ==> OnMouseWheel(v, e).viewer.state.fov >= v.state.fov
    ensures e.wheelDeltaY == 0 && e.wheelDelta > 0 ==> OnMouseWheel(v, e).viewer.state.fov <= v.state.fov
    ensures e.wheelDeltaY == 0 && e.wheelDelta < 0 ==> OnMouseWheel(v, e).viewer.state.fov >= v.state.fov
    ensures e.wheelDeltaY == 0 && e.wheelDelta == 0 && e.detail > 0 ==> OnMouseWheel(v, e).viewer.state.fov >= v.state.fov
    ensures e.wheelDeltaY == 0 && e.wheelDelta == 0 && e.detail < 0 ==> OnMouseWheel(v, e).viewer.state.fov <= v.state.fov
    ensures e.wheelDeltaY == 0 && e.wheelDelta == 0 && e.detail == 0 ==> OnMouseWheel(v, e).viewer.state.fov == v.state.fov
  {
    var fov, velocity := v.state.fov, v.state.velocity;
    var t := WheelTarget(fov, velocity, e);
    if e.wheelDeltaY != 0 || e.wheelDelta != 0 {
      var d := if e.wheelDeltaY != 0 then e.wheelDeltaY else e.wheelDelta;
      assert t == fov - d as real * velocity;
      ScaledSign(d, velocity);
    }
    assert OnMouseWheel(v, e).viewer.state.fov == ClampFov(t);
  }

  /** A delta scaled by a positive velocity keeps the delta's sign. */
  lemma ScaledSign(d: int, velocity: real)
    requires velocity > 0.0
    ensures d > 0 ==> d as real * velocity > 0.0
    ensures d < 0 ==> d as real * velocity < 0.0
  {
  }

  /** A move that returns the pointer to where a drag last stood restores the
      orientation: the two moves' deltas cancel. */
  lemma MoveThereAndBack(v: Viewer, away: PointerEvent, back: PointerEvent)
    requires v.state.mousedown
    requires back.pageX == v.state.x && back.pageY == v.state.y
    ensures var w := OnMouseMove(OnMouseMove(v, away).viewer, back).viewer;
      w.state == v.state
  {
  }

  /** Releasing twice leaves the same state as releasing once. */
  lemma UpIdempotent(v: Viewer, e1: PointerEvent, e2: PointerEvent)
    ensures OnMouseUp(OnMouseUp(v, e1).viewer, e2).viewer == OnMouseUp(v, e1).viewer
  {
  }
}
