/** A viewer's life: construction with the default state, then any sequence
    of calls from the embedding page and events from the element, with the
    emitted events collected in order. */
module Session {
  import opened JsValues
  import opened ViewModel
  import opened Accessors
  import opened Handlers

  /** The constructor's state: the defaults, no camera, a zero size, and the
      source taken from the element's `src` or else its `data-src`. */
  function New(elSrc: Option<string>, dataSrc: Option<string>): (v: Viewer)
    ensures Wf(v)
    ensures !v.state.mousedown && v.state.lon == 0 && v.state.lat == 0
    ensures v.state.x == 0 && v.state.y == 0
    ensures v.state.fov == DEFAULT_FOV && v.state.velocity == DEFAULT_VELOCITY
    ensures v.camera == NoCamera && v.size == Size(0.0, 0.0)
    ensures v.src.Some? <==> StringTruthy(elSrc) || StringTruthy(dataSrc)
    ensures StringTruthy(elSrc) ==> v.src == elSrc
    ensures !StringTruthy(elSrc) && StringTruthy(dataSrc) ==> v.src == dataSrc
  {
    var blank := Viewer(ViewState(0, 0, 0, 0, false, DEFAULT_FOV, DEFAULT_VELOCITY), Size(0.0, 0.0), None, NoCamera);
    var chosen := if StringTruthy(elSrc) then elSrc else dataSrc;
    match Src(blank, chosen)
    case Read(_) => blank
    case Wrote(w) => w.viewer
  }

  /** What can happen to a viewer: an element event routed to its handler
      (`touchstart` to the down handler, and so on), or a call of the public
      accessors or of `render`, whose returned values are discarded. */
  datatype Action =
    | Down(e: PointerEvent)
    | Move(e: PointerEvent)
    | Up(e: PointerEvent)
    | Wheel(w: WheelEvent)
    | CallFov(arg: Option<real>)
    | CallVelocity(arg: Option<real>)
    | CallWidth(arg: Option<real>)
    | CallHeight(arg: Option<real>)
    | CallSrc(text: Option<string>)
    | CallRender(cssWidth: real, cssHeight: real)

  /** An accessor call as an action: no event, no default suppressed. */
  function Called<T>(v: Viewer, a: Access<T>): Handled {
    match a
    case Read(_) => Handled(v, [], false, None)
    case Wrote(w) => Handled(w.viewer, [], false, w.fault)
  }

  /** The viewer after a setter call; a read leaves it as it was. */
  function After<T>(v: Viewer, a: Access<T>): Viewer {
    match a
    case Read(_) => v
    case Wrote(w) => w.viewer
  }

  /** `size()` without an argument: a width or height still at zero is
      replaced by the element's computed CSS width or height, each through
      its falsy-guarded setter. */
  function SizeFromStyle(v: Viewer, cssWidth: real, cssHeight: real): (w: Viewer)
    ensures w.size.width == (if v.size.width != 0.0 then v.size.width else cssWidth)
    ensures w.size.height == (if v.size.height != 0.0 then v.size.height else cssHeight)
    ensures w.state == v.state && w.src == v.src && w.camera == v.camera
  {
    var sized := if Width(v, None).value == 0.0 then After(v, Width(v, Some(cssWidth))) else v;
    if Height(sized, None).value == 0.0 then After(sized, Height(sized, Some(cssHeight))) else sized
  }

  /** `render` as far as the viewer's record is concerned: the size is
      settled from the computed style, then a camera is created whose first
      argument is the current field of view. */
  function Render(v: Viewer, cssWidth: real, cssHeight: real): (w: Viewer)
    ensures w.camera.PerspectiveCamera? && w.camera.lens == v.state.fov
    ensures w.size.width == (if v.size.width != 0.0 then v.size.width else cssWidth)
    ensures w.size.height == (if v.size.height != 0.0 then v.size.height else cssHeight)
    ensures w.state == v.state && w.src == v.src
  {
    SizeFromStyle(v, cssWidth, cssHeight).(camera := PerspectiveCamera(v.state.fov))
  }

  /** A size set explicitly, or settled by an earlier render, is never
      overwritten by the computed style of a later one. */
  lemma RenderKeepsSettledSize(v: Viewer, css1: real, css2: real, css3: real, css4: real)
    requires Render(v, css1, css2).size.width != 0.0 && Render(v, css1, css2).size.height != 0.0
    ensures var once := Render(v, css1, css2);
      Render(once, css3, css4).size == once.size
  {
  }

  function Step(v: Viewer, a: Action): (r: Handled)
    ensures Wf(v) ==> Wf(r.viewer)
    ensures |r.emitted| <= 1
  {
    match a
    case Down(e) => OnMouseDown(v, e)
    case Move(e) => OnMouseMove(v, e)
    case Up(e) => OnMouseUp(v, e)
    case Wheel(e) => OnMouseWheel(v, e)
    case CallFov(arg) => Called(v, Fov(v, arg))
    case CallVelocity(arg) => Called(v, Velocity(v, arg))
    case CallWidth(arg) => Called(v, Width(v, arg))
    case CallHeight(arg) => Called(v, Height(v, arg))
    case CallSrc(text) => Called(v, Src(v, text))
    case CallRender(cssWidth, cssHeight) => Handled(Render(v, cssWidth, cssHeight), [], false, None)
  }

  /** The viewer after a run of actions and every event emitted on the way. */
  datatype Run = Run(viewer: Viewer, log: seq<Emission>)

  function Replay(v: Viewer, actions: seq<Action>): (r: Run)
    ensures Wf(v) ==> Wf(r.viewer)
    ensures |r.log| <= |actions|
    decreases |actions|
  {
    if actions == [] then Run(v, [])
    else
      var before := Replay(v, actions[..|actions| - 1]);
      var h := Step(before.viewer, actions[|actions| - 1]);
      Run(h.viewer, before.log + h.emitted)
  }

  /** Every viewer reached from construction keeps the field of view in
      [MIN_FOV, MAX_FOV], a non-zero velocity, and the camera in step with
      the stored field of view. */
  lemma ReachableWf(elSrc: Option<string>, dataSrc: Option<string>, actions: seq<Action>)
    ensures Wf(Replay(New(elSrc, dataSrc), actions).viewer)
  {
  }

  /** Running two sequences one after the other is running their
      concatenation; the logs concatenate too. */
  lemma {:induction false} ReplayConcat(v: Viewer, a: seq<Action>, b: seq<Action>)
    ensures Replay(v, a + b)
      == Run(Replay(Replay(v, a).viewer, b).viewer, Replay(v, a).log + Replay(Replay(v, a).viewer, b).log)
    decreases |b|
  {
    if b == [] {
      assert a + b == a;
    } else {
      var b' := b[..|b| - 1];
      assert (a + b)[..|a + b| - 1] == a + b';
      assert (a + b)[|a + b| - 1] == b[|b| - 1];
      ReplayConcat(v, a, b');
    }
  }

  predicate AllMoves(actions: seq<Action>) {
    forall i :: 0 <= i < |actions| ==> actions[i].Move?
  }

  /** While a drag is armed, the orientation change over any run of moves
      telescopes to the travel from the drag's last position to the final
      pointer position; one event is emitted per move. */
  lemma {:induction false} DragTelescopes(v: Viewer, moves: seq<Action>)
    requires v.state.mousedown
    requires |moves| > 0 && AllMoves(moves)
    ensures var r := Replay(v, moves); var last := moves[|moves| - 1].e;
      && r.viewer.state.mousedown
      && r.viewer.state.x == last.pageX && r.viewer.state.y == last.pageY
      && r.viewer.state.lon - v.state.lon == last.pageX - v.state.x
      && v.state.lat - r.viewer.state.lat == last.pageY - v.state.y
      && r.viewer.state.fov == v.state.fov && r.viewer.state.velocity == v.state.velocity
      && SameSetup(v, r.viewer)
      && |r.log| == |moves|
    decreases |moves|
  {
    var init := moves[..|moves| - 1];
    if init != [] {
      assert AllMoves(init) by {
        forall i | 0 <= i < |init| ensures init[i].Move? {
          assert init[i] == moves[i];
        }
      }
      DragTelescopes(v, init);
    } else {
      assert Replay(v, init) == Run(v, []);
    }
  }

  /** Moves while no drag is armed change nothing and emit nothing. */
  lemma {:induction false} IdleMovesAreNoOps(v: Viewer, moves: seq<Action>)
    requires !v.state.mousedown
    requires AllMoves(moves)
    ensures Replay(v, moves) == Run(v, [])
    decreases |moves|
  {
    if moves != [] {
      var init := moves[..|moves| - 1];
      assert AllMoves(init) by {
        forall i | 0 <= i < |init| ensures init[i].Move? {
          assert init[i] == moves[i];
        }
      }
      IdleMovesAreNoOps(v, init);
    }
  }

  /** A press at (x0, y0) followed by moves ending at (xn, yn) turns the view
      by exactly xn - x0 in longitude and y0 - yn in latitude. */
  lemma PressThenDrag(v: Viewer, press: PointerEvent, moves: seq<Action>)
    requires |moves| > 0 && AllMoves(moves)
    ensures var r := Replay(v, [Down(press)] + moves); var last := moves[|moves| - 1].e;
      && r.viewer.state.lon == v.state.lon + (last.pageX - press.pageX)
      && r.viewer.state.lat == v.state.lat + (press.pageY - last.pageY)
      && r.viewer.state.fov == v.state.fov
      && |r.log| == 1 + |moves|
  {
    ReplayConcat(v, [Down(press)], moves);
    assert [Down(press)][..0] == [];
    DragTelescopes(Replay(v, [Down(press)]).viewer, moves);
  }

  /** After a release, further moves are ignored until the next press. */
  lemma ReleaseStopsDrag(v: Viewer, release: PointerEvent, moves: seq<Action>)
    requires AllMoves(moves)
    ensures Replay(v, [Up(release)] + moves) == Replay(v, [Up(release)])
  {
    ReplayConcat(v, [Up(release)], moves);
    assert [Up(release)][..0] == [];
    IdleMovesAreNoOps(Replay(v, [Up(release)]).viewer, moves);
  }

  /** A new viewer reports the default velocity, and `velocity(0)` on it
      is a read that cannot make the velocity zero. */
  lemma FreshVelocity(elSrc: Option<string>, dataSrc: Option<string>)
    ensures Velocity(New(elSrc, dataSrc), None) == Read(DEFAULT_VELOCITY)
    ensures Velocity(New(elSrc, dataSrc), Some(0.0)) == Read(DEFAULT_VELOCITY)
  {
  }

  /** The down-then-move scenario of the test suite: press at (100, 200),
      move to (300, 400); the move event carries lon 200 and lat -200. */
  lemma DragScenario()
    ensures var down := PointerEvent("mousedown", 100, 200);
      var move := PointerEvent("mousemove", 300, 400);
      var r := Replay(New(None, None), [Down(down), Move(move)]);
      && |r.log| == 2
      && r.log[1].name == "mousemove"
      && r.log[1].snapshot.x == 300 && r.log[1].snapshot.y == 400
      && r.log[1].snapshot.lon == 200 && r.log[1].snapshot.lat == -200
  {
    var down := PointerEvent("mousedown", 100, 200);
    var move := PointerEvent("mousemove", 300, 400);
    assert [Down(down), Move(move)][..1] == [Down(down)];
    assert [Down(down)][..0] == [];
    var start := New(None, None);
    assert Replay(start, []) == Run(start, []);
    var pressed := Replay(start, [Down(down)]);
    assert pressed.viewer.state.x == 100 && pressed.viewer.state.lon == 0;
  }
}
