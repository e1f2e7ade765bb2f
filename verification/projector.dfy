/** The per-frame projection, in the degree domain only: the angles handed
    to the trigonometry that turns orientation into a look-at point on the
    sphere of radius 500. `phi` is measured down from the upward pole,
    `theta` around it. */
module Projector {
  import opened ViewModel
  import opened Handlers
  import opened Session
  import opened JsValues

  const LAT_LIMIT: int := 85

  datatype Aim = Aim(phiDeg: int, thetaDeg: int)

  function ClampLat(lat: int): (r: int)
    ensures -LAT_LIMIT <= r <= LAT_LIMIT
    ensures -LAT_LIMIT <= lat <= LAT_LIMIT ==> r == lat
    ensures lat >= LAT_LIMIT ==> r == LAT_LIMIT
    ensures lat <= -LAT_LIMIT ==> r == -LAT_LIMIT
  {
    if lat > LAT_LIMIT then LAT_LIMIT
    else if lat < -LAT_LIMIT then -LAT_LIMIT
    else lat
  }

  /** `draw` as written: the clamped latitude is stored in a field of its
      own, and the angles are computed from the unclamped latitude. */
  datatype DrawnAsWritten = DrawnAsWritten(latField: int, aim: Aim)

  function DrawAsWritten(s: ViewState): (r: DrawnAsWritten)
    ensures -LAT_LIMIT <= r.latField <= LAT_LIMIT
    ensures r.latField == ClampLat(s.lat)
    ensures r.aim.thetaDeg == s.lon
    ensures r.aim.phiDeg + s.lat == 90
  {
    DrawnAsWritten(ClampLat(s.lat), Aim(90 - s.lat, s.lon))
  }

  /** `draw` as intended: the angles come from the clamped latitude, so the
      look direction never reaches a pole. */
  function Draw(s: ViewState): (r: Aim)
    ensures 90 - LAT_LIMIT <= r.phiDeg <= 90 + LAT_LIMIT
    ensures r.thetaDeg == s.lon
    ensures -LAT_LIMIT <= s.lat <= LAT_LIMIT ==> r.phiDeg + s.lat == 90
  {
    Aim(90 - ClampLat(s.lat), s.lon)
  }

  /** Latitudes beyond the limit aim exactly as the limit does. */
  lemma DrawSaturates(s: ViewState, lat: int)
    requires lat >= LAT_LIMIT
    ensures Draw(s.(lat := lat)) == Draw(s.(lat := LAT_LIMIT))
    ensures Draw(s.(lat := -lat)) == Draw(s.(lat := -LAT_LIMIT))
  {
  }

  /** Wherever the two agree: inside the limit, the corrected projection is
      the written one. */
  lemma DrawAgreesWithinLimit(s: ViewState)
    requires -LAT_LIMIT <= s.lat <= LAT_LIMIT
    ensures Draw(s) == DrawAsWritten(s).aim
  {
  }

  /** The written projection reaches the pole: pressing at (0, 0) and
      dragging up to (0, -90) leaves latitude 90, which `draw` turns into
      `phi = 0` although its clamped latitude field reads 85. The corrected
      projection keeps `phi` at 5. */
  lemma DrawAsWrittenReachesPole()
    ensures var r := Replay(New(None, None),
        [Down(PointerEvent("mousedown", 0, 0)), Move(PointerEvent("mousemove", 0, -90))]);
      && r.viewer.state.lat == 90
      && DrawAsWritten(r.viewer.state).latField == 85
      && DrawAsWritten(r.viewer.state).aim.phiDeg == 0
      && Draw(r.viewer.state).phiDeg == 5
  {
    var down := PointerEvent("mousedown", 0, 0);
    var move := PointerEvent("mousemove", 0, -90);
    var start := New(None, None);
    assert [Down(down), Move(move)][..1] == [Down(down)];
    assert [Down(down)][..0] == [];
    assert Replay(start, []) == Run(start, []);
  }
}
