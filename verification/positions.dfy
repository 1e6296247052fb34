/** Left/right drift positions of a hit (process_hits_v2.py, analyse): the time
    corrected by the event's t0, turned into a distance from the wire at the
    constant drift velocity, a negative corrected time counting as zero. */
module Positions {
  import opened Config
  import opened Channels
  import opened Hits

  /** max(TIMENS, 0) * VDRIFT. */
  function DriftDistance(timeNs: real): real
  {
    (if timeNs > 0.0 then timeNs else 0.0) * VDRIFT
  }

  /** One row of the selection TIME0 > 0 after the column assignments:
      TIMENS, X_POS_LEFT and X_POS_RIGHT are set, nothing else changes. */
  function Positioned(h: Hit): (p: Hit)
    ensures p.timeNs == h.timeAbs - h.time0
    ensures p.xLeft == CellCenter(h.norm, h.xPosShift) - DriftDistance(p.timeNs)
    ensures p.xRight == CellCenter(h.norm, h.xPosShift) + DriftDistance(p.timeNs)
    ensures p.xLeft <= CellCenter(h.norm, h.xPosShift) <= p.xRight
    ensures p.xRight - CellCenter(h.norm, h.xPosShift) == CellCenter(h.norm, h.xPosShift) - p.xLeft
    ensures p == h.(timeNs := p.timeNs, xLeft := p.xLeft, xRight := p.xRight)
  {
    DriftLaw(h.timeAbs - h.time0, h.timeAbs - h.time0);
    var t := h.timeAbs - h.time0;
    var c := CellCenter(h.norm, h.xPosShift);
    h.(timeNs := t, xLeft := c - DriftDistance(t), xRight := c + DriftDistance(t))
  }

  /** The drift distance is zero for a negative corrected time, grows with slope
      VDRIFT after it, and so never decreases with time. */
  lemma DriftLaw(t1: real, t2: real)
    ensures DriftDistance(t1) >= 0.0
    ensures t1 <= 0.0 ==> DriftDistance(t1) == 0.0
    ensures t1 >= 0.0 ==> DriftDistance(t1) == t1 * VDRIFT
    ensures t1 <= t2 ==> DriftDistance(t1) <= DriftDistance(t2)
  {
    DriftCoversHalfCell();
  }

  /** A corrected time of at most one full drift time keeps both positions
      inside the hit's cell, half a cell either side of the wire. */
  lemma PositionsInsideCell(h: Hit)
    requires h.timeAbs - h.time0 <= TDRIFT
    ensures var p := Positioned(h); var c := CellCenter(h.norm, h.xPosShift);
      c - XCELL / 2.0 <= p.xLeft && p.xRight <= c + XCELL / 2.0
      && p.xRight - p.xLeft == 2.0 * DriftDistance(p.timeNs)
  {
    DriftCoversHalfCell();
    var t := h.timeAbs - h.time0;
    DriftLaw(t, TDRIFT);
    assert DriftDistance(TDRIFT) == XCELL / 2.0;
  }
}
