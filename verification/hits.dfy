/** One row of the hit table (`allhits`) and the row-wise selections made on it
    while the table is read (process_hits_v2.py, read_data). */
module Hits {
  import opened Config
  import opened Common
  import opened Channels

  /** A hit record. The raw fields come from the unpacked data; TIME_ABS is given
      (its floating-point computation from the counters is not modelled); the
      decoded fields follow from the channel address; EVENT_NR, TIME0, TIMENS and
      the two drift positions are filled in later stages. */
  datatype Hit = Hit(
    fpga: int, channel: int, orbit: int, bx: int, tdcMeas: Byte,
    timeAbs: real,
    layer: int, xPosShift: real, zPos: real, sl: int, norm: int,
    eventNr: int, time0: real, timeNs: real, xLeft: real, xRight: real)

  /** The key (FPGA, TDC_CHANNEL) of a hit. */
  function Key(h: Hit): ChannelKey { (h.fpga, h.channel) }

  /** The time column used for sorting. */
  function TimeAbs(h: Hit): real { h.timeAbs }

  /** A freshly read hit: columns derived from the channel address, the time
      corrected by the chamber latency, no event (EVENT_NR -1) and TIME0 0. */
  function Decode(fpga: int, channel: int, orbit: int, bx: int, tdcMeas: Byte, timeAbs: real): (h: Hit)
    requires IsByte(fpga) && IsByte(channel)
    ensures 1 <= h.layer <= 4 && -1 <= h.sl < 4 && IsByte(h.norm)
    ensures h.zPos == ZCELL * (4.5 - h.layer as real)
    ensures h.xPosShift == 0.5 <==> h.layer == 2 || h.layer == 4
    ensures (fpga == 0 || fpga == 1) ==> (h.sl >= 0 <==> h.norm <= NCHANNELS)
    ensures h.timeAbs == timeAbs && h.eventNr == -1 && h.time0 == 0.0
  {
    LayerIsBijection(channel, channel);
    StaggerAndHeightFollowLayer(channel);
    assert (fpga == 0 || fpga == 1) ==> (SL(fpga, channel) >= 0 <==> NormChannel(fpga, channel) <= NCHANNELS) by {
      if fpga == 0 || fpga == 1 {
        PhysicalIffInChamber(fpga, channel);
      }
    }
    var sl := SL(fpga, channel);
    Hit(fpga, channel, orbit, bx, tdcMeas,
        CorrectedTime(timeAbs, sl),
        Layer(channel), XPosShift(channel), ZPos(channel), sl, NormChannel(fpga, channel),
        -1, 0.0, 0.0, 0.0, 0.0)
  }

  /** The rows kept when every row whose predicate fails is dropped, in order. */
  function Filter(rows: seq<Hit>, keep: Hit -> bool): (r: seq<Hit>)
    ensures |r| <= |rows|
    ensures forall i :: 0 <= i < |r| ==> keep(r[i]) && r[i] in rows
    ensures forall h :: h in rows && keep(h) ==> h in r
    ensures multiset(r) <= multiset(rows)
  {
    if rows == [] then []
    else
      assert rows == [rows[0]] + rows[1..];
      var rest := Filter(rows[1..], keep);
      if keep(rows[0]) then [rows[0]] + rest else rest
  }

  /** Dropping rows distributes over concatenation, so the kept rows stay in table order. */
  lemma {:induction false} FilterAppend(a: seq<Hit>, b: seq<Hit>, keep: Hit -> bool)
    ensures Filter(a + b, keep) == Filter(a, keep) + Filter(b, keep)
  {
    if a == [] {
      assert a + b == b;
    } else {
      assert (a + b)[0] == a[0];
      assert (a + b)[1..] == a[1..] + b;
      FilterAppend(a[1..], b, keep);
    }
  }

  /** A row the predicate keeps survives as often as it occurs; any other row not at all. */
  lemma {:induction false} FilterMultiplicity(rows: seq<Hit>, keep: Hit -> bool, h: Hit)
    ensures multiset(Filter(rows, keep))[h] == if keep(h) then multiset(rows)[h] else 0
  {
    if rows != [] {
      assert rows == [rows[0]] + rows[1..];
      FilterMultiplicity(rows[1..], keep, h);
    }
  }

  /** A hit kept by the channel clean-up: a chamber channel, or the trigger channel. */
  predicate RelevantChannel(h: Hit)
  {
    h.norm <= NCHANNELS || Key(h) == CHANNEL_TRIGGER
  }

  /** Hits with an event number (the drop of EVENT_NR == -1), then the hits on
      chamber channels or on the trigger channel. */
  function DropUnassignedAndIrrelevant(rows: seq<Hit>): (r: seq<Hit>)
    ensures forall i :: 0 <= i < |r| ==> r[i].eventNr != -1 && RelevantChannel(r[i]) && r[i] in rows
    ensures forall h :: h in rows && h.eventNr != -1 && RelevantChannel(h) ==> h in r
  {
    Filter(Filter(rows, (h: Hit) => h.eventNr != -1), RelevantChannel)
  }

  /** Every decoded event-number or auxiliary trigger hit is removed by the
      channel clean-up: only the anchoring trigger channel survives it. */
  lemma ControlHitsDropped(fpga: int, channel: int, orbit: int, bx: int, tdcMeas: Byte, timeAbs: real)
    requires (fpga, channel) in EVENT_NR_CHANNELS || (fpga, channel) in CHANNELS_TRIGGER
    ensures IsByte(fpga) && IsByte(channel)
    ensures var h := Decode(fpga, channel, orbit, bx, tdcMeas, timeAbs);
      h.sl == -1 && (RelevantChannel(h) <==> Key(h) == CHANNEL_TRIGGER)
  {
    ControlChannelsAreNotPhysical((fpga, channel));
  }
}
