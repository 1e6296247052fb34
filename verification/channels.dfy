/** Decoding of a raw hit's channel address (process_hits_v2.py, read_data):
    layer, horizontal stagger and height inside the chamber from TDC_CHANNEL mod 4,
    the chamber (SL) from the FPGA number and the channel range, and the channel
    number within its chamber. Channel and FPGA numbers are uint8 values. */
module Channels {
  import opened Config

  /** A uint8 column value. */
  predicate IsByte(x: int) { 0 <= x < 256 }

  /** Layer of the cell: residues 1, 2, 3, 0 of the channel map to layers 1, 3, 2, 4. */
  function Layer(channel: int): int
  {
    var r := channel % 4;
    if r == 1 then 1 else if r == 2 then 3 else if r == 3 then 2 else 4
  }

  /** Half-cell stagger of the cell's wire column: 0, 0, 0.5, 0.5 for residues 1, 2, 3, 0. */
  function XPosShift(channel: int): real
  {
    var r := channel % 4;
    if r == 1 then 0.0 else if r == 2 then 0.0 else if r == 3 then 0.5 else 0.5
  }

  /** Height of the wire in the chamber: 3.5, 1.5, 2.5, 0.5 cells for residues 1, 2, 3, 0. */
  function ZPos(channel: int): real
  {
    var r := channel % 4;
    if r == 1 then ZCELL * 3.5 else if r == 2 then ZCELL * 1.5 else if r == 3 then ZCELL * 2.5 else ZCELL * 0.5
  }

  /** Chamber number: FPGA 0 serves chambers 0 and 1, FPGA 1 chambers 2 and 3,
      each chamber holding NCHANNELS channels; anything else is -1. */
  function SL(fpga: int, channel: int): int
  {
    if fpga == 0 && channel <= NCHANNELS then 0
    else if fpga == 0 && NCHANNELS < channel <= 2 * NCHANNELS then 1
    else if fpga == 1 && channel <= NCHANNELS then 2
    else if fpga == 1 && NCHANNELS < channel <= 2 * NCHANNELS then 3
    else -1
  }

  /** Channel within its chamber, stored as uint8: odd chambers (and -1, since
      -1 mod 2 is 1) are shifted down by NCHANNELS, and a negative value wraps. */
  function NormChannel(fpga: int, channel: int): int
  {
    (channel - NCHANNELS * (SL(fpga, channel) % 2)) % 256
  }

  /** Absolute time corrected by the chamber's latency (zero for every chamber). */
  function CorrectedTime(timeAbs: real, sl: int): real
  {
    if 0 <= sl < 4 then timeAbs + TIME_OFFSET_SL[sl] else timeAbs
  }

  /** Horizontal centre of the cell of a normalised channel:
      ((norm - 0.5) floordiv 4 + stagger) * XCELL + XCELL / 2. */
  function CellCenter(norm: int, xPosShift: real): real
  {
    ((((norm as real) - 0.5) / 4.0).Floor as real + xPosShift) * XCELL + XCELL / 2.0
  }

  /** The layer is a bijection from the residue mod 4 onto 1..4. */
  lemma LayerIsBijection(c1: int, c2: int)
    ensures 1 <= Layer(c1) <= 4
    ensures Layer(c1) == Layer(c2) <==> c1 % 4 == c2 % 4
  {
  }

  /** The stagger is half a cell exactly on layers 2 and 4, and the wire height
      drops by one cell per layer, layer 1 on top. */
  lemma StaggerAndHeightFollowLayer(channel: int)
    ensures XPosShift(channel) == (if Layer(channel) == 2 || Layer(channel) == 4 then 0.5 else 0.0)
    ensures ZPos(channel) == ZCELL * (4.5 - Layer(channel) as real)
  {
  }

  /** (norm - 0.5) floordiv 4 is the wire column (norm - 1) div 4 of a whole channel number. */
  lemma WireColumn(norm: int)
    ensures (((norm as real) - 0.5) / 4.0).Floor == (norm - 1) / 4
  {
    var k := (norm - 1) / 4;
    assert 4 * k <= norm - 1 < 4 * k + 4;
    var x := ((norm as real) - 0.5) / 4.0;
    assert (k as real) <= x < (k as real) + 1.0;
  }

  /** The cell centres follow the cell numbering scheme drawn in the source: in
      column k, layers 1 and 3 (channels 4k+1, 4k+2) sit half a cell to the left
      of layers 2 and 4 (channels 4k+3, 4k+4). */
  lemma CentersMatchCellDiagram(k: nat)
    ensures CellCenter(4 * k + 1, XPosShift(4 * k + 1)) == (k as real + 0.5) * XCELL
    ensures CellCenter(4 * k + 2, XPosShift(4 * k + 2)) == (k as real + 0.5) * XCELL
    ensures CellCenter(4 * k + 3, XPosShift(4 * k + 3)) == (k as real + 1.0) * XCELL
    ensures CellCenter(4 * k + 4, XPosShift(4 * k + 4)) == (k as real + 1.0) * XCELL
  {
    WireColumn(4 * k + 1);
    WireColumn(4 * k + 2);
    WireColumn(4 * k + 3);
    WireColumn(4 * k + 4);
    assert (4 * k + 4) % 4 == 0 && (4 * k + 3) % 4 == 3 && (4 * k + 2) % 4 == 2 && (4 * k + 1) % 4 == 1;
  }

  /** On FPGAs 0 and 1 a hit lies in a chamber exactly when its normalised
      channel is at most NCHANNELS (the physical-channel selection), and then
      the chamber's normalised channel is in 0..NCHANNELS. */
  lemma PhysicalIffInChamber(fpga: int, channel: int)
    requires fpga == 0 || fpga == 1
    requires IsByte(channel)
    ensures SL(fpga, channel) >= 0 <==> NormChannel(fpga, channel) <= NCHANNELS
    ensures SL(fpga, channel) >= 0 ==> 0 <= NormChannel(fpga, channel)
    ensures -1 <= SL(fpga, channel) < 4
  {
  }

  /** Trigger and event-number channels (129..138) are never in a chamber:
      their SL is -1 and their normalised channel is 65..74. */
  lemma ControlChannelsAreNotPhysical(key: ChannelKey)
    requires key in EVENT_NR_CHANNELS || key in CHANNELS_TRIGGER
    ensures SL(key.0, key.1) == -1
    ensures NCHANNELS < NormChannel(key.0, key.1) <= NCHANNELS + 10
  {
    ChannelRanges();
  }
}
