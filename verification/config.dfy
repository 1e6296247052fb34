/** Analysis constants of the drift-tube set-up (config.py), as exact values.
    Durations are in ns, lengths in mm, bunch-crossing counts are integers. */
module Config {

  /** Channels per chamber; one FPGA serves two chambers (128 channels). */
  const NCHANNELS: int := 64

  /** A raw channel address: (FPGA, TDC_CHANNEL). */
  type ChannelKey = (int, int)

  /** The four channels carrying the event-number nibbles, most significant first. */
  const EVENT_NR_CHANNELS: seq<ChannelKey> := [(1, 138), (1, 137), (0, 138), (0, 137)]
  /** The three trigger channels. */
  const CHANNELS_TRIGGER: seq<ChannelKey> := [(0, 130), (0, 129), (1, 129)]
  /** The trigger channel that anchors an event. */
  const CHANNEL_TRIGGER: ChannelKey := CHANNELS_TRIGGER[2]

  // Cell geometry
  const XCELL: real := 42.0
  const ZCELL: real := 13.0
  const ZCHAMB: real := 550.0
  const Z_SEP: real := 784.0

  // Durations of the periods of the clock
  const ORBIT_BX: int := 3564
  const BX_NS: real := 25.0
  const ORBIT_NS: real := (3564 * 25) as real
  const TDC_NS: real := 25.0 / 30.0

  /** Maximum drift time and drift velocity. */
  const TDRIFT: real := 15.6 * BX_NS
  const VDRIFT: real := XCELL * 0.5 / TDRIFT

  /** Minimum gap, in bunch crossings, between groups of event-number hits. */
  const EVENT_TIME_GAP: real := 1000.0 / BX_NS

  /** The 1.1 x TDRIFT width used for trigger-less events, meantimer sub-groups
      and the triplet time spread. */
  const EVENT_WIDTH_MAX: real := 1.1 * TDRIFT

  // Criteria for the meantimer input hits
  const NHITS_SL_MIN: int := 1
  const NHITS_SL_MAX: int := 10
  const MEANTIMER_ANGLES: seq<(real, real)> := [(-0.2, 0.1), (-0.2, 0.1), (-0.1, 0.2), (-0.1, 0.2)]
  const MEANTIMER_CLUSTER_SIZE: int := 2
  const MEANTIMER_SL_MULT_MIN: int := 2

  // DAQ synchronisation
  const TIME_OFFSET: real := -1382.0
  const TIME_WINDOW_LOW: real := -25.0
  const TIME_WINDOW_HIGH: real := 500.0
  const TIME_OFFSET_SL: seq<real> := [0.0, 0.0, 0.0, 0.0]

  /** float(np.sqrt(3)): the exact value of the double nearest to the square root of 3. */
  const MAX_SLOPE: real := 1.732050807568877193176604123436845839023590087890625
  const CHISQ_LOCAL: real := 20.0
  const CHISQ_2D: real := 200.0
  const CHISQ_3D: real := 500.0

  /** The anchoring trigger channel is the third trigger channel, (1, 129). */
  lemma ChannelTriggerIsThird()
    ensures CHANNEL_TRIGGER == CHANNELS_TRIGGER[2] == (1, 129)
    ensures CHANNEL_TRIGGER in CHANNELS_TRIGGER
  {
  }

  /** Four distinct event-number channels, none of them a trigger channel. */
  lemma EventNrChannelsDistinct()
    ensures |EVENT_NR_CHANNELS| == 4
    ensures forall i, j :: 0 <= i < j < 4 ==> EVENT_NR_CHANNELS[i] != EVENT_NR_CHANNELS[j]
    ensures forall i :: 0 <= i < 4 ==> EVENT_NR_CHANNELS[i] !in CHANNELS_TRIGGER
  {
  }

  /** Chambers hold whole columns of four cells, and every trigger or
      event-number channel lies above the two chambers' range of an FPGA. */
  lemma ChannelRanges()
    ensures NCHANNELS % 4 == 0
    ensures forall i :: 0 <= i < |EVENT_NR_CHANNELS| ==>
      2 * NCHANNELS < EVENT_NR_CHANNELS[i].1 && 129 <= EVENT_NR_CHANNELS[i].1 <= 138
    ensures forall i :: 0 <= i < |CHANNELS_TRIGGER| ==>
      2 * NCHANNELS < CHANNELS_TRIGGER[i].1 && 129 <= CHANNELS_TRIGGER[i].1 <= 138
  {
  }

  /** A full drift time covers half a cell: TDRIFT = 390 ns and VDRIFT * TDRIFT = 21 mm. */
  lemma DriftCoversHalfCell()
    ensures TDRIFT == 390.0
    ensures VDRIFT * TDRIFT == XCELL / 2.0 == 21.0
    ensures VDRIFT > 0.0
    ensures EVENT_WIDTH_MAX == 429.0
  {
  }

  /** An orbit lasts 3564 bunch crossings of 25 ns; the event gap is 40 bunch crossings. */
  lemma Durations()
    ensures ORBIT_NS == ORBIT_BX as real * BX_NS == 89100.0
    ensures EVENT_TIME_GAP == 40.0
    ensures 30.0 * TDC_NS == BX_NS
  {
  }

  /** One non-empty angle window per chamber 0..3. */
  lemma AngleWindows()
    ensures |MEANTIMER_ANGLES| == 4
    ensures forall sl :: 0 <= sl < 4 ==> MEANTIMER_ANGLES[sl].0 < MEANTIMER_ANGLES[sl].1
  {
  }

  /** The event time window is non-empty, and chambers have no extra latency. */
  lemma TimeWindow()
    ensures TIME_WINDOW_LOW < 0.0 < TIME_WINDOW_HIGH
    ensures |TIME_OFFSET_SL| == 4 && forall sl :: 0 <= sl < 4 ==> TIME_OFFSET_SL[sl] == 0.0
  {
  }

  /** max_slope is tan(60 degrees) rounded down to a double; the chi-squared
      ceilings grow from the local to the 3D stage. */
  lemma SlopeAndCeilings()
    ensures 1.732 < MAX_SLOPE < 1.7321
    ensures 2.9999999999999996 < MAX_SLOPE * MAX_SLOPE < 3.0
    ensures 0.0 < CHISQ_LOCAL < CHISQ_2D < CHISQ_3D
  {
  }
}
