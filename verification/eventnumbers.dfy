/** Trigger-mode event building (process_hits_v2.py, event_nr and
    calc_event_numbers): the hits on the event-number and trigger channels are
    grouped by bunch-crossing time; every group yields a 16-bit event id from
    four 4-bit counters, a 3-bit code of the trigger signals present, and,
    when it carries the trigger channel and its id is above the last accepted
    one, a t0 and the hits of the event. */
module EventNumbers {
  import opened Config
  import opened Common
  import opened Hits
  import opened Segmentation
  import opened TriggerlessEvents
  import opened Tables

  // ---------------------------------------------------------------- event id

  /** 2 to the power n. */
  function Pow2(n: nat): (p: nat)
    ensures p >= 1
  {
    if n == 0 then 1 else 2 * Pow2(n - 1)
  }

  /** Bitwise or of two non-negative integers (Python's `|`). */
  function BitOr(x: nat, y: nat): nat
  {
    if x == 0 then y
    else if y == 0 then x
    else 2 * BitOr(x / 2, y / 2) + (if x % 2 == 1 || y % 2 == 1 then 1 else 0)
  }

  /** `event_nr`: the four TDC_MEAS values of the event-number channels,
      shifted by 12, 8, 4 and 0 bits and or-ed. The shifts do not wrap: an
      `np.uint8` scalar shifted by a Python int is promoted to a 64-bit integer.
      Any four bytes give an id below 2^20. */
  function EventNr(a: Byte, b: Byte, c: Byte, d: Byte): (id: nat)
    ensures id < 0x10_0000
  {
    Pow2Values();
    BitOrBelow(a as nat * 4096, b as nat * 256, 20);
    BitOrBelow(BitOr(a as nat * 4096, b as nat * 256), c as nat * 16, 20);
    BitOrBelow(BitOr(BitOr(a as nat * 4096, b as nat * 256), c as nat * 16), d as nat, 20);
    BitOr(BitOr(BitOr(a as nat * 4096, b as nat * 256), c as nat * 16), d as nat)
  }

  /** The four 4-bit fields of an id, most significant first. */
  function Nibbles(id: int): (int, int, int, int)
  {
    ((id / 4096) % 16, (id / 256) % 16, (id / 16) % 16, id % 16)
  }

  lemma Pow2Values()
    ensures Pow2(4) == 16 && Pow2(8) == 256 && Pow2(12) == 4096 && Pow2(20) == 0x10_0000
  {
    assert Pow2(4) == 16;
    assert Pow2(8) == 16 * Pow2(4) by { Pow2Add(4, 4); }
    assert Pow2(12) == 16 * Pow2(8) by { Pow2Add(8, 4); }
    assert Pow2(20) == 256 * Pow2(12) by { Pow2Add(12, 8); }
  }

  lemma {:induction false} Pow2Add(m: nat, n: nat)
    ensures Pow2(m + n) == Pow2(m) * Pow2(n)
  {
    if n > 0 {
      Pow2Add(m, n - 1);
      assert Pow2(m + n) == 2 * Pow2(m + n - 1);
    }
  }

  /** Or-ing two numbers below 2^n stays below 2^n. */
  lemma {:induction false} BitOrBelow(x: nat, y: nat, n: nat)
    requires x < Pow2(n) && y < Pow2(n)
    ensures BitOr(x, y) < Pow2(n)
  {
    if x != 0 && y != 0 {
      assert n > 0;
      BitOrBelow(x / 2, y / 2, n - 1);
    }
  }

  /** Or-ing a multiple of 2^n with a number below 2^n is adding them. */
  lemma {:induction false} BitOrDisjoint(q: nat, y: nat, n: nat)
    requires y < Pow2(n)
    ensures BitOr(q * Pow2(n), y) == q * Pow2(n) + y
  {
    var x := q * Pow2(n);
    if n > 0 && q != 0 && y != 0 {
      var p := Pow2(n - 1);
      assert x == 2 * (q * p);
      assert x / 2 == q * p && x % 2 == 0;
      assert y / 2 < p;
      BitOrDisjoint(q, y / 2, n - 1);
      assert BitOr(x, y) == 2 * BitOr(q * p, y / 2) + y % 2;
    } else if n == 0 {
      assert y == 0;
    }
  }

  /** The hexadecimal digits of a number below 2^16 are read back by Nibbles. */
  lemma HexDigits(a: int, b: int, c: int, d: int)
    requires 0 <= a < 16 && 0 <= b < 16 && 0 <= c < 16 && 0 <= d < 16
    ensures Nibbles(a * 4096 + b * 256 + c * 16 + d) == (a, b, c, d)
  {
    var id := a * 4096 + b * 256 + c * 16 + d;
    assert id / 16 == a * 256 + b * 16 + c;
    assert id / 256 == a * 16 + b;
    assert id / 4096 == a;
  }

  /** With four 4-bit counters the or is a sum: the id is the hexadecimal
      number with digits a, b, c, d, below 2^16, and the counters are read
      back from it unchanged. */
  lemma NibblesRoundTrip(a: Byte, b: Byte, c: Byte, d: Byte)
    requires a < 16 && b < 16 && c < 16 && d < 16
    ensures EventNr(a, b, c, d) == a as int * 4096 + b as int * 256 + c as int * 16 + d as int
    ensures EventNr(a, b, c, d) < 0x1_0000
    ensures Nibbles(EventNr(a, b, c, d)) == (a as int, b as int, c as int, d as int)
  {
    Pow2Values();
    var ab := a as nat * 16 + b as nat;
    var abc := ab * 16 + c as nat;
    var x1 := BitOr(a as nat * 4096, b as nat * 256);
    assert x1 == ab * 256 by {
      BitOrDisjoint(a as nat, b as nat * 256, 12);
    }
    var x2 := BitOr(x1, c as nat * 16);
    assert x2 == abc * 16 by {
      BitOrDisjoint(ab, c as nat * 16, 8);
    }
    assert EventNr(a, b, c, d) == BitOr(x2, d as nat);
    assert BitOr(x2, d as nat) == abc * 16 + d as nat by {
      BitOrDisjoint(abc, d as nat, 4);
    }
    HexDigits(a as int, b as int, c as int, d as int);
  }

  /** Two sets of 4-bit counters give the same id only if they are equal. */
  lemma NibblesDetermineId(a: Byte, b: Byte, c: Byte, d: Byte, a': Byte, b': Byte, c': Byte, d': Byte)
    requires a < 16 && b < 16 && c < 16 && d < 16
    requires a' < 16 && b' < 16 && c' < 16 && d' < 16
    requires EventNr(a, b, c, d) == EventNr(a', b', c', d')
    ensures a == a' && b == b' && c == c' && d == d'
  {
    NibblesRoundTrip(a, b, c, d);
    NibblesRoundTrip(a', b', c', d');
  }

  /** The counters 3, 5, 9, 2 give the id 0x3592. */
  lemma EventNrExample()
    ensures EventNr(3, 5, 9, 2) == 0x3592
  {
    NibblesRoundTrip(3, 5, 9, 2);
  }

  // ------------------------------------------------------------ trigger bits

  /** `np.packbits` of up to eight flags: the first flag is the most
      significant bit of a byte, missing flags are 0. */
  function PackBits(bs: seq<bool>): (byte: nat)
    requires |bs| <= 8
    ensures byte + Pow2(8 - |bs|) <= 256
  {
    if bs == [] then 0
    else PackBits(bs[..|bs| - 1]) + (if bs[|bs| - 1] then Pow2(8 - |bs|) else 0)
  }

  /** `np.packbits(flags) >> 5` for the three trigger channels. */
  function TriggerCode(p0: bool, p1: bool, p2: bool): (code: nat)
  {
    PackBits([p0, p1, p2]) / 32
  }

  /** Whether bit k (0 the least significant) of n is set. */
  predicate TestBit(n: nat, k: nat)
  {
    (n / Pow2(k)) % 2 == 1
  }

  /** The trigger code is 4 p0 + 2 p1 + p2, a number in 0..7 from which each
      of the three flags is read back. */
  lemma TriggerCodeRoundTrip(p0: bool, p1: bool, p2: bool)
    ensures TriggerCode(p0, p1, p2) == (if p0 then 4 else 0) + (if p1 then 2 else 0) + (if p2 then 1 else 0)
    ensures TriggerCode(p0, p1, p2) < 8
    ensures TestBit(TriggerCode(p0, p1, p2), 2) == p0
    ensures TestBit(TriggerCode(p0, p1, p2), 1) == p1
    ensures TestBit(TriggerCode(p0, p1, p2), 0) == p2
  {
    assert [p0, p1, p2][..2] == [p0, p1] && [p0, p1][..1] == [p0] && [p0][..0] == [];
    assert Pow2(5) == 32 && Pow2(6) == 64 && Pow2(7) == 128 && Pow2(2) == 4 && Pow2(1) == 2;
    assert PackBits([p0]) == (if p0 then 128 else 0);
    assert PackBits([p0, p1]) == PackBits([p0]) + (if p1 then 64 else 0);
    assert PackBits([p0, p1, p2]) == PackBits([p0, p1]) + (if p2 then 32 else 0);
  }

  // ---------------------------------------------------- one group of signals

  /** Index of the first hit of `df` on channel `key`, -1 when there is none
      (after the removal of duplicate channels, keeping the first entry). */
  function FirstIndex(df: seq<Hit>, key: ChannelKey): (i: int)
    ensures -1 <= i < |df|
    ensures i == -1 <==> forall j :: 0 <= j < |df| ==> Key(df[j]) != key
    ensures i >= 0 ==> Key(df[i]) == key && forall j :: 0 <= j < i ==> Key(df[j]) != key
  {
    if df == [] then -1
    else if Key(df[0]) == key then 0
    else
      var r := FirstIndex(df[1..], key);
      if r == -1 then -1 else r + 1
  }

  /** `df['TDC_MEAS'].reindex(channels, fill_value=0)` at one channel. */
  function Counter(df: seq<Hit>, key: ChannelKey): Byte
  {
    var i := FirstIndex(df, key);
    if i == -1 then 0 else df[i].tdcMeas
  }

  /** The event id of a group: `event_nr` of its four counters. */
  function GroupEventId(df: seq<Hit>): nat
  {
    EventNr(Counter(df, EVENT_NR_CHANNELS[0]), Counter(df, EVENT_NR_CHANNELS[1]),
            Counter(df, EVENT_NR_CHANNELS[2]), Counter(df, EVENT_NR_CHANNELS[3]))
  }

  /** A column value reindexed on one channel with fill value -111. */
  function MeasOrFill(df: seq<Hit>, key: ChannelKey): int
  {
    var i := FirstIndex(df, key);
    if i == -1 then -111 else df[i].tdcMeas as int
  }

  function TimeOrFill(df: seq<Hit>, key: ChannelKey): real
  {
    var i := FirstIndex(df, key);
    if i == -1 then -111.0 else df[i].timeAbs
  }

  /** The trigger code of a group without the trigger channel, from TDC_MEAS. */
  function MeasTriggerCode(df: seq<Hit>): nat
  {
    TriggerCode(MeasOrFill(df, CHANNELS_TRIGGER[0]) != -111, MeasOrFill(df, CHANNELS_TRIGGER[1]) != -111,
                MeasOrFill(df, CHANNELS_TRIGGER[2]) != -111)
  }

  /** The trigger code of a group with the trigger channel, from TIME_ABS. */
  function TimeTriggerCode(df: seq<Hit>): nat
  {
    TriggerCode(TimeOrFill(df, CHANNELS_TRIGGER[0]) != -111.0, TimeOrFill(df, CHANNELS_TRIGGER[1]) != -111.0,
                TimeOrFill(df, CHANNELS_TRIGGER[2]) != -111.0)
  }

  /** Whether a group has a hit on a channel. */
  predicate Present(df: seq<Hit>, key: ChannelKey)
  {
    exists j :: 0 <= j < |df| && Key(df[j]) == key
  }

  /** The code computed from TDC_MEAS flags exactly the trigger channels
      present in the group (a byte is never -111); the code computed from
      TIME_ABS does too when no trigger hit has the time -111. */
  lemma TriggerCodesFlagPresence(df: seq<Hit>)
    ensures MeasTriggerCode(df) == TriggerCode(Present(df, CHANNELS_TRIGGER[0]), Present(df, CHANNELS_TRIGGER[1]),
                                              Present(df, CHANNELS_TRIGGER[2]))
    ensures (forall j :: 0 <= j < |df| ==> df[j].timeAbs != -111.0) ==>
      TimeTriggerCode(df) == MeasTriggerCode(df)
  {
  }

  /** What the loop reads from one group: its id, whether the trigger channel
      is present with the time of its first hit, the trigger code computed in
      each branch, and the two trigger time differences. */
  datatype Summary = Summary(id: nat, trigger: bool, triggerTime: real, measCode: nat, timeCode: nat,
                             timeDiff20: real, timeDiff21: real)

  /** The summary of one group of signal hits. */
  function Summarize(df: seq<Hit>): (s: Summary)
    ensures s.id == GroupEventId(df)
    ensures s.trigger <==> Present(df, CHANNEL_TRIGGER)
    ensures s.trigger ==> exists j :: 0 <= j < |df| && Key(df[j]) == CHANNEL_TRIGGER && s.triggerTime == df[j].timeAbs
  {
    var ti := FirstIndex(df, CHANNEL_TRIGGER);
    var trg := [TimeOrFill(df, CHANNELS_TRIGGER[0]), TimeOrFill(df, CHANNELS_TRIGGER[1]),
                TimeOrFill(df, CHANNELS_TRIGGER[2])];
    Summary(GroupEventId(df), ti != -1, if ti == -1 then 0.0 else df[ti].timeAbs,
            MeasTriggerCode(df), TimeTriggerCode(df), trg[2] - trg[0], trg[2] - trg[1])
  }

  /** What the loop does with one group. */
  datatype Outcome =
    | Excluded(id: int)
    | NoTrigger(id: int, trgBits: int)
    | BackwardJump(id: int)
    | Accepted(id: int, t0: real, trgBits: int, timeDiff20: real, timeDiff21: real, forwardJump: bool)

  /** An event id the `--events` option lets through: every id when the list
      is empty, otherwise only the listed ones. */
  predicate Listed(id: int, events: seq<int>)
  {
    events == [] || id in events
  }

  /** The decision on one group, given the `--events` list and the last
      accepted id. A group is accepted exactly when it is not excluded, has
      the trigger channel and its id is above the last one: a large forward
      jump is flagged but never skips the group. */
  function Decide(s: Summary, events: seq<int>, last: int): (o: Outcome)
    ensures o.id == s.id
    ensures o.Excluded? <==> !Listed(s.id, events)
    ensures o.NoTrigger? <==> Listed(s.id, events) && !s.trigger
    ensures o.BackwardJump? <==> Listed(s.id, events) && s.trigger && s.id <= last
    ensures o.Accepted? <==> Listed(s.id, events) && s.trigger && s.id > last
    ensures o.NoTrigger? ==> o.trgBits == s.measCode
    ensures o.Accepted? ==> o.t0 == s.triggerTime + TIME_OFFSET
    ensures o.Accepted? ==> (o.forwardJump <==> events == [] && last > 0 && s.id - last > 20)
  {
    if !Listed(s.id, events) then Excluded(s.id)
    else if !s.trigger then NoTrigger(s.id, s.measCode)
    else if s.id <= last then BackwardJump(s.id)
    else Accepted(s.id, s.triggerTime + TIME_OFFSET, s.timeCode, s.timeDiff20, s.timeDiff21,
                  events == [] && last > 0 && s.id - last > 20)
  }

  // ------------------------------------------------------- the group sequence

  /** `last_evt_id` before group n: -1 at the start, then the id of every
      accepted group. */
  function LastBefore(groups: seq<Summary>, events: seq<int>, n: nat): int
    requires n <= |groups|
  {
    if n == 0 then -1
    else
      var last := LastBefore(groups, events, n - 1);
      var o := Decide(groups[n - 1], events, last);
      if o.Accepted? then o.id else last
  }

  /** The decision on group n. */
  function OutcomeAt(groups: seq<Summary>, events: seq<int>, n: nat): Outcome
    requires n < |groups|
  {
    Decide(groups[n], events, LastBefore(groups, events, n))
  }

  /** A skipped group leaves `last_evt_id` unchanged; an accepted one raises it
      to its own id. */
  lemma SkipKeepsLast(groups: seq<Summary>, events: seq<int>, n: nat)
    requires n < |groups|
    ensures !OutcomeAt(groups, events, n).Accepted? ==> LastBefore(groups, events, n + 1) == LastBefore(groups, events, n)
    ensures OutcomeAt(groups, events, n).Accepted? ==>
      LastBefore(groups, events, n + 1) == OutcomeAt(groups, events, n).id > LastBefore(groups, events, n)
  {
  }

  /** `last_evt_id` never decreases along the groups. */
  lemma {:induction false} LastNeverDecreases(groups: seq<Summary>, events: seq<int>, i: nat, j: nat)
    requires i <= j <= |groups|
    ensures LastBefore(groups, events, i) <= LastBefore(groups, events, j)
  {
    if i < j {
      LastNeverDecreases(groups, events, i, j - 1);
      SkipKeepsLast(groups, events, j - 1);
    }
  }

  /** The ids of the accepted groups, the ones given a t0, strictly increase. */
  lemma AcceptedIdsIncrease(groups: seq<Summary>, events: seq<int>, i: nat, j: nat)
    requires i < j < |groups|
    requires OutcomeAt(groups, events, i).Accepted? && OutcomeAt(groups, events, j).Accepted?
    ensures OutcomeAt(groups, events, i).id < OutcomeAt(groups, events, j).id
  {
    SkipKeepsLast(groups, events, i);
    LastNeverDecreases(groups, events, i + 1, j);
  }

  // ------------------------------------------------- grouping signal hits

  /** A hit on an event-number channel or on a trigger channel. */
  predicate SignalHit(h: Hit)
  {
    Key(h) in EVENT_NR_CHANNELS || Key(h) in CHANNELS_TRIGGER
  }

  /** The bunch-crossing count of a hit, ORBIT_CNT * 3564 + BX_COUNTER. */
  function BxTime(h: Hit): real
  {
    (h.orbit * ORBIT_BX + h.bx) as real
  }

  /** The signal hits in ascending order of bunch-crossing count. */
  function SortedSignals(rows: seq<Hit>): (s: seq<Hit>)
    ensures SortedBy(s, BxTime)
    ensures multiset(s) == multiset(Filter(rows, SignalHit))
  {
    SortBy(Filter(rows, SignalHit), BxTime)
  }

  /** The bunch-crossing counts of a sequence of hits. */
  function BxTimes(s: seq<Hit>): (ts: seq<real>)
    ensures |ts| == |s|
    ensures forall i :: 0 <= i < |s| ==> ts[i] == BxTime(s[i])
  {
    seq(|s|, i requires 0 <= i < |s| => BxTime(s[i]))
  }

  /** The gap-group ids along the sorted signal hits: a new group wherever two
      consecutive counts are more than EVENT_TIME_GAP bunch crossings apart. */
  function SignalGroupIds(rows: seq<Hit>): (g: seq<int>)
    ensures |g| == |SortedSignals(rows)|
  {
    GroupIds(BxTimes(SortedSignals(rows)), EVENT_TIME_GAP)
  }

  /** The number of signal groups. */
  function NGroups(rows: seq<Hit>): nat
  {
    var g := SignalGroupIds(rows);
    if |g| == 0 || g[|g| - 1] < 0 then 0 else g[|g| - 1] + 1
  }

  /** The first position of `t` in `ts`, -1 when it does not occur. */
  function IndexOf(ts: seq<real>, t: real): (j: int)
    ensures -1 <= j < |ts|
    ensures j == -1 <==> t !in ts
    ensures j >= 0 ==> ts[j] == t && forall i :: 0 <= i < j ==> ts[i] != t
  {
    if ts == [] then -1
    else if ts[0] == t then 0
    else
      var r := IndexOf(ts[1..], t);
      assert t in ts[1..] ==> t in ts;
      assert t in ts && ts[0] != t ==> t in ts[1..] by {
        assert ts == [ts[0]] + ts[1..];
      }
      if r == -1 then -1 else r + 1
  }

  /** `evt_group`: the gap group of each signal hit, -1 for every other hit. */
  function GroupColumn(rows: seq<Hit>): (gid: seq<int>)
    ensures |gid| == |rows|
    ensures forall k :: 0 <= k < |rows| && !SignalHit(rows[k]) ==> gid[k] == -1
  {
    var ts := BxTimes(SortedSignals(rows));
    var g := SignalGroupIds(rows);
    seq(|rows|, k requires 0 <= k < |rows| =>
      if !SignalHit(rows[k]) then -1
      else var j := IndexOf(ts, BxTime(rows[k])); if j == -1 then -1 else g[j])
  }

  /** The group of a signal hit is the group id at the first sorted position
      of its count. */
  lemma GroupOfSignalHit(rows: seq<Hit>, k: nat)
    requires k < |rows| && SignalHit(rows[k])
    ensures var ts := BxTimes(SortedSignals(rows)); var j := IndexOf(ts, BxTime(rows[k]));
      0 <= j < |ts| && GroupColumn(rows)[k] == SignalGroupIds(rows)[j]
  {
    InSorted(rows, k);
  }

  /** Every signal hit is in one of the groups 0 .. NGroups - 1. */
  lemma SignalHitsAreGrouped(rows: seq<Hit>, k: nat)
    requires k < |rows| && SignalHit(rows[k])
    ensures 0 <= GroupColumn(rows)[k] < NGroups(rows)
  {
    var ts := BxTimes(SortedSignals(rows));
    GroupOfSignalHit(rows, k);
    var j := IndexOf(ts, BxTime(rows[k]));
    Config.Durations();
    GroupIdsMonotone(ts, EVENT_TIME_GAP, j, |ts| - 1);
  }

  /** Group numbers follow the bunch-crossing order of the signal hits. */
  lemma GroupsFollowBxOrder(rows: seq<Hit>, k: nat, l: nat)
    requires k < |rows| && l < |rows| && SignalHit(rows[k]) && SignalHit(rows[l])
    requires BxTime(rows[k]) <= BxTime(rows[l])
    ensures GroupColumn(rows)[k] <= GroupColumn(rows)[l]
  {
    var ts := BxTimes(SortedSignals(rows));
    GroupOfSignalHit(rows, k);
    GroupOfSignalHit(rows, l);
    var jk := IndexOf(ts, BxTime(rows[k]));
    var jl := IndexOf(ts, BxTime(rows[l]));
    Config.Durations();
    GroupIdsMonotone(ts, EVENT_TIME_GAP, jk, jl);
  }

  /** A signal hit's count occurs among the sorted counts. */
  lemma InSorted(rows: seq<Hit>, k: nat)
    requires k < |rows| && SignalHit(rows[k])
    ensures BxTime(rows[k]) in BxTimes(SortedSignals(rows))
  {
    var s := SortedSignals(rows);
    assert rows[k] in Filter(rows, SignalHit);
    assert rows[k] in multiset(s);
    var i :| 0 <= i < |s| && s[i] == rows[k];
    assert BxTimes(s)[i] == BxTime(rows[k]);
  }

  /** The hits of group `grp` among the first n rows, in row order. */
  function GroupRows(rows: seq<Hit>, gid: seq<int>, grp: int, n: nat): (df: seq<Hit>)
    requires |gid| == |rows| && n <= |rows|
    ensures forall h :: h in df <==> exists k :: 0 <= k < n && gid[k] == grp && rows[k] == h
  {
    if n == 0 then []
    else
      var df := GroupRows(rows, gid, grp, n - 1);
      if gid[n - 1] == grp then df + [rows[n - 1]] else df
  }

  /** The summaries of the signal groups, in ascending group order. */
  function Summaries(rows: seq<Hit>): (sums: seq<Summary>)
    ensures |sums| == NGroups(rows)
  {
    var gid := GroupColumn(rows);
    seq(NGroups(rows), grp requires 0 <= grp < NGroups(rows) => Summarize(GroupRows(rows, gid, grp, |rows|)))
  }

  // ------------------------------------------------------ hits of the events

  /** `allhits.index[window | (allhits['evt_group'] == grp)]` among the first n
      rows: the rows in the open window around t0 or in the group, ascending. */
  function Members(rows: seq<Hit>, gid: seq<int>, grp: int, t0: real, n: nat): (m: seq<nat>)
    requires |gid| == |rows| && n <= |rows|
    ensures forall i :: 0 <= i < |m| ==> m[i] < n && (InOpenWindow(rows[m[i]].timeAbs, t0) || gid[m[i]] == grp)
    ensures forall k :: 0 <= k < n && (InOpenWindow(rows[k].timeAbs, t0) || gid[k] == grp) ==> k in m
    ensures forall i, j :: 0 <= i < j < |m| ==> m[i] < m[j]
  {
    if n == 0 then []
    else
      var m := Members(rows, gid, grp, t0, n - 1);
      if InOpenWindow(rows[n - 1].timeAbs, t0) || gid[n - 1] == grp then m + [n - 1] else m
  }

  /** One buffered assignment: row, EVENT_NR, TIME0. */
  datatype Assignment = Assignment(row: nat, eventNr: int, time0: real)

  function Assign(m: seq<nat>, id: int, t0: real): (a: seq<Assignment>)
    ensures |a| == |m|
    ensures forall i :: 0 <= i < |m| ==> a[i] == Assignment(m[i], id, t0)
  {
    seq(|m|, i requires 0 <= i < |m| => Assignment(m[i], id, t0))
  }

  /** The seed of the buffer, `allhits.loc[:1, ['EVENT_NR', 'TIME0']]`: the
      leading `seeded` rows (those whose index label is 0 or 1, so at most
      two) with the EVENT_NR and TIME0 they hold on entry. */
  function Seed(rows: seq<Hit>, seeded: nat): (a: seq<Assignment>)
    requires seeded <= |rows|
    ensures |a| == seeded
    ensures forall i :: 0 <= i < seeded ==> a[i] == Assignment(i, rows[i].eventNr, rows[i].time0)
  {
    seq(seeded, i requires 0 <= i < seeded => Assignment(i, rows[i].eventNr, rows[i].time0))
  }

  /** What the groups add to the buffer `hits` after the first n groups: for
      each accepted group, its members with its id and t0. */
  function BufferOf(rows: seq<Hit>, gid: seq<int>, sums: seq<Summary>, events: seq<int>, n: nat): seq<Assignment>
    requires |gid| == |rows| && n <= |sums|
  {
    if n == 0 then []
    else
      var o := OutcomeAt(sums, events, n - 1);
      BufferOf(rows, gid, sums, events, n - 1)
        + if o.Accepted? then Assign(Members(rows, gid, n - 1, o.t0, |rows|), o.id, o.t0) else []
  }

  /** Every buffered assignment comes from an accepted group, carries that
      group's id and t0, and names a row in the group or in its open window. */
  lemma {:induction false} BufferSound(rows: seq<Hit>, gid: seq<int>, sums: seq<Summary>, events: seq<int>, n: nat, a: Assignment)
    requires |gid| == |rows| && n <= |sums|
    requires a in BufferOf(rows, gid, sums, events, n)
    ensures exists grp :: (0 <= grp < n && OutcomeAt(sums, events, grp).Accepted?
                           && a.eventNr == OutcomeAt(sums, events, grp).id && a.time0 == OutcomeAt(sums, events, grp).t0
                           && a.row < |rows| && (InOpenWindow(rows[a.row].timeAbs, a.time0) || gid[a.row] == grp))
  {
    var o := OutcomeAt(sums, events, n - 1);
    var prev := BufferOf(rows, gid, sums, events, n - 1);
    if a in prev {
      BufferSound(rows, gid, sums, events, n - 1, a);
    } else {
      var m := Members(rows, gid, n - 1, o.t0, |rows|);
      var i :| 0 <= i < |m| && Assign(m, o.id, o.t0)[i] == a;
      assert OutcomeAt(sums, events, n - 1).Accepted?;
    }
  }

  /** A member of the window or group of an accepted group is among the
      assignments the group itself adds. */
  lemma MemberAssigned(rows: seq<Hit>, gid: seq<int>, grp: nat, o: Outcome, k: nat)
    requires |gid| == |rows| && k < |rows| && o.Accepted?
    requires InOpenWindow(rows[k].timeAbs, o.t0) || gid[k] == grp
    ensures Assignment(k, o.id, o.t0) in Assign(Members(rows, gid, grp, o.t0, |rows|), o.id, o.t0)
  {
    var m := Members(rows, gid, grp, o.t0, |rows|);
    var i :| 0 <= i < |m| && m[i] == k;
    assert Assign(m, o.id, o.t0)[i] == Assignment(k, o.id, o.t0);
  }

  /** The buffer only grows: what the first n groups add stays in front of
      what later groups add. */
  lemma {:induction false} BufferPrefix(rows: seq<Hit>, gid: seq<int>, sums: seq<Summary>, events: seq<int>, n: nat, m: nat)
    requires |gid| == |rows| && n <= m <= |sums|
    ensures BufferOf(rows, gid, sums, events, n) <= BufferOf(rows, gid, sums, events, m)
  {
    if n < m {
      BufferPrefix(rows, gid, sums, events, n, m - 1);
    }
  }

  /** Every row in the open window of an accepted group, or in the group
      itself, is buffered with the group's id and t0. */
  lemma BufferComplete(rows: seq<Hit>, gid: seq<int>, sums: seq<Summary>, events: seq<int>, n: nat, grp: nat, k: nat)
    requires |gid| == |rows| && grp < n <= |sums| && k < |rows|
    requires OutcomeAt(sums, events, grp).Accepted?
    requires InOpenWindow(rows[k].timeAbs, OutcomeAt(sums, events, grp).t0) || gid[k] == grp
    ensures Assignment(k, OutcomeAt(sums, events, grp).id, OutcomeAt(sums, events, grp).t0)
      in BufferOf(rows, gid, sums, events, n)
  {
    var o := OutcomeAt(sums, events, grp);
    var before := BufferOf(rows, gid, sums, events, grp);
    var own := Assign(Members(rows, gid, grp, o.t0, |rows|), o.id, o.t0);
    MemberAssigned(rows, gid, grp, o, k);
    assert BufferOf(rows, gid, sums, events, grp + 1) == before + own;
    BufferPrefix(rows, gid, sums, events, grp + 1, n);
  }

  // ---------------------------------------------------------- the event table

  /** A fresh row of the event table: no event, TIME0 and TRG_BITS -1, the
      two time differences -1e9. */
  const EMPTY_ROW: EventRow := EventRow(-1, -1.0, -1, -1000000000.0, -1000000000.0)

  /** The event-table row a group leaves behind. */
  function RowOf(o: Outcome): (r: EventRow)
    requires o.id >= 0
    ensures r.eventNr == -1 <==> o.Excluded? || o.BackwardJump?
    ensures r.eventNr != -1 ==> r.eventNr == o.id
  {
    match o
    case NoTrigger(id, bits) => EMPTY_ROW.(eventNr := id, trgBits := bits)
    case Accepted(id, t0, bits, d20, d21, _) => EventRow(id, t0, bits, d20, d21)
    case _ => EMPTY_ROW
  }

  /** The table rows of the first n groups. */
  function TableOf(sums: seq<Summary>, events: seq<int>, n: nat): (t: seq<EventRow>)
    requires n <= |sums|
    ensures |t| == n
  {
    seq(n, grp requires 0 <= grp < n => RowOf(OutcomeAt(sums, events, grp)))
  }

  /** `df_events.drop(-1)`: the rows that received an event number, in order. */
  function DropUnnumbered(t: seq<EventRow>): (r: seq<EventRow>)
    ensures forall i :: 0 <= i < |r| ==> r[i].eventNr != -1 && r[i] in t
    ensures forall x :: x in t && x.eventNr != -1 ==> x in r
  {
    if t == [] then []
    else
      assert t == [t[0]] + t[1..];
      var rest := DropUnnumbered(t[1..]);
      if t[0].eventNr == -1 then rest else [t[0]] + rest
  }

  /** The ids whose hits a forward jump invalidated among the first n groups:
      the last accepted id before each forward jump. */
  function JumpLosers(sums: seq<Summary>, events: seq<int>, n: nat): (ids: set<int>)
    requires n <= |sums|
  {
    if n == 0 then {}
    else
      var o := OutcomeAt(sums, events, n - 1);
      JumpLosers(sums, events, n - 1) + if o.Accepted? && o.forwardJump then {LastBefore(sums, events, n - 1)} else {}
  }

  /** A forward jump only ever invalidates positive ids; so while every hit
      still has EVENT_NR -1, as it does during this loop, the invalidation
      changes nothing. */
  lemma {:induction false} JumpLosersPositive(sums: seq<Summary>, events: seq<int>, n: nat)
    requires n <= |sums|
    ensures forall x :: x in JumpLosers(sums, events, n) ==> x > 0
  {
    if n > 0 {
      JumpLosersPositive(sums, events, n - 1);
    }
  }

  /** calc_event_numbers: groups the signal hits, then walks the groups in
      order, carrying the last accepted id; returns the event table (rows of
      skipped groups dropped) and the buffer of (row, EVENT_NR, TIME0)
      assignments (the seed rows first). A forward jump resets EVENT_NR of the hits of the previous
      id in the hit table; nothing else in the table changes, and nothing at
      all while every hit still has EVENT_NR -1. */
  method CalcEventNumbers(allhits: HitTable, events: seq<int>, seeded: nat)
    returns (eventRows: seq<EventRow>, buffer: seq<Assignment>)
    requires seeded <= 2 && seeded <= |allhits.rows|
    modifies allhits
    ensures var rows := old(allhits.rows); var sums := Summaries(rows);
      && eventRows == DropUnnumbered(TableOf(sums, events, |sums|))
      && buffer == Seed(rows, seeded) + BufferOf(rows, GroupColumn(rows), sums, events, |sums|)
    ensures |allhits.rows| == |old(allhits.rows)|
    ensures var losers := JumpLosers(Summaries(old(allhits.rows)), events, NGroups(old(allhits.rows)));
      forall k :: 0 <= k < |allhits.rows| ==>
        allhits.rows[k] == (if old(allhits.rows)[k].eventNr in losers then old(allhits.rows)[k].(eventNr := -1)
                            else old(allhits.rows)[k])
    ensures (forall k :: 0 <= k < |old(allhits.rows)| ==> old(allhits.rows)[k].eventNr == -1) ==>
      allhits.rows == old(allhits.rows)
  {
    var rows := allhits.rows;
    var gid := GroupColumn(rows);
    var sums := Summaries(rows);
    var walked;
    eventRows, walked := WalkGroups(allhits, rows, gid, sums, events);
    buffer := Seed(rows, seeded) + walked;
  }

  /** The hit table `cur` is `rows` with EVENT_NR reset to -1 on the hits
      whose id is among `losers`. */
  predicate Marked(cur: seq<Hit>, rows: seq<Hit>, losers: set<int>)
  {
    && |cur| == |rows|
    && forall k :: 0 <= k < |rows| ==>
         cur[k] == (if rows[k].eventNr in losers then rows[k].(eventNr := -1) else rows[k])
  }

  /** Invalidating one more id (never -1) adds it to the losers. */
  lemma MarkStep(cur: seq<Hit>, rows: seq<Hit>, losers: set<int>, id: int)
    requires Marked(cur, rows, losers) && id != -1
    ensures Marked(Invalidated(cur, id), rows, losers + {id})
  {
  }

  /** What group `grp` adds to the running state of the loop. */
  lemma GroupStep(rows: seq<Hit>, gid: seq<int>, sums: seq<Summary>, events: seq<int>, grp: nat)
    requires |gid| == |rows| && grp < |sums|
    ensures var o, last := OutcomeAt(sums, events, grp), LastBefore(sums, events, grp);
      && o == Decide(sums[grp], events, last)
      && LastBefore(sums, events, grp + 1) == (if o.Accepted? then o.id else last)
      && BufferOf(rows, gid, sums, events, grp + 1) == BufferOf(rows, gid, sums, events, grp)
           + (if o.Accepted? then Assign(Members(rows, gid, grp, o.t0, |rows|), o.id, o.t0) else [])
      && JumpLosers(sums, events, grp + 1) == JumpLosers(sums, events, grp) + (if o.Accepted? && o.forwardJump then {last} else {})
  {
  }

  /** The state of the loop over the groups once the first `grp` are done:
      the last accepted id, the event table filled up to `grp`, the buffer,
      and the hit table with the ids of the forward jumps so far reset. */
  ghost predicate Walked(cur: seq<Hit>, rows: seq<Hit>, gid: seq<int>, sums: seq<Summary>, events: seq<int>,
                         grp: nat, table: seq<EventRow>, buffer: seq<Assignment>, last: int)
    requires |gid| == |rows| && grp <= |sums|
  {
    && last == LastBefore(sums, events, grp)
    && |table| == |sums|
    && (forall i :: 0 <= i < grp ==> table[i] == RowOf(OutcomeAt(sums, events, i)))
    && (forall i :: grp <= i < |sums| ==> table[i] == EMPTY_ROW)
    && buffer == BufferOf(rows, gid, sums, events, grp)
    && Marked(cur, rows, JumpLosers(sums, events, grp))
  }

  /** An excluded group or a backward jump leaves the loop state as it is. */
  lemma WalkedSkip(cur: seq<Hit>, rows: seq<Hit>, gid: seq<int>, sums: seq<Summary>, events: seq<int>,
                   grp: nat, table: seq<EventRow>, buffer: seq<Assignment>, last: int)
    requires |gid| == |rows| && grp < |sums|
    requires Walked(cur, rows, gid, sums, events, grp, table, buffer, last)
    requires OutcomeAt(sums, events, grp).Excluded? || OutcomeAt(sums, events, grp).BackwardJump?
    ensures Walked(cur, rows, gid, sums, events, grp + 1, table, buffer, last)
  {
    GroupStep(rows, gid, sums, events, grp);
  }

  /** A group without the trigger channel only fills its row of the table. */
  lemma WalkedNoTrigger(cur: seq<Hit>, rows: seq<Hit>, gid: seq<int>, sums: seq<Summary>, events: seq<int>,
                        grp: nat, table: seq<EventRow>, buffer: seq<Assignment>, last: int)
    requires |gid| == |rows| && grp < |sums|
    requires Walked(cur, rows, gid, sums, events, grp, table, buffer, last)
    requires OutcomeAt(sums, events, grp).NoTrigger?
    ensures Walked(cur, rows, gid, sums, events, grp + 1, table[grp := RowOf(OutcomeAt(sums, events, grp))], buffer, last)
  {
    GroupStep(rows, gid, sums, events, grp);
  }

  /** An accepted group fills its row, buffers its members, becomes the last
      accepted id and, after a forward jump, resets the previous event. */
  lemma WalkedAccept(cur: seq<Hit>, cur': seq<Hit>, rows: seq<Hit>, gid: seq<int>, sums: seq<Summary>, events: seq<int>,
                     grp: nat, table: seq<EventRow>, buffer: seq<Assignment>, last: int)
    requires |gid| == |rows| && grp < |sums|
    requires Walked(cur, rows, gid, sums, events, grp, table, buffer, last)
    requires OutcomeAt(sums, events, grp).Accepted?
    requires cur' == if OutcomeAt(sums, events, grp).forwardJump then Invalidated(cur, last) else cur
    ensures var o := OutcomeAt(sums, events, grp);
      Walked(cur', rows, gid, sums, events, grp + 1, table[grp := RowOf(o)],
             buffer + Assign(Members(rows, gid, grp, o.t0, |rows|), o.id, o.t0), o.id)
  {
    var o := OutcomeAt(sums, events, grp);
    GroupStep(rows, gid, sums, events, grp);
    MarkedAccept(cur, cur', rows, sums, events, grp, last);
    var table' := table[grp := RowOf(o)];
    assert forall i :: 0 <= i < grp + 1 ==> table'[i] == RowOf(OutcomeAt(sums, events, i));
  }

  /** The hit table after an accepted group: the forward jump, if any, adds
      the previous id to the reset ones. */
  lemma MarkedAccept(cur: seq<Hit>, cur': seq<Hit>, rows: seq<Hit>, sums: seq<Summary>, events: seq<int>, grp: nat, last: int)
    requires grp < |sums| && last == LastBefore(sums, events, grp)
    requires Marked(cur, rows, JumpLosers(sums, events, grp))
    requires OutcomeAt(sums, events, grp).Accepted?
    requires cur' == if OutcomeAt(sums, events, grp).forwardJump then Invalidated(cur, last) else cur
    ensures Marked(cur', rows, JumpLosers(sums, events, grp + 1))
  {
    if OutcomeAt(sums, events, grp).forwardJump {
      MarkStep(cur, rows, JumpLosers(sums, events, grp), last);
    }
  }

  /** One pass of the loop: group `grp` is skipped, recorded without a
      trigger, or accepted (after a possible forward-jump reset). */
  method VisitGroup(allhits: HitTable, rows: seq<Hit>, gid: seq<int>, sums: seq<Summary>, events: seq<int>,
                    grp: nat, table: seq<EventRow>, buffer: seq<Assignment>, last: int)
    returns (table': seq<EventRow>, buffer': seq<Assignment>, last': int)
    requires |gid| == |rows| && grp < |sums|
    requires Walked(allhits.rows, rows, gid, sums, events, grp, table, buffer, last)
    modifies allhits
    ensures Walked(allhits.rows, rows, gid, sums, events, grp + 1, table', buffer', last')
  {
    table', buffer', last' := table, buffer, last;
    var s := sums[grp];
    assert OutcomeAt(sums, events, grp) == Decide(s, events, last);
    if !Listed(s.id, events) {
      // excluded by --events: nothing recorded
      WalkedSkip(allhits.rows, rows, gid, sums, events, grp, table, buffer, last);
    } else if !s.trigger {
      table' := table[grp := EMPTY_ROW.(eventNr := s.id, trgBits := s.measCode)];
      WalkedNoTrigger(allhits.rows, rows, gid, sums, events, grp, table, buffer, last);
    } else if s.id <= last {
      // backward jump: skipped
      WalkedSkip(allhits.rows, rows, gid, sums, events, grp, table, buffer, last);
    } else {
      ghost var cur := allhits.rows;
      if events == [] && last > 0 && s.id - last > 20 {
        allhits.InvalidateEvent(last);
      }
      last' := s.id;
      var t0 := s.triggerTime + TIME_OFFSET;
      table' := table[grp := EventRow(s.id, t0, s.timeCode, s.timeDiff20, s.timeDiff21)];
      buffer' := buffer + Assign(Members(rows, gid, grp, t0, |rows|), s.id, t0);
      WalkedAccept(cur, allhits.rows, rows, gid, sums, events, grp, table, buffer, last);
    }
  }

  /** The loop over the summarised groups. */
  method WalkGroups(allhits: HitTable, rows: seq<Hit>, gid: seq<int>, sums: seq<Summary>, events: seq<int>)
    returns (eventRows: seq<EventRow>, buffer: seq<Assignment>)
    requires allhits.rows == rows && |gid| == |rows|
    modifies allhits
    ensures eventRows == DropUnnumbered(TableOf(sums, events, |sums|))
    ensures buffer == BufferOf(rows, gid, sums, events, |sums|)
    ensures |allhits.rows| == |rows|
    ensures forall k :: 0 <= k < |rows| ==>
      allhits.rows[k] == (if rows[k].eventNr in JumpLosers(sums, events, |sums|) then rows[k].(eventNr := -1) else rows[k])
    ensures (forall k :: 0 <= k < |rows| ==> rows[k].eventNr == -1) ==> allhits.rows == rows
  {
    var table := seq(|sums|, _ => EMPTY_ROW);
    buffer := [];
    var last: int := -1;
    var grp := 0;
    while grp < |sums|
      invariant grp <= |sums|
      invariant Walked(allhits.rows, rows, gid, sums, events, grp, table, buffer, last)
    {
      table, buffer, last := VisitGroup(allhits, rows, gid, sums, events, grp, table, buffer, last);
      grp := grp + 1;
    }
    assert table == TableOf(sums, events, |sums|);
    eventRows := DropUnnumbered(table);
    JumpLosersPositive(sums, events, |sums|);
    if forall k :: 0 <= k < |rows| ==> rows[k].eventNr == -1 {
      assert allhits.rows == rows;
    }
  }
}
