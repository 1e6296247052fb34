/** Event building without a trigger (process_hits_v2.py, read_data): all hits
    sorted by time are cut where two consecutive hits are more than 1.1 x TDRIFT
    apart, and a group becomes an event only with enough chambers, enough
    distinct channels and not too many hits. */
module TriggerlessEvents {
  import opened Config
  import opened Common
  import opened Hits
  import opened Segmentation

  /** The TIME_ABS column. */
  function Times(rows: seq<Hit>): (ts: seq<real>)
    ensures |ts| == |rows|
    ensures forall i :: 0 <= i < |rows| ==> ts[i] == rows[i].timeAbs
  {
    seq(|rows|, i requires 0 <= i < |rows| => rows[i].timeAbs)
  }

  /** Number of hits in group `e` (`size()`). */
  function GroupSize(g: seq<int>, e: int): nat
  {
    |set i | 0 <= i < |g| && g[i] == e|
  }

  /** Number of distinct chambers in group `e` (`SL.nunique()`, -1 included). */
  function GroupChambers(rows: seq<Hit>, g: seq<int>, e: int): nat
    requires |rows| == |g|
  {
    |set i | 0 <= i < |g| && g[i] == e :: rows[i].sl|
  }

  /** Number of distinct raw channels in group `e` (`TDC_CHANNEL.nunique()`). */
  function GroupChannels(rows: seq<Hit>, g: seq<int>, e: int): nat
    requires |rows| == |g|
  {
    |set i | 0 <= i < |g| && g[i] == e :: rows[i].channel|
  }

  /** The basic selection of an event candidate. */
  predicate Selected(rows: seq<Hit>, g: seq<int>, e: int, chambers: int, maxHits: int)
    requires |rows| == |g|
  {
    && GroupChambers(rows, g, e) >= chambers
    && GroupChannels(rows, g, e) >= MEANTIMER_CLUSTER_SIZE * 3
    && GroupSize(g, e) <= maxHits
  }

  /** The hit table after the trigger-less segmentation and before the drop of
      unassigned hits: sorted by time, EVENT_NR the gap-group id of a selected
      group and -1 elsewhere (see LabelIsSelectedGroup). `chambers` and `maxHits` are the
      command-line minimum of chambers and maximum of hits per event. */
  function LabelEvents(rows: seq<Hit>, chambers: int, maxHits: int): (r: seq<Hit>)
    ensures |r| == |rows|
  {
    var s := SortBy(rows, TimeAbs);
    var g := GroupIds(Times(s), EVENT_WIDTH_MAX);
    seq(|s|, i requires 0 <= i < |s| =>
      s[i].(eventNr := if Selected(s, g, g[i], chambers, maxHits) then g[i] else -1))
  }

  /** Row k of the labelled table is the k-th hit in time order, with only its
      event number changed. */
  lemma LabelKeepsHit(rows: seq<Hit>, chambers: int, maxHits: int, k: nat)
    requires k < |rows|
    ensures var r := LabelEvents(rows, chambers, maxHits);
      r[k] == SortBy(rows, TimeAbs)[k].(eventNr := r[k].eventNr)
    ensures LabelEvents(rows, chambers, maxHits)[k].timeAbs == Times(SortBy(rows, TimeAbs))[k]
  {
  }

  /** The event number of row k is its gap-group id when that group passes the
      selection, and -1 otherwise. */
  lemma LabelIsSelectedGroup(rows: seq<Hit>, chambers: int, maxHits: int, k: nat)
    requires k < |rows|
    ensures var r := LabelEvents(rows, chambers, maxHits);
      r[k].eventNr == -1 || r[k].eventNr == GroupIds(Times(SortBy(rows, TimeAbs)), EVENT_WIDTH_MAX)[k]
    ensures var r := LabelEvents(rows, chambers, maxHits);
      var s := SortBy(rows, TimeAbs);
      var g := GroupIds(Times(s), EVENT_WIDTH_MAX);
      r[k].eventNr >= 0 <==> Selected(s, g, g[k], chambers, maxHits)
  {
    var s := SortBy(rows, TimeAbs);
    var g := GroupIds(Times(s), EVENT_WIDTH_MAX);
    DriftCoversHalfCell();
    GroupIdsMonotone(Times(s), EVENT_WIDTH_MAX, 0, k);
    assert LabelEvents(rows, chambers, maxHits)[k].eventNr
      == if Selected(s, g, g[k], chambers, maxHits) then g[k] else -1;
  }

  /** The labelled table is in time order. */
  lemma LabelSorted(rows: seq<Hit>, chambers: int, maxHits: int)
    ensures SortedBy(LabelEvents(rows, chambers, maxHits), TimeAbs)
  {
    var r := LabelEvents(rows, chambers, maxHits);
    var s := SortBy(rows, TimeAbs);
    forall i, j | 0 <= i < j < |r|
      ensures TimeAbs(r[i]) <= TimeAbs(r[j])
    {
      LabelKeepsHit(rows, chambers, maxHits, i);
      LabelKeepsHit(rows, chambers, maxHits, j);
      assert TimeAbs(s[i]) <= TimeAbs(s[j]);
    }
  }

  /** Along the labelled table event numbers never decrease, and the event
      number of row i is at most i. */
  lemma EventNumbersIncrease(rows: seq<Hit>, chambers: int, maxHits: int, i: nat, j: nat)
    requires i <= j < |rows|
    ensures var r := LabelEvents(rows, chambers, maxHits);
      && (r[i].eventNr >= 0 && r[j].eventNr >= 0 ==> r[i].eventNr <= r[j].eventNr)
      && r[i].eventNr <= i
  {
    var ts := Times(SortBy(rows, TimeAbs));
    DriftCoversHalfCell();
    GroupIdsMonotone(ts, EVENT_WIDTH_MAX, i, j);
    GroupIdsMonotone(ts, EVENT_WIDTH_MAX, 0, i);
    LabelIsSelectedGroup(rows, chambers, maxHits, i);
    LabelIsSelectedGroup(rows, chambers, maxHits, j);
  }

  /** The hits of one event form a time chain: no gap between consecutive rows
      from its first to its last hit exceeds 1.1 x TDRIFT. */
  lemma EventsAreTimeChains(rows: seq<Hit>, chambers: int, maxHits: int, i: nat, j: nat)
    requires i <= j < |rows|
    requires LabelEvents(rows, chambers, maxHits)[i].eventNr >= 0
    requires LabelEvents(rows, chambers, maxHits)[i].eventNr == LabelEvents(rows, chambers, maxHits)[j].eventNr
    ensures var r := LabelEvents(rows, chambers, maxHits);
      forall k :: i < k <= j ==> r[k].timeAbs - r[k - 1].timeAbs <= EVENT_WIDTH_MAX
  {
    var r := LabelEvents(rows, chambers, maxHits);
    var ts := Times(SortBy(rows, TimeAbs));
    var g := GroupIds(ts, EVENT_WIDTH_MAX);
    DriftCoversHalfCell();
    LabelIsSelectedGroup(rows, chambers, maxHits, i);
    LabelIsSelectedGroup(rows, chambers, maxHits, j);
    assert g[i] == g[j];
    SameGroupIffNoBreak(ts, EVENT_WIDTH_MAX, i, j);
    forall k | i < k <= j
      ensures r[k].timeAbs - r[k - 1].timeAbs <= EVENT_WIDTH_MAX
    {
      LabelKeepsHit(rows, chambers, maxHits, k);
      LabelKeepsHit(rows, chambers, maxHits, k - 1);
    }
  }
}
