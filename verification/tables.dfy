/** The two tables the analysis updates in place: the hit table (`allhits`) and
    the event table (`df_events`, one row per event). */
module Tables {
  import opened Config
  import opened Hits
  import opened Positions

  /** The open event window of the trigger mode (`between(..., inclusive=False)`). */
  predicate InOpenWindow(t: real, t0: real)
  {
    t0 + TIME_WINDOW_LOW < t < t0 + TIME_WINDOW_HIGH
  }

  /** The closed event window used when an accepted event is re-windowed. */
  predicate InClosedWindow(t: real, t0: real)
  {
    t0 + TIME_WINDOW_LOW <= t <= t0 + TIME_WINDOW_HIGH
  }

  /** The two windows differ only at their two edges. */
  lemma WindowEdges(t: real, t0: real)
    ensures InOpenWindow(t, t0) ==> InClosedWindow(t, t0)
    ensures InClosedWindow(t, t0) && !InOpenWindow(t, t0) <==>
      t == t0 + TIME_WINDOW_LOW || t == t0 + TIME_WINDOW_HIGH
    ensures InOpenWindow(t0, t0)
  {
  }

  /** A row of the event table. */
  datatype EventRow = EventRow(eventNr: int, time0: real, trgBits: int, timeDiff20: real, timeDiff21: real)

  /** analyse: every row with TIME0 > 0 gets TIMENS and its drift positions. */
  function Analysed(rows: seq<Hit>): (r: seq<Hit>)
    ensures |r| == |rows|
  {
    seq(|rows|, k requires 0 <= k < |rows| => if rows[k].time0 > 0.0 then Positioned(rows[k]) else rows[k])
  }

  /** `allhits.loc[allhits['EVENT_NR'] == id, 'EVENT_NR'] = -1`. */
  function Invalidated(rows: seq<Hit>, id: int): (r: seq<Hit>)
    ensures |r| == |rows|
  {
    seq(|rows|, k requires 0 <= k < |rows| => if rows[k].eventNr == id then rows[k].(eventNr := -1) else rows[k])
  }

  /** `allhits.loc[allhits['EVENT_NR'] == event, 'TIME0'] = t0`. */
  function EventTime0Set(rows: seq<Hit>, event: int, t0: real): (r: seq<Hit>)
    ensures |r| == |rows|
  {
    seq(|rows|, k requires 0 <= k < |rows| => if rows[k].eventNr == event then rows[k].(time0 := t0) else rows[k])
  }

  /** The trigger-less commit: the event's hits lose their number, then every
      hit in the closed window around t0 takes the event number and t0. */
  function Rewindowed(rows: seq<Hit>, event: int, t0: real): (r: seq<Hit>)
    ensures |r| == |rows|
  {
    var cleared := Invalidated(rows, event);
    seq(|rows|, k requires 0 <= k < |rows| =>
      if InClosedWindow(cleared[k].timeAbs, t0) then cleared[k].(time0 := t0, eventNr := event) else cleared[k])
  }

  /** Removing the hits of an id no hit carries changes nothing. */
  lemma InvalidateAbsentId(rows: seq<Hit>, id: int)
    requires forall k :: 0 <= k < |rows| ==> rows[k].eventNr != id
    ensures Invalidated(rows, id) == rows
  {
  }

  /** After the trigger-mode commit the event keeps exactly its hits, all with
      TIME0 t0; no other hit changes. */
  lemma EventTime0Effect(rows: seq<Hit>, event: int, t0: real)
    ensures var r := EventTime0Set(rows, event, t0);
      forall k :: 0 <= k < |rows| ==>
        && r[k].eventNr == rows[k].eventNr
        && (rows[k].eventNr == event ==> r[k].time0 == t0 && r[k] == rows[k].(time0 := t0))
        && (rows[k].eventNr != event ==> r[k] == rows[k])
  {
  }

  /** After the trigger-less commit of an event number other than -1, a hit
      belongs to the event exactly when its time lies in the closed window,
      and then has TIME0 t0; a hit of the event outside the window has no
      event any more; every other hit is unchanged. */
  lemma RewindowEffect(rows: seq<Hit>, event: int, t0: real)
    requires event != -1
    ensures var r := Rewindowed(rows, event, t0);
      forall k :: 0 <= k < |rows| ==>
        && r[k].timeAbs == rows[k].timeAbs
        && (r[k].eventNr == event <==> InClosedWindow(rows[k].timeAbs, t0))
        && (InClosedWindow(rows[k].timeAbs, t0) ==> r[k] == rows[k].(time0 := t0, eventNr := event))
        && (!InClosedWindow(rows[k].timeAbs, t0) && rows[k].eventNr == event ==> r[k] == rows[k].(eventNr := -1))
        && (!InClosedWindow(rows[k].timeAbs, t0) && rows[k].eventNr != event ==> r[k] == rows[k])
  {
  }

  /** The rows of the event table whose EVENT_NR is accepted, in order. */
  function KeptRows(rows: seq<EventRow>, accepted: set<int>): (r: seq<EventRow>)
    ensures |r| <= |rows|
    ensures forall i :: 0 <= i < |r| ==> r[i].eventNr in accepted && r[i] in rows
    ensures forall x :: x in rows && x.eventNr in accepted ==> x in r
  {
    if rows == [] then []
    else
      assert rows == [rows[0]] + rows[1..];
      var rest := KeptRows(rows[1..], accepted);
      if rows[0].eventNr in accepted then [rows[0]] + rest else rest
  }

  /** The drop distributes over concatenation, so kept rows stay in table order. */
  lemma {:induction false} KeptRowsAppend(a: seq<EventRow>, b: seq<EventRow>, accepted: set<int>)
    ensures KeptRows(a + b, accepted) == KeptRows(a, accepted) + KeptRows(b, accepted)
  {
    if a == [] {
      assert a + b == b;
    } else {
      assert (a + b)[0] == a[0];
      assert (a + b)[1..] == a[1..] + b;
      KeptRowsAppend(a[1..], b, accepted);
    }
  }

  /** `events.loc[event, 'TIME0'] = t0`: the update EventTime0Set makes on
      the hits, repeated on the rows of the event table (which are keyed by
      EVENT_NR). */
  function RowsTime0Set(rows: seq<EventRow>, event: int, t0: real): (r: seq<EventRow>)
    ensures |r| == |rows|
  {
    seq(|rows|, k requires 0 <= k < |rows| => if rows[k].eventNr == event then rows[k].(time0 := t0) else rows[k])
  }

  class HitTable {
    var rows: seq<Hit>

    constructor (initial: seq<Hit>)
      ensures rows == initial
    {
      rows := initial;
    }

    /** analyse: every row with TIME0 > 0 gets TIMENS and its drift positions;
        the other rows are unchanged. */
    method AssignPositions()
      modifies this
      ensures rows == Analysed(old(rows))
    {
      var k := 0;
      while k < |rows|
        invariant 0 <= k <= |rows| == |old(rows)|
        invariant forall i :: 0 <= i < k ==> rows[i] == Analysed(old(rows))[i]
        invariant forall i :: k <= i < |rows| ==> rows[i] == old(rows)[i]
      {
        if rows[k].time0 > 0.0 {
          rows := rows[k := Positioned(rows[k])];
        }
        k := k + 1;
      }
    }

    /** Forward-jump clean-up: rows whose EVENT_NR is `id` lose their event number. */
    method InvalidateEvent(id: int)
      modifies this
      ensures rows == Invalidated(old(rows), id)
    {
      var k := 0;
      while k < |rows|
        invariant 0 <= k <= |rows| == |old(rows)|
        invariant forall i :: 0 <= i < k ==> rows[i] == Invalidated(old(rows), id)[i]
        invariant forall i :: k <= i < |rows| ==> rows[i] == old(rows)[i]
      {
        if rows[k].eventNr == id {
          rows := rows[k := rows[k].(eventNr := -1)];
        }
        k := k + 1;
      }
    }

    /** Trigger-mode commit: every hit of `event` takes the meantimer t0. */
    method SetEventTime0(event: int, t0: real)
      modifies this
      ensures rows == EventTime0Set(old(rows), event, t0)
    {
      var k := 0;
      while k < |rows|
        invariant 0 <= k <= |rows| == |old(rows)|
        invariant forall i :: 0 <= i < k ==> rows[i] == EventTime0Set(old(rows), event, t0)[i]
        invariant forall i :: k <= i < |rows| ==> rows[i] == old(rows)[i]
      {
        if rows[k].eventNr == event {
          rows := rows[k := rows[k].(time0 := t0)];
        }
        k := k + 1;
      }
    }

    /** Trigger-less commit: the event's old hits lose their event number, then
        every hit in the closed window around t0, whatever its event, takes the
        event number and t0. */
    method RewindowEvent(event: int, t0: real)
      modifies this
      ensures rows == Rewindowed(old(rows), event, t0)
    {
      InvalidateEvent(event);
      ghost var mid := rows;
      var k := 0;
      while k < |rows|
        invariant 0 <= k <= |rows| == |mid|
        invariant forall i :: 0 <= i < k ==>
          rows[i] == if InClosedWindow(mid[i].timeAbs, t0) then mid[i].(time0 := t0, eventNr := event) else mid[i]
        invariant forall i :: k <= i < |rows| ==> rows[i] == mid[i]
      {
        if InClosedWindow(rows[k].timeAbs, t0) {
          rows := rows[k := rows[k].(time0 := t0, eventNr := event)];
        }
        k := k + 1;
      }
    }

    /** Final drop: only the hits of accepted events remain, in their order. */
    method KeepAcceptedEvents(accepted: set<int>)
      modifies this
      ensures rows == Filter(old(rows), (h: Hit) => h.eventNr in accepted)
    {
      rows := Filter(rows, (h: Hit) => h.eventNr in accepted);
    }
  }

  class EventTable {
    var rows: seq<EventRow>

    constructor (initial: seq<EventRow>)
      ensures rows == initial
    {
      rows := initial;
    }

    /** `events.loc[event, 'TIME0'] = t0`: every row indexed by `event` takes t0. */
    method SetTime0(event: int, t0: real)
      modifies this
      ensures rows == RowsTime0Set(old(rows), event, t0)
    {
      var k := 0;
      while k < |rows|
        invariant 0 <= k <= |rows| == |old(rows)|
        invariant forall i :: 0 <= i < k ==> rows[i] == RowsTime0Set(old(rows), event, t0)[i]
        invariant forall i :: k <= i < |rows| ==> rows[i] == old(rows)[i]
      {
        if rows[k].eventNr == event {
          rows := rows[k := rows[k].(time0 := t0)];
        }
        k := k + 1;
      }
    }

    /** Drops the rows of events that were not accepted. */
    method KeepAccepted(accepted: set<int>)
      modifies this
      ensures rows == KeptRows(old(rows), accepted)
    {
      var kept: seq<EventRow> := [];
      var k := |rows|;
      while k > 0
        invariant 0 <= k <= |rows|
        invariant rows == old(rows)
        invariant kept == KeptRows(rows[k..], accepted)
      {
        k := k - 1;
        assert rows[k..] == [rows[k]] + rows[k + 1..];
        if rows[k].eventNr in accepted {
          kept := [rows[k]] + kept;
        }
      }
      rows := kept;
    }
  }
}
