/** The offline reconstruction of a whole event file (process_hits_v2.py,
    local_reconstruction_all, total_reconstruction_all and reconstruct_all):
    every line of the file is parsed into the points of the four chambers and
    put through the local gate; an accepted line adds four rows, each led by
    the line's number (1 for the first line); the global stage then counts
    the events of a range of row blocks that pass the global gate. */
module AllReconstruction {
  import opened Common
  import opened LocalFit
  import opened EventLines
  import opened Reconstruction

  /** Every line holds whole hits after its event number and hit count. */
  predicate WellFormed(lines: seq<seq<real>>)
  {
    forall i :: 0 <= i < |lines| ==> |HitFields(lines[i])| % 5 == 0
  }

  /** The local fits of a line, if it passes the local gate. */
  function LineFits(line: seq<real>, fit: Fitter): (r: Option<seq<LocalFitResult>>)
    requires |HitFields(line)| % 5 == 0
    ensures r.Some? ==> |r.value| == 4
  {
    LocalFits(Parsed(HitFields(line)), fit)
  }

  /** The verdicts of the local gate on the lines, in file order. */
  function LinesFits(lines: seq<seq<real>>, fit: Fitter): (outs: seq<Option<seq<LocalFitResult>>>)
    requires WellFormed(lines)
    ensures |outs| == |lines|
  {
    if lines == [] then []
    else LinesFits(lines[..|lines| - 1], fit) + [LineFits(lines[|lines| - 1], fit)]
  }

  /** Local verdicts whose accepted lines hold four fits, each with as many
      heights as positions. */
  predicate Gated(outs: seq<Option<seq<LocalFitResult>>>)
  {
    forall i :: 0 <= i < |outs| && outs[i].Some? ==> EvenFits(outs[i].value)
  }

  /** The rows of the lines with the verdicts `outs`: an accepted line, the
      n-th counted from 1, adds its four rows led by n; a rejected line adds
      none. */
  function TaggedRows(outs: seq<Option<seq<LocalFitResult>>>): seq<seq<real>>
    requires Gated(outs)
  {
    if outs == [] then []
    else
      var n := |outs|;
      TaggedRows(outs[..n - 1]) +
        match outs[n - 1]
        case None => []
        case Some(fs) => TaggedRecords(n as real, fs)
  }

  /** The same rows without their event numbers, as the trigger-mode
      reconstruction lays them out. */
  function PlainRows(outs: seq<Option<seq<LocalFitResult>>>): seq<seq<real>>
    requires Gated(outs)
  {
    if outs == [] then []
    else
      var n := |outs|;
      PlainRows(outs[..n - 1]) +
        match outs[n - 1]
        case None => []
        case Some(fs) => Records(fs)
  }

  /** The number of lines that pass the local gate. */
  function AcceptedLines(outs: seq<Option<seq<LocalFitResult>>>): (n: nat)
    ensures n <= |outs|
  {
    if outs == [] then 0 else AcceptedLines(outs[..|outs| - 1]) + (if outs[|outs| - 1].Some? then 1 else 0)
  }

  /** Every line is accepted exactly when the accepted count is the number of lines. */
  lemma {:induction false} AllLinesAccepted(outs: seq<Option<seq<LocalFitResult>>>)
    ensures AcceptedLines(outs) == |outs| <==> forall i :: 0 <= i < |outs| ==> outs[i].Some?
  {
    if outs != [] {
      var init := outs[..|outs| - 1];
      AllLinesAccepted(init);
      assert forall i :: 0 <= i < |init| ==> init[i] == outs[i];
    }
  }

  /** local_reconstruction_all: every line is parsed and gated; the rows of
      the accepted lines are appended in file order, and the accepted count
      is the number of lines less the rejected ones. The verdicts of the
      local gate are returned alongside, as a ghost record. */
  method LocalReconstructionAll(lines: seq<seq<real>>, fit: Fitter)
    returns (rows: seq<seq<real>>, accepted: int, ghost outs: seq<Option<seq<LocalFitResult>>>)
    requires WellFormed(lines)
    ensures outs == LinesFits(lines, fit) && Gated(outs)
    ensures rows == TaggedRows(LinesFits(lines, fit))
    ensures accepted == AcceptedLines(LinesFits(lines, fit)) <= |lines|
  {
    rows, outs := [], [];
    var rejCount := 0;
    var events := 0;
    for i := 0 to |lines|
      invariant events == i == |outs|
      invariant outs == LinesFits(lines[..i], fit) && Gated(outs)
      invariant rows == TaggedRows(outs)
      invariant events - rejCount == AcceptedLines(outs)
    {
      events := events + 1;
      var fits := ReadLine(lines, i, fit, outs);
      if fits.None? {
        rejCount := rejCount + 1;
      } else {
        rows := rows + TaggedRecords(events as real, fits.value);
      }
      assert (outs + [fits])[..i] == outs;
      outs := outs + [fits];
    }
    assert lines[..|lines|] == lines;
    accepted := events - rejCount;
  }

  /** One line of the file through the parser and the local gate: its
      verdict extends those of the lines before it. */
  method ReadLine(lines: seq<seq<real>>, i: nat, fit: Fitter, ghost outs: seq<Option<seq<LocalFitResult>>>)
    returns (fits: Option<seq<LocalFitResult>>)
    requires WellFormed(lines) && i < |lines|
    requires outs == LinesFits(lines[..i], fit) && Gated(outs)
    ensures outs + [fits] == LinesFits(lines[..i + 1], fit) && Gated(outs + [fits])
    ensures fits.Some? ==> EvenFits(fits.value)
  {
    var pts := ParseLine(HitFields(lines[i]));
    fits := LocalGate(pts, fit);
    LocalFitsEven(pts, fit);
    assert lines[..i + 1][..i] == lines[..i];
    GrowGated(outs, fits);
  }

  /** An accepted line with four even fits keeps the verdicts gated. */
  lemma GrowGated(outs: seq<Option<seq<LocalFitResult>>>, fits: Option<seq<LocalFitResult>>)
    requires Gated(outs) && (fits.Some? ==> EvenFits(fits.value))
    ensures Gated(outs + [fits])
  {
    var grown := outs + [fits];
    forall i | 0 <= i < |grown| && grown[i].Some? ensures EvenFits(grown[i].value) {
      if i < |outs| {
        assert grown[i] == outs[i];
      }
    }
  }

  /** Every accepted line adds one block of four rows. */
  lemma {:induction false} RowsBlocks(outs: seq<Option<seq<LocalFitResult>>>)
    requires Gated(outs)
    ensures |TaggedRows(outs)| == |PlainRows(outs)| == 4 * AcceptedLines(outs)
  {
    if outs != [] {
      RowsBlocks(outs[..|outs| - 1]);
    }
  }

  /** Rows of even length. */
  predicate EvenRows(rows: seq<seq<real>>)
  {
    forall i :: 0 <= i < |rows| ==> |rows[i]| % 2 == 0
  }

  /** Tagging commutes with appending blocks of rows. */
  lemma TaggedAppend(t: seq<seq<real>>, p: seq<seq<real>>, ts: seq<seq<real>>, ps: seq<seq<real>>)
    requires TaggedOf(t, p) && TaggedOf(ts, ps) && EvenRows(p) && EvenRows(ps)
    ensures TaggedOf(t + ts, p + ps) && EvenRows(p + ps)
  {
    forall i | 0 <= i < |t + ts|
      ensures |(t + ts)[i]| > 0 && (t + ts)[i] == [(t + ts)[i][0]] + (p + ps)[i]
      ensures |(p + ps)[i]| % 2 == 0
    {
      if i >= |t| {
        assert (t + ts)[i] == ts[i - |t|] && (p + ps)[i] == ps[i - |t|];
      }
    }
  }

  /** The tagged rows are the plain rows, each led by its event number, and
      the plain rows all have even length. */
  lemma {:induction false} RowsTagged(outs: seq<Option<seq<LocalFitResult>>>)
    requires Gated(outs)
    ensures TaggedOf(TaggedRows(outs), PlainRows(outs)) && EvenRows(PlainRows(outs))
  {
    if outs != [] {
      var n := |outs|;
      RowsTagged(outs[..n - 1]);
      var t, p := TaggedRows(outs[..n - 1]), PlainRows(outs[..n - 1]);
      match outs[n - 1]
      case None =>
        assert TaggedRows(outs) == t && PlainRows(outs) == p;
      case Some(fs) =>
        RecordsTagged(n as real, fs);
        assert TaggedRows(outs) == t + TaggedRecords(n as real, fs);
        assert PlainRows(outs) == p + Records(fs);
        TaggedAppend(t, p, TaggedRecords(n as real, fs), Records(fs));
    }
  }

  /** Every row starts with an event number between 1 and `top`; the four
      rows of a block share it, and it strictly increases from block to
      block. */
  predicate Numbered(rows: seq<seq<real>>, top: real)
  {
    && (forall i :: 0 <= i < |rows| ==> |rows[i]| > 0 && 1.0 <= rows[i][0] <= top)
    && (forall i, j :: 0 <= i < j < |rows| ==>
          && (i / 4 == j / 4 ==> rows[i][0] == rows[j][0])
          && (i / 4 < j / 4 ==> rows[i][0] < rows[j][0]))
  }

  /** A block of four rows numbered above every earlier row keeps the
      numbering. */
  lemma NumberedAppend(t: seq<seq<real>>, ts: seq<seq<real>>, n: real)
    requires Numbered(t, n - 1.0) && |t| % 4 == 0 && 1.0 <= n
    requires |ts| == 4 && forall c :: 0 <= c < 4 ==> |ts[c]| > 0 && ts[c][0] == n
    ensures Numbered(t + ts, n)
  {
    var rows := t + ts;
    var b := |t| / 4;
    forall i | |t| <= i < |rows| ensures rows[i] == ts[i - |t|] && i / 4 == b {
    }
    forall i, j | 0 <= i < j < |rows|
      ensures i / 4 == j / 4 ==> rows[i][0] == rows[j][0]
      ensures i / 4 < j / 4 ==> rows[i][0] < rows[j][0]
    {
      if j < |t| {
        assert rows[i] == t[i] && rows[j] == t[j];
      } else if i < |t| {
        assert rows[i] == t[i];
        assert i / 4 < b;
      }
    }
  }

  /** A numbering below one bound is a numbering below a larger one. */
  lemma NumberedWeaken(rows: seq<seq<real>>, top: real, top': real)
    requires Numbered(rows, top) && top <= top'
    ensures Numbered(rows, top')
  {
  }

  /** Every row starts with the number of its line, between 1 and the number
      of lines; the four rows of a block share it, and it strictly increases
      from block to block: each accepted line is one block, in file order. */
  lemma {:induction false} RowsTags(outs: seq<Option<seq<LocalFitResult>>>)
    requires Gated(outs)
    ensures Numbered(TaggedRows(outs), |outs| as real)
  {
    if outs != [] {
      var n := |outs|;
      RowsTags(outs[..n - 1]);
      RowsBlocks(outs[..n - 1]);
      var t := TaggedRows(outs[..n - 1]);
      match outs[n - 1]
      case None =>
        assert TaggedRows(outs) == t;
        NumberedWeaken(t, (n - 1) as real, n as real);
      case Some(fs) =>
        var ts := TaggedRecords(n as real, fs);
        assert TaggedRows(outs) == t + ts;
        NumberedAppend(t, ts, n as real);
    }
  }

  /** total_reconstruction_all: the rows are read four at a time, skipping
      their event numbers, and the events whose block index lies in
      [start, end) and that pass the global gate are counted. */
  method TotalReconstructionAll(rows: seq<seq<real>>, start: int, end: int, fit: Fitter, res2d: Residual, res3d: Residual)
    returns (accepted: nat)
    requires |rows| % 4 == 0
    ensures accepted == CountIn(Verdicts(rows, true, fit, res2d, res3d), start, end, |rows| / 4)
  {
    accepted := CountEvents(rows, true, start, end, fit, res2d, res3d, Verdicts(rows, true, fit, res2d, res3d));
  }

  /** The global stage on the tagged rows of the whole file reaches the
      verdicts of the trigger-mode global stage on the same fits, and counts
      at most the events of the range. */
  method GlobalAll(rows: seq<seq<real>>, ghost outs: seq<Option<seq<LocalFitResult>>>, start: int, end: int, fit: Fitter, res2d: Residual, res3d: Residual)
    returns (accepted: nat)
    requires Gated(outs) && rows == TaggedRows(outs)
    ensures |PlainRows(outs)| == 4 * AcceptedLines(outs)
    ensures accepted == CountIn(Verdicts(PlainRows(outs), false, fit, res2d, res3d), start, end, AcceptedLines(outs))
    ensures var lo := if start < 0 then 0 else start;
      var hi := if end < AcceptedLines(outs) then end else AcceptedLines(outs);
      accepted <= if lo < hi then hi - lo else 0
  {
    ghost var m := AcceptedLines(outs);
    RowsBlocks(outs);
    assert |rows| / 4 == m;
    RowsTagged(outs);
    VerdictsTagged(rows, PlainRows(outs), fit, res2d, res3d);
    ghost var vs := Verdicts(PlainRows(outs), false, fit, res2d, res3d);
    CountInRange(vs, start, end, m);
    accepted := TotalReconstructionAll(rows, start, end, fit, res2d, res3d);
    assert accepted == CountIn(vs, start, end, m);
  }

  /** reconstruct_all: the local stage on the whole file, then the global
      stage on a range of its accepted events. The count is that of the
      events in the range that the global gate of the trigger-mode
      reconstruction accepts on the same fits, and at most the size of the
      range. */
  method ReconstructAll(lines: seq<seq<real>>, start: int, end: int, fit: Fitter, res2d: Residual, res3d: Residual)
    returns (accepted: nat, ghost outs: seq<Option<seq<LocalFitResult>>>)
    requires WellFormed(lines)
    ensures outs == LinesFits(lines, fit) && Gated(outs)
    ensures |PlainRows(outs)| == 4 * AcceptedLines(outs)
    ensures var outs := LinesFits(lines, fit);
      accepted == CountIn(Verdicts(PlainRows(outs), false, fit, res2d, res3d), start, end, AcceptedLines(outs))
    ensures var lo := if start < 0 then 0 else start;
      var hi := if end < |lines| then end else |lines|;
      accepted <= if lo < hi then hi - lo else 0
  {
    var rows, localCount;
    rows, localCount, outs := LocalReconstructionAll(lines, fit);
    accepted := GlobalAll(rows, outs, start, end, fit, res2d, res3d);
  }
}
