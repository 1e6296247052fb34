/** The reconstruction records (process_hits_v2.py, local_reconstruction_xleft_xright,
    total_reconstruction, reconstruct, local_reconstruction_all and
    total_reconstruction_all): the points of each of the four chambers are
    fitted locally, an event with a good fit in every chamber becomes four
    rows `xs ++ (zs + chamber offset)`, and the global stage reads the rows
    back, four at a time, and counts the events whose combined fits stay
    under the 2D and 3D ceilings. The least-squares numerics are oracles. */
module Reconstruction {
  import opened Config
  import opened Common
  import opened Hits
  import opened LocalFit

  // ---------------------------------------------------------------------
  // The points of a chamber

  /** The hits of chamber `sl`, in table order (`data[data['SL'] == sl]`). */
  function ChamberHits(data: seq<Hit>, sl: int): seq<Hit>
  {
    Filter(data, (h: Hit) => h.sl == sl)
  }

  /** The left points (X_POS_LEFT, Z_POS) of the hits followed by their right
      points (X_POS_RIGHT, Z_POS), as the two frames are concatenated. */
  function LeftsThenRights(hs: seq<Hit>): (pts: seq<Point>)
    ensures |pts| == 2 * |hs|
    ensures forall i :: 0 <= i < |hs| ==>
      pts[i] == (hs[i].xLeft, hs[i].zPos) && pts[|hs| + i] == (hs[i].xRight, hs[i].zPos)
  {
    seq(|hs|, i requires 0 <= i < |hs| => (hs[i].xLeft, hs[i].zPos))
      + seq(|hs|, i requires 0 <= i < |hs| => (hs[i].xRight, hs[i].zPos))
  }

  /** The points of the four chambers of an event. */
  function Chambers(data: seq<Hit>): (pts: seq<seq<Point>>)
    ensures |pts| == 4
    ensures forall c :: 0 <= c < 4 ==> |pts[c]| == 2 * |ChamberHits(data, c)|
  {
    seq(4, c requires 0 <= c < 4 => LeftsThenRights(ChamberHits(data, c)))
  }

  // ---------------------------------------------------------------------
  // The local gate

  /** The local fits of an event: none when a chamber has no points or no
      fit, otherwise the best fit of every chamber. */
  function LocalFits(pts: seq<seq<Point>>, fit: Fitter): (r: Option<seq<LocalFitResult>>)
    requires |pts| == 4
    ensures r.Some? ==> |r.value| == 4
  {
    if |pts[0]| == 0 || |pts[1]| == 0 || |pts[2]| == 0 || |pts[3]| == 0 then None
    else
      var fs := [BestFit(pts[0], fit), BestFit(pts[1], fit), BestFit(pts[2], fit), BestFit(pts[3], fit)];
      if |fs[0].xs| == 0 || |fs[1].xs| == 0 || |fs[2].xs| == 0 || |fs[3].xs| == 0 then None
      else Some(fs)
  }

  /** A chamber that the local gate lets through: it has points and a fit. */
  predicate Fitted(p: seq<Point>, fit: Fitter)
  {
    |p| > 0 && BestFit(p, fit).xs != []
  }

  /** A chamber fit that takes one point per distinct height of the chamber,
      holds as many heights and fitted positions as points, and scores below
      the local ceiling. */
  predicate Shaped(p: seq<Point>, f: LocalFitResult)
  {
    f.xs != [] && |f.xs| == |f.ys| == |f.fitted| == |Heights(p)| && f.chisq < CHISQ_LOCAL
  }

  /** An event passes the local gate exactly when every chamber has points
      and a fit; its fits are then the chambers' best fits, in chamber
      order, each of the shape above. */
  lemma LocalFitsContract(pts: seq<seq<Point>>, fit: Fitter)
    requires |pts| == 4
    ensures LocalFits(pts, fit).Some? <==>
      Fitted(pts[0], fit) && Fitted(pts[1], fit) && Fitted(pts[2], fit) && Fitted(pts[3], fit)
    ensures LocalFits(pts, fit).Some? ==>
      var fs := LocalFits(pts, fit).value;
      && fs == [BestFit(pts[0], fit), BestFit(pts[1], fit), BestFit(pts[2], fit), BestFit(pts[3], fit)]
      && Shaped(pts[0], fs[0]) && Shaped(pts[1], fs[1]) && Shaped(pts[2], fs[2]) && Shaped(pts[3], fs[3])
  {
    if LocalFits(pts, fit).Some? {
      FitShape(pts[0], fit);
      FitShape(pts[1], fit);
      FitShape(pts[2], fit);
      FitShape(pts[3], fit);
    }
  }

  /** Four fits, each with as many heights as positions. */
  predicate EvenFits(fs: seq<LocalFitResult>)
  {
    && |fs| == 4
    && |fs[0].xs| == |fs[0].ys| && |fs[1].xs| == |fs[1].ys|
    && |fs[2].xs| == |fs[2].ys| && |fs[3].xs| == |fs[3].ys|
  }

  /** The fits of an event that passes the local gate are of that kind. */
  lemma LocalFitsEven(pts: seq<seq<Point>>, fit: Fitter)
    requires |pts| == 4
    ensures LocalFits(pts, fit).Some? ==> EvenFits(LocalFits(pts, fit).value)
  {
    LocalFitsContract(pts, fit);
  }

  /** A non-empty fit of a chamber has one point per distinct height. */
  lemma FitShape(pts: seq<Point>, fit: Fitter)
    requires |pts| > 0
    ensures var f := BestFit(pts, fit);
      f.xs != [] ==> |f.xs| == |f.ys| == |f.fitted| == |Heights(pts)| && f.chisq < CHISQ_LOCAL
  {
    var combos := CombinationsOf(pts);
    BestOfPick(combos, fit);
    var f := BestFit(pts, fit);
    if f.xs != [] {
      var c :| c in combos && Allowed(c, fit)
        && f.xs == Xs(c) && f.ys == Ys(c) && f.fitted == Eval(FitOf(c, fit), Ys(c))
        && f.chisq == Score(ResidualOf(c, fit)) < CHISQ_LOCAL;
      CombinationShape(pts, c);
    }
  }

  /** The local gate of both reconstructions: reject an event with an empty
      chamber before fitting, then fit every chamber and reject an event
      where a chamber has no fit. */
  method LocalGate(pts: seq<seq<Point>>, fit: Fitter) returns (fits: Option<seq<LocalFitResult>>)
    requires |pts| == 4
    ensures fits == LocalFits(pts, fit)
  {
    if |pts[0]| == 0 || |pts[1]| == 0 || |pts[2]| == 0 || |pts[3]| == 0 {
      return None;
    }
    var f0 := FindFit(pts[0], fit);
    var f1 := FindFit(pts[1], fit);
    var f2 := FindFit(pts[2], fit);
    var f3 := FindFit(pts[3], fit);
    if |f0.xs| == 0 || |f1.xs| == 0 || |f2.xs| == 0 || |f3.xs| == 0 {
      return None;
    }
    fits := Some([f0, f1, f2, f3]);
  }

  // ---------------------------------------------------------------------
  // The rows

  /** The height offset of each chamber in the rows: 0, 4·ZCELL, Z_SEP and
      4·ZCELL + Z_SEP. */
  function ZOffset(c: nat): real
    requires c < 4
  {
    [0.0, 4.0 * ZCELL, Z_SEP, 4.0 * ZCELL + Z_SEP][c]
  }

  /** `np.asarray(zs) + d`. */
  function Shift(zs: seq<real>, d: real): (r: seq<real>)
    ensures |r| == |zs|
    ensures forall i :: 0 <= i < |zs| ==> r[i] == zs[i] + d
  {
    seq(|zs|, i requires 0 <= i < |zs| => zs[i] + d)
  }

  /** The row of chamber `c`: the positions followed by the shifted heights. */
  function Record(f: LocalFitResult, c: nat): (row: seq<real>)
    requires c < 4
  {
    f.xs + Shift(f.ys, ZOffset(c))
  }

  /** The four rows of an accepted event. */
  function Records(fs: seq<LocalFitResult>): (rows: seq<seq<real>>)
    requires |fs| == 4
    ensures |rows| == 4
  {
    [Record(fs[0], 0), Record(fs[1], 1), Record(fs[2], 2), Record(fs[3], 3)]
  }

  /** The four rows of an accepted event, each led by its event number. */
  function TaggedRecords(event: real, fs: seq<LocalFitResult>): (rows: seq<seq<real>>)
    requires |fs| == 4
    ensures |rows| == 4 && forall c :: 0 <= c < 4 ==> |rows[c]| > 0 && rows[c][0] == event
  {
    var rs := Records(fs);
    [[event] + rs[0], [event] + rs[1], [event] + rs[2], [event] + rs[3]]
  }

  /** `s[lo:hi]` with Python's clamping of out-of-range bounds. */
  function Slice(s: seq<real>, lo: nat, hi: nat): (r: seq<real>)
    ensures lo <= hi <= |s| ==> r == s[lo..hi]
  {
    var a := if lo <= |s| then lo else |s|;
    var b := if hi <= |s| then hi else |s|;
    if a <= b then s[a..b] else []
  }

  /** How the global stage reads a row back: the first half are positions
      and the second half heights, `ch[:len(ch)//2]` and `ch[len(ch)//2:]`;
      a tagged row first drops its event number, `ch[1:len(ch)//2+1]` and
      `ch[len(ch)//2+1:]`. */
  function Split(row: seq<real>, tagged: bool): (seq<real>, seq<real>)
  {
    if tagged then (Slice(row, 1, |row| / 2 + 1), Slice(row, |row| / 2 + 1, |row|))
    else (row[..|row| / 2], row[|row| / 2..])
  }

  /** Reading a row back gives the positions and the shifted heights it was
      made of, tagged or not. */
  lemma SplitRecord(f: LocalFitResult, c: nat, event: real)
    requires c < 4
    requires |f.xs| == |f.ys|
    ensures Split(Record(f, c), false) == (f.xs, Shift(f.ys, ZOffset(c)))
    ensures Split([event] + Record(f, c), true) == (f.xs, Shift(f.ys, ZOffset(c)))
  {
    var row := Record(f, c);
    var n := |f.xs|;
    assert |row| == 2 * n;
    assert row[..n] == f.xs && row[n..] == Shift(f.ys, ZOffset(c));
    SplitTagged(row, event);
  }

  /** On a row of even length the tagged reading of the row led by any event
      number is the plain reading of the row. */
  lemma SplitTagged(row: seq<real>, event: real)
    requires |row| % 2 == 0
    ensures Split([event] + row, true) == Split(row, false)
  {
    var tagged := [event] + row;
    var h := |row| / 2;
    assert |tagged| / 2 == h;
    assert Slice(tagged, 1, h + 1) == tagged[1..h + 1] == row[..h];
    assert Slice(tagged, h + 1, |tagged|) == tagged[h + 1..] == row[h..];
  }

  /** Every row made of fits with as many heights as positions has even
      length, and reads back as those positions and shifted heights. */
  lemma RecordsEven(fs: seq<LocalFitResult>)
    requires EvenFits(fs)
    ensures forall c :: 0 <= c < 4 ==>
      && |Records(fs)[c]| == 2 * |fs[c].xs|
      && Split(Records(fs)[c], false) == (fs[c].xs, Shift(fs[c].ys, ZOffset(c)))
  {
    forall c | 0 <= c < 4
      ensures |Records(fs)[c]| == 2 * |fs[c].xs|
      ensures Split(Records(fs)[c], false) == (fs[c].xs, Shift(fs[c].ys, ZOffset(c)))
    {
      assert Records(fs)[c] == Record(fs[c], c);
      SplitRecord(fs[c], c, 0.0);
    }
  }

  /** The tagged rows of an event are its plain rows, each led by the event
      number, and the plain rows have even length. */
  lemma RecordsTagged(event: real, fs: seq<LocalFitResult>)
    requires EvenFits(fs)
    ensures TaggedOf(TaggedRecords(event, fs), Records(fs))
    ensures forall c :: 0 <= c < 4 ==> |Records(fs)[c]| % 2 == 0
  {
    RecordsEven(fs);
  }

  /** local_reconstruction_xleft_xright: the four rows of the event and 1 when
      it passes the local gate, no rows and 0 otherwise. */
  method LocalReconstruction(data: seq<Hit>, fit: Fitter) returns (rows: seq<seq<real>>, accepted: nat)
    ensures accepted <= 1
    ensures accepted == 1 <==> LocalFits(Chambers(data), fit).Some?
    ensures rows == if accepted == 1 then Records(LocalFits(Chambers(data), fit).value) else []
  {
    rows, accepted := [], 0;
    var pts := Chambers(data);
    var fits := LocalGate(pts, fit);
    if fits.Some? {
      accepted := accepted + 1;
      rows := Records(fits.value);
    }
  }

  // ---------------------------------------------------------------------
  // The global gate

  /** The residual of a least-squares fit of the second sequence against the
      first (`np.polyfit(..., full=True)` and `np.linalg.lstsq`), as a number. */
  type Residual = (seq<real>, seq<real>) -> real

  /** The global gate of an event: chambers 1 and 3 give x against z,
      chambers 2 and 4 give y against z; each chamber's missing coordinate is
      read off the line fitted to its partner chamber. The event passes when
      both 2D fits have a residual per degree of freedom (two) below 200 and
      both 3D plane fits one per three below 500. */
  predicate GlobalAccepted(x1: seq<real>, z1: seq<real>, y2: seq<real>, z2: seq<real>,
                           x3: seq<real>, z3: seq<real>, y4: seq<real>, z4: seq<real>,
                           fit: Fitter, res2d: Residual, res3d: Residual)
  {
    var y1 := Eval(fit(z2, y2).0, z1);
    var x2 := Eval(fit(z1, x1).0, z2);
    var y3 := Eval(fit(z4, y4).0, z3);
    var x4 := Eval(fit(z3, x3).0, z4);
    && res2d(x1 + x3, z1 + z3) / 2.0 < CHISQ_2D
    && res2d(y2 + y4, z2 + z4) / 2.0 < CHISQ_2D
    && res3d(x1 + x2 + x3 + x4, z1 + z2 + z3 + z4) / 3.0 < CHISQ_3D
    && res3d(y1 + y2 + y3 + y4, z1 + z2 + z3 + z4) / 3.0 < CHISQ_3D
  }

  /** The global gate of the `k`-th event of the rows, each of its four rows
      read back as positions and heights. */
  predicate EventAccepted(rows: seq<seq<real>>, k: nat, tagged: bool, fit: Fitter, res2d: Residual, res3d: Residual)
    requires 4 * k + 4 <= |rows|
  {
    var c1, c2, c3, c4 := Split(rows[4 * k], tagged), Split(rows[4 * k + 1], tagged),
                          Split(rows[4 * k + 2], tagged), Split(rows[4 * k + 3], tagged);
    GlobalAccepted(c1.0, c1.1, c2.0, c2.1, c3.0, c3.1, c4.0, c4.1, fit, res2d, res3d)
  }

  /** The verdict of the global gate on every event of the rows. */
  function Verdicts(rows: seq<seq<real>>, tagged: bool, fit: Fitter, res2d: Residual, res3d: Residual): (vs: seq<bool>)
    ensures |vs| == |rows| / 4
  {
    seq(|rows| / 4, k requires 0 <= k < |rows| / 4 => EventAccepted(rows, k, tagged, fit, res2d, res3d))
  }

  /** The number of true verdicts among the first `m` whose index lies in
      [start, end). */
  function CountIn(vs: seq<bool>, start: int, end: int, m: nat): nat
    requires m <= |vs|
  {
    if m == 0 then 0
    else CountIn(vs, start, end, m - 1) + (if start <= m - 1 < end && vs[m - 1] then 1 else 0)
  }

  /** The count is at most the number of indices in the range, and every
      index in the range with a true verdict adds one. */
  lemma {:induction false} CountInRange(vs: seq<bool>, start: int, end: int, m: nat)
    requires m <= |vs|
    ensures var lo := if start < 0 then 0 else start;
      var hi := if end < m then end else m;
      CountIn(vs, start, end, m) <= if lo < hi then hi - lo else 0
    ensures (forall k :: 0 <= k < m && start <= k < end ==> vs[k]) ==>
      var lo := if start < 0 then 0 else start;
      var hi := if end < m then end else m;
      CountIn(vs, start, end, m) == if lo < hi then hi - lo else 0
  {
    if m > 0 {
      CountInRange(vs, start, end, m - 1);
    }
  }

  /** Rows that are the plain rows, each led by an event number. */
  predicate TaggedOf(tagged: seq<seq<real>>, plain: seq<seq<real>>)
  {
    |tagged| == |plain| && forall i :: 0 <= i < |tagged| ==> |tagged[i]| > 0 && tagged[i] == [tagged[i][0]] + plain[i]
  }

  /** Both global stages reach the same verdicts when the tagged rows are
      the plain rows of even length, each led by an event number. */
  lemma VerdictsTagged(tagged: seq<seq<real>>, plain: seq<seq<real>>, fit: Fitter, res2d: Residual, res3d: Residual)
    requires TaggedOf(tagged, plain)
    requires forall i :: 0 <= i < |plain| ==> |plain[i]| % 2 == 0
    ensures Verdicts(tagged, true, fit, res2d, res3d) == Verdicts(plain, false, fit, res2d, res3d)
  {
    var vt, vp := Verdicts(tagged, true, fit, res2d, res3d), Verdicts(plain, false, fit, res2d, res3d);
    forall k | 0 <= k < |vt| ensures vt[k] == vp[k] {
      forall i | 4 * k <= i < 4 * k + 4 ensures Split(tagged[i], true) == Split(plain[i], false) {
        SplitTagged(plain[i], tagged[i][0]);
      }
    }
  }

  /** total_reconstruction: the rows are read four at a time and the events
      that pass the global gate are counted. */
  method TotalReconstruction(rows: seq<seq<real>>, fit: Fitter, res2d: Residual, res3d: Residual)
    returns (accepted: nat)
    requires |rows| % 4 == 0
    ensures accepted == CountIn(Verdicts(rows, false, fit, res2d, res3d), 0, |rows| / 4, |rows| / 4)
  {
    accepted := CountEvents(rows, false, 0, |rows| / 4, fit, res2d, res3d, Verdicts(rows, false, fit, res2d, res3d));
  }

  /** The loop of both global stages: every fourth row starts an event, and
      an event whose index lies in [start, end) and that passes the global
      gate is counted. */
  method CountEvents(rows: seq<seq<real>>, tagged: bool, start: int, end: int,
                     fit: Fitter, res2d: Residual, res3d: Residual, ghost vs: seq<bool>)
    returns (accepted: nat)
    requires |rows| % 4 == 0 && |vs| == |rows| / 4
    requires forall k {:trigger EventAccepted(rows, k, tagged, fit, res2d, res3d)} ::
      0 <= k < |vs| ==> vs[k] == EventAccepted(rows, k, tagged, fit, res2d, res3d)
    ensures accepted == CountIn(vs, start, end, |vs|)
  {
    var count := |rows|;
    accepted := 0;
    var j := 0;
    ghost var k := 0;
    while j < count
      invariant j == 4 * k && k <= |vs| && count == 4 * |vs|
      invariant accepted == CountIn(vs, start, end, k)
    {
      if start * 4 <= j < end * 4 {
        var ok := ReadEvent(rows, j, k, tagged, fit, res2d, res3d);
        if ok {
          accepted := accepted + 1;
        }
      }
      j, k := j + 4, k + 1;
    }
  }

  /** One pass of the loops of the global stage: the four rows from `j` on
      are read back into positions and heights and put through the global
      gate. */
  method ReadEvent(rows: seq<seq<real>>, j: nat, ghost k: nat, tagged: bool, fit: Fitter, res2d: Residual, res3d: Residual)
    returns (ok: bool)
    requires j == 4 * k && j + 4 <= |rows|
    ensures ok == EventAccepted(rows, k, tagged, fit, res2d, res3d)
  {
    var x1, z1 := Halves(rows[j], tagged);
    var y2, z2 := Halves(rows[j + 1], tagged);
    var x3, z3 := Halves(rows[j + 2], tagged);
    var y4, z4 := Halves(rows[j + 3], tagged);
    assert rows[j] == rows[4 * k] && rows[j + 1] == rows[4 * k + 1];
    assert rows[j + 2] == rows[4 * k + 2] && rows[j + 3] == rows[4 * k + 3];
    ok := Passes(x1, z1, y2, z2, x3, z3, y4, z4, fit, res2d, res3d);
  }

  /** A row read back into its positions and its heights. */
  method Halves(ch: seq<real>, tagged: bool) returns (xs: seq<real>, zs: seq<real>)
    ensures (xs, zs) == Split(ch, tagged)
  {
    if tagged {
      xs, zs := Slice(ch, 1, |ch| / 2 + 1), Slice(ch, |ch| / 2 + 1, |ch|);
    } else {
      xs, zs := ch[..|ch| / 2], ch[|ch| / 2..];
    }
  }

  /** The global gate on the eight halves of an event, in the order the
      source evaluates it: the 2D gate first, the 3D gate only after it. */
  method Passes(x1: seq<real>, z1: seq<real>, y2: seq<real>, z2: seq<real>,
                x3: seq<real>, z3: seq<real>, y4: seq<real>, z4: seq<real>,
                fit: Fitter, res2d: Residual, res3d: Residual) returns (ok: bool)
    ensures ok == GlobalAccepted(x1, z1, y2, z2, x3, z3, y4, z4, fit, res2d, res3d)
  {
    var y1 := Eval(fit(z2, y2).0, z1);
    var x2 := Eval(fit(z1, x1).0, z2);
    var y3 := Eval(fit(z4, y4).0, z3);
    var x4 := Eval(fit(z3, x3).0, z4);
    var chisq1 := res2d(x1 + x3, z1 + z3);
    var chisq2 := res2d(y2 + y4, z2 + z4);
    ok := false;
    if chisq1 / 2.0 < CHISQ_2D && chisq2 / 2.0 < CHISQ_2D {
      var xs := x1 + x2 + x3 + x4;
      var ys := y1 + y2 + y3 + y4;
      var zs := z1 + z2 + z3 + z4;
      var chix := res3d(xs, zs);
      var chiy := res3d(ys, zs);
      if chix / 3.0 < CHISQ_3D && chiy / 3.0 < CHISQ_3D {
        ok := true;
      }
    }
  }

  /** reconstruct: the local stage, then the global stage on the rows when
      there are any. An event is counted globally only if it was accepted
      locally. */
  method Reconstruct(data: seq<Hit>, fit: Fitter, res2d: Residual, res3d: Residual)
    returns (local: nat, count: nat)
    ensures local == 1 <==> LocalFits(Chambers(data), fit).Some?
    ensures count <= local <= 1
    ensures local == 1 ==>
      count == (if EventAccepted(Records(LocalFits(Chambers(data), fit).value), 0, false, fit, res2d, res3d) then 1 else 0)
  {
    var rows;
    rows, local := LocalReconstruction(data, fit);
    if |rows| != 0 {
      count := TotalReconstruction(rows, fit, res2d, res3d);
    } else {
      count := 0;
    }
  }
}
