/** The event text file read back by the offline reconstruction
    (process_hits_v2.py, save_root and local_reconstruction_all): each line
    holds an event number, a hit count and then five numbers per hit — SL,
    LAYER, X_POS_LEFT, X_POS_RIGHT and Z_POS. The parser drops the first two
    numbers and scatters every hit's left and right points into zero-filled
    buffers, one per chamber; the rows never written are dropped again by
    removezeros. Numbers are taken as already parsed; the decimal text itself
    is not modelled. */
module EventLines {
  import opened Hits
  import opened LocalFit

  /** The buffer a hit goes to: chambers 0, 1 and 2 by their SL, every other
      SL to chamber 3. */
  function ChamberOf(sl: real): (c: nat)
    ensures c < 4
  {
    if sl == 0.0 then 0 else if sl == 1.0 then 1 else if sl == 2.0 then 2 else 3
  }

  /** The two points of the `k`-th hit of a line: its left and its right
      position, both at the hit's height. */
  function HitPoints(tokens: seq<real>, k: nat): (ps: seq<Point>)
    requires 5 * k + 5 <= |tokens|
  {
    [(tokens[5 * k + 2], tokens[5 * k + 4]), (tokens[5 * k + 3], tokens[5 * k + 4])]
  }

  /** The points the first `m` hits of a line write into the buffer of
      chamber `c`, in the order they are written. */
  function Written(tokens: seq<real>, c: nat, m: nat): (w: seq<Point>)
    requires 5 * m <= |tokens|
    ensures |w| <= 2 * m
  {
    if m == 0 then []
    else Written(tokens, c, m - 1) + (if ChamberOf(tokens[5 * (m - 1)]) == c then HitPoints(tokens, m - 1) else [])
  }

  /** One more hit adds its two points to its own chamber only. */
  lemma WrittenNext(tokens: seq<real>, m: nat, c: nat)
    requires 5 * m + 5 <= |tokens|
    ensures Written(tokens, c, m + 1) ==
      if ChamberOf(tokens[5 * m]) == c then Written(tokens, c, m) + HitPoints(tokens, m) else Written(tokens, c, m)
  {
  }

  /** The points of chamber `c` once a whole line is read. */
  function ParsedChamber(tokens: seq<real>, c: nat): seq<Point>
    requires |tokens| % 5 == 0
  {
    RemoveZeros(Written(tokens, c, |tokens| / 5))
  }

  /** The four chambers of a line. */
  function Parsed(tokens: seq<real>): (pts: seq<seq<Point>>)
    requires |tokens| % 5 == 0
    ensures |pts| == 4
  {
    [ParsedChamber(tokens, 0), ParsedChamber(tokens, 1), ParsedChamber(tokens, 2), ParsedChamber(tokens, 3)]
  }

  /** `data[2:]`: the hit numbers of a line, after its event number and hit
      count. */
  function HitFields(line: seq<real>): (tokens: seq<real>)
    ensures |line| >= 2 ==> line == line[..2] + tokens
    ensures |line| < 2 ==> tokens == []
  {
    if |line| >= 2 then line[2..] else []
  }

  /** The first `j` rows of a buffer hold `w` and the rest are still zero. */
  ghost predicate Filled(buf: array<Point>, j: nat, w: seq<Point>)
    reads buf
  {
    && j <= buf.Length
    && buf[..j] == w
    && forall i :: j <= i < buf.Length ==> buf[i] == (0.0, 0.0)
  }

  /** Writes one hit's two points at the counter of a buffer. */
  method Put(buf: array<Point>, j: nat, xl: real, xr: real, z: real, ghost w: seq<Point>)
    requires Filled(buf, j, w) && j + 2 <= buf.Length
    modifies buf
    ensures Filled(buf, j + 2, w + [(xl, z), (xr, z)])
  {
    buf[j] := (xl, z);
    buf[j + 1] := (xr, z);
    assert buf[..j + 2] == buf[..j] + [(xl, z), (xr, z)];
  }

  /** removezeros on a filled buffer keeps the non-zero written points. */
  lemma FilledRemoveZeros(buf: array<Point>, j: nat, w: seq<Point>)
    requires Filled(buf, j, w)
    ensures RemoveZeros(buf[..]) == RemoveZeros(w)
  {
    var zeros := seq(buf.Length - j, _ => (0.0, 0.0));
    assert buf[..] == w + zeros;
    RemoveZerosAppend(w, zeros);
    RemoveZerosOfZeros(buf.Length - j);
  }

  /** The parser of local_reconstruction_all: four zero-filled buffers of
      twice as many rows as the line has numbers, one counter per chamber,
      and a cursor that moves five numbers per hit. */
  method ParseLine(tokens: seq<real>) returns (pts: seq<seq<Point>>)
    requires |tokens| % 5 == 0
    ensures pts == Parsed(tokens)
  {
    var n := |tokens|;
    var pts0 := new Point[2 * n]((_) => (0.0, 0.0));
    var pts1 := new Point[2 * n]((_) => (0.0, 0.0));
    var pts2 := new Point[2 * n]((_) => (0.0, 0.0));
    var pts3 := new Point[2 * n]((_) => (0.0, 0.0));
    var j0, j1, j2, j3 := ScatterLine(tokens, pts0, pts1, pts2, pts3);
    FilledRemoveZeros(pts0, j0, Written(tokens, 0, n / 5));
    FilledRemoveZeros(pts1, j1, Written(tokens, 1, n / 5));
    FilledRemoveZeros(pts2, j2, Written(tokens, 2, n / 5));
    FilledRemoveZeros(pts3, j3, Written(tokens, 3, n / 5));
    pts := [RemoveZeros(pts0[..]), RemoveZeros(pts1[..]), RemoveZeros(pts2[..]), RemoveZeros(pts3[..])];
  }

  /** The loop of the parser: every hit of the line, five numbers at a time,
      is written into its chamber's buffer. */
  method ScatterLine(tokens: seq<real>, pts0: array<Point>, pts1: array<Point>, pts2: array<Point>, pts3: array<Point>)
    returns (j0: nat, j1: nat, j2: nat, j3: nat)
    requires |tokens| % 5 == 0
    requires pts0 != pts1 && pts0 != pts2 && pts0 != pts3 && pts1 != pts2 && pts1 != pts3 && pts2 != pts3
    requires pts0.Length == pts1.Length == pts2.Length == pts3.Length == 2 * |tokens|
    requires Filled(pts0, 0, []) && Filled(pts1, 0, []) && Filled(pts2, 0, []) && Filled(pts3, 0, [])
    modifies pts0, pts1, pts2, pts3
    ensures Filled(pts0, j0, Written(tokens, 0, |tokens| / 5)) && Filled(pts1, j1, Written(tokens, 1, |tokens| / 5))
    ensures Filled(pts2, j2, Written(tokens, 2, |tokens| / 5)) && Filled(pts3, j3, Written(tokens, 3, |tokens| / 5))
  {
    var n := |tokens|;
    j0, j1, j2, j3 := 0, 0, 0, 0;
    var index := 0;
    ghost var m := 0;
    while index < n
      invariant index == 5 * m <= n
      invariant Filled(pts0, j0, Written(tokens, 0, m)) && Filled(pts1, j1, Written(tokens, 1, m))
      invariant Filled(pts2, j2, Written(tokens, 2, m)) && Filled(pts3, j3, Written(tokens, 3, m))
    {
      j0, j1, j2, j3 := ScatterHit(tokens, index, m, pts0, pts1, pts2, pts3, j0, j1, j2, j3);
      index, m := index + 5, m + 1;
    }
    assert m == n / 5;
  }

  /** One pass of the parser's loop: the hit at `index` writes its left and
      right points at the counter of its chamber's buffer, and that counter
      moves on by two. */
  method ScatterHit(tokens: seq<real>, index: nat, ghost m: nat,
                    pts0: array<Point>, pts1: array<Point>, pts2: array<Point>, pts3: array<Point>,
                    j0: nat, j1: nat, j2: nat, j3: nat)
    returns (k0: nat, k1: nat, k2: nat, k3: nat)
    requires index == 5 * m && index + 5 <= |tokens|
    requires pts0 != pts1 && pts0 != pts2 && pts0 != pts3 && pts1 != pts2 && pts1 != pts3 && pts2 != pts3
    requires pts0.Length == pts1.Length == pts2.Length == pts3.Length == 2 * |tokens|
    requires Filled(pts0, j0, Written(tokens, 0, m)) && Filled(pts1, j1, Written(tokens, 1, m))
    requires Filled(pts2, j2, Written(tokens, 2, m)) && Filled(pts3, j3, Written(tokens, 3, m))
    modifies pts0, pts1, pts2, pts3
    ensures Filled(pts0, k0, Written(tokens, 0, m + 1)) && Filled(pts1, k1, Written(tokens, 1, m + 1))
    ensures Filled(pts2, k2, Written(tokens, 2, m + 1)) && Filled(pts3, k3, Written(tokens, 3, m + 1))
  {
    k0, k1, k2, k3 := j0, j1, j2, j3;
    var sl := tokens[index];
    var xl, xr, z := tokens[index + 2], tokens[index + 3], tokens[index + 4];
    assert HitPoints(tokens, m) == [(xl, z), (xr, z)];
    WrittenNext(tokens, m, 0);
    WrittenNext(tokens, m, 1);
    WrittenNext(tokens, m, 2);
    WrittenNext(tokens, m, 3);
    if sl == 0.0 {
      Put(pts0, j0, xl, xr, z, Written(tokens, 0, m));
      k0 := j0 + 2;
    } else if sl == 1.0 {
      Put(pts1, j1, xl, xr, z, Written(tokens, 1, m));
      k1 := j1 + 2;
    } else if sl == 2.0 {
      Put(pts2, j2, xl, xr, z, Written(tokens, 2, m));
      k2 := j2 + 2;
    } else {
      Put(pts3, j3, xl, xr, z, Written(tokens, 3, m));
      k3 := j3 + 2;
    }
  }

  // ---------------------------------------------------------------------
  // The writer side

  /** The five numbers save_root writes for a hit. */
  function HitTokens(h: Hit): (t: seq<real>)
    ensures |t| == 5
  {
    [h.sl as real, h.layer as real, h.xLeft, h.xRight, h.zPos]
  }

  /** The hit numbers of a line, hit after hit. */
  function LineTokens(hs: seq<Hit>): (t: seq<real>)
    ensures |t| == 5 * |hs|
  {
    if hs == [] then [] else LineTokens(hs[..|hs| - 1]) + HitTokens(hs[|hs| - 1])
  }

  /** The left point and then the right point of every hit, hit after hit. */
  function Pairs(hs: seq<Hit>): (ps: seq<Point>)
    ensures |ps| == 2 * |hs|
  {
    if hs == [] then [] else Pairs(hs[..|hs| - 1]) + [(hs[|hs| - 1].xLeft, hs[|hs| - 1].zPos), (hs[|hs| - 1].xRight, hs[|hs| - 1].zPos)]
  }

  /** The hits of chamber `c`, in order (`df[df['SL'] == c]`). */
  function InChamber(hs: seq<Hit>, c: nat): (r: seq<Hit>)
    ensures |r| <= |hs|
    ensures forall h :: h in r ==> h.sl == c && h in hs
  {
    if hs == [] then []
    else
      var init := hs[..|hs| - 1];
      assert forall h :: h in init ==> h in hs;
      InChamber(init, c) + (if hs[|hs| - 1].sl == c then [hs[|hs| - 1]] else [])
  }

  /** Selecting a chamber distributes over concatenation, so its hits stay in order. */
  lemma {:induction false} InChamberAppend(a: seq<Hit>, b: seq<Hit>, c: nat)
    ensures InChamber(a + b, c) == InChamber(a, c) + InChamber(b, c)
    decreases |b|
  {
    if b == [] {
      assert a + b == a;
    } else {
      assert (a + b)[..|a + b| - 1] == a + b[..|b| - 1];
      assert (a + b)[|a + b| - 1] == b[|b| - 1];
      InChamberAppend(a, b[..|b| - 1], c);
    }
  }

  /** Reading back a line that save_root wrote gives every chamber the left
      and right points of exactly its hits, in the order of the hits, as long
      as every hit has a chamber (SL 0 to 3). */
  lemma {:induction false} WrittenOfLine(hs: seq<Hit>, c: nat)
    requires c < 4
    requires forall i :: 0 <= i < |hs| ==> 0 <= hs[i].sl < 4
    ensures Written(LineTokens(hs), c, |hs|) == Pairs(InChamber(hs, c))
  {
    if hs != [] {
      var init, h := hs[..|hs| - 1], hs[|hs| - 1];
      var m := |init|;
      var t := LineTokens(hs);
      LastHitTokens(hs);
      WrittenOfLine(init, c);
      WrittenPrefix(t, c, m, LineTokens(init));
      ChamberOfSl(h.sl);
      WrittenNext(t, m, c);
      var r := InChamber(init, c);
      if h.sl == c {
        assert InChamber(hs, c) == r + [h];
        assert (r + [h])[..|r|] == r;
      } else {
        assert InChamber(hs, c) == r;
      }
    }
  }

  /** The numbers of a line's last hit follow those of the hits before it. */
  lemma LastHitTokens(hs: seq<Hit>)
    requires hs != []
    ensures var m, h, t := |hs| - 1, hs[|hs| - 1], LineTokens(hs);
      && t[..5 * m] == LineTokens(hs[..m])
      && t[5 * m] == h.sl as real
      && HitPoints(t, m) == [(h.xLeft, h.zPos), (h.xRight, h.zPos)]
  {
    var init, h := hs[..|hs| - 1], hs[|hs| - 1];
    assert LineTokens(hs) == LineTokens(init) + HitTokens(h);
  }

  /** A hit of SL 0 to 3 goes to the chamber of that number. */
  lemma ChamberOfSl(sl: int)
    requires 0 <= sl < 4
    ensures ChamberOf(sl as real) == sl
  {
  }

  /** The points written by the first `m` hits depend only on those hits'
      numbers. */
  lemma {:induction false} WrittenPrefix(t: seq<real>, c: nat, m: nat, prefix: seq<real>)
    requires 5 * m <= |t| && prefix == t[..5 * m]
    ensures Written(t, c, m) == Written(prefix, c, m)
    decreases m
  {
    if m > 0 {
      var k := m - 1;
      assert prefix[..5 * k] == t[..5 * k];
      WrittenPrefix(t, c, k, t[..5 * k]);
      WrittenPrefix(prefix, c, k, t[..5 * k]);
      assert t[5 * k] == prefix[5 * k];
      assert HitPoints(t, k) == HitPoints(prefix, k);
      WrittenNext(t, k, c);
      WrittenNext(prefix, k, c);
    }
  }

  /** The round trip of the text file: the parser of a line written from the
      hits `hs` gives each chamber the non-zero left and right points of its
      hits. */
  lemma ParseOfLine(hs: seq<Hit>, c: nat)
    requires c < 4
    requires forall i :: 0 <= i < |hs| ==> 0 <= hs[i].sl < 4
    ensures |LineTokens(hs)| % 5 == 0
    ensures ParsedChamber(LineTokens(hs), c) == RemoveZeros(Pairs(InChamber(hs, c)))
  {
    assert |LineTokens(hs)| / 5 == |hs|;
    WrittenOfLine(hs, c);
  }
}
