/** The meantimer search of one chamber (process_hits_v2.py,
    meantimer_results): the chamber's hits are sorted by time and cut into
    sub-groups at gaps above 1.1 x TDRIFT; in every sub-group with at least
    three distinct channels, each ordered triple of distinct channels that is a
    known cell pattern is tried on every combination of the hit times on its
    three channels; a combination spanning at most 1.1 x TDRIFT is solved, and
    its (t0, angle) is kept when the angle lies strictly inside the chamber's
    window. The pattern table and the meantimer equation are parameters. */
module Meantimer {
  import opened Config
  import opened Hits
  import opened Segmentation
  import opened Common
  import opened TriggerlessEvents

  /** An ordered triple of normalised channels. */
  type Triplet = (int, int, int)

  /** The meantimer equation of a named pattern on three times: (t0, angle). */
  type Solver = (string, real, real, real) -> (real, real)

  /** `MEANTIMER_ANGLES[sl]`; Python's index -1 reaches the last window. */
  function AngleWindow(sl: int): (w: (real, real))
    requires -4 <= sl < 4
    ensures w in MEANTIMER_ANGLES
  {
    MEANTIMER_ANGLES[if sl < 0 then sl + 4 else sl]
  }

  predicate Distinct3(t: Triplet)
  {
    t.0 != t.1 && t.0 != t.2 && t.1 != t.2
  }

  /** max - min of three times. */
  function Spread(a: real, b: real, c: real): real
  {
    var hi := if a >= b && a >= c then a else if b >= c then b else c;
    var lo := if a <= b && a <= c then a else if b <= c then b else c;
    hi - lo
  }

  /** The spread of three times is the largest of their pairwise differences. */
  lemma SpreadIsLargestDifference(a: real, b: real, c: real)
    ensures Spread(a, b, c) >= 0.0
    ensures var d := Spread(a, b, c);
      a - b <= d && b - a <= d && a - c <= d && c - a <= d && b - c <= d && c - b <= d
    ensures var d := Spread(a, b, c);
      d == a - b || d == b - a || d == a - c || d == c - a || d == b - c || d == c - b
  {
  }

  /** The distinct channels of sub-group e. */
  function GroupChannelSet(s: seq<Hit>, g: seq<int>, e: int): set<int>
    requires |g| == |s|
  {
    set i | 0 <= i < |s| && g[i] == e :: s[i].norm
  }

  /** Positions among the first n sorted hits of sub-group e on channel ch, ascending. */
  function ChannelRows(s: seq<Hit>, g: seq<int>, e: int, ch: int, n: nat): (r: seq<nat>)
    requires |g| == |s| && n <= |s|
    ensures forall i :: 0 <= i < |r| ==> r[i] < n && g[r[i]] == e && s[r[i]].norm == ch
    ensures forall k :: 0 <= k < n && g[k] == e && s[k].norm == ch ==> k in r
  {
    if n == 0 then []
    else
      var r := ChannelRows(s, g, e, ch, n - 1);
      if g[n - 1] == e && s[n - 1].norm == ch then r + [n - 1] else r
  }

  /** One tried combination: the sub-group, the pattern triple and the
      positions of its three hits among the time-sorted hits. */
  datatype Combo = Combo(grp: int, triplet: Triplet, i1: nat, i2: nat, i3: nat)

  /** The combination `c` is a pattern triple of three distinct channels within
      one sub-group of at least three channels (the hits on its channels, in
      order); it spans at most 1.1 x TDRIFT and solves to (t0, angle) with the
      angle strictly inside the chamber's window. */
  predicate Qualifies(s: seq<Hit>, g: seq<int>, patterns: map<Triplet, string>, solve: Solver, sl: int,
                      c: Combo, t0: real, angle: real)
    requires |g| == |s| && -4 <= sl < 4
  {
    && c.triplet in patterns && Distinct3(c.triplet)
    && c.i1 < |s| && c.i2 < |s| && c.i3 < |s|
    && g[c.i1] == c.grp && g[c.i2] == c.grp && g[c.i3] == c.grp
    && s[c.i1].norm == c.triplet.0 && s[c.i2].norm == c.triplet.1 && s[c.i3].norm == c.triplet.2
    && |GroupChannelSet(s, g, c.grp)| >= 3
    && Spread(s[c.i1].timeAbs, s[c.i2].timeAbs, s[c.i3].timeAbs) <= EVENT_WIDTH_MAX
    && solve(patterns[c.triplet], s[c.i1].timeAbs, s[c.i2].timeAbs, s[c.i3].timeAbs) == (t0, angle)
    && AngleWindow(sl).0 < angle < AngleWindow(sl).1
  }

  /** Some sub-group holds hits on the three distinct channels of a pattern triple. */
  ghost predicate PatternPresent(s: seq<Hit>, g: seq<int>, patterns: map<Triplet, string>)
    requires |g| == |s|
  {
    exists c: Combo :: c.triplet in patterns && Distinct3(c.triplet)
      && c.i1 < |s| && c.i2 < |s| && c.i3 < |s|
      && g[c.i1] == c.grp && g[c.i2] == c.grp && g[c.i3] == c.grp
      && s[c.i1].norm == c.triplet.0 && s[c.i2].norm == c.triplet.1 && s[c.i3].norm == c.triplet.2
  }

  /** (t0, angle) is the solution of some qualifying combination. */
  ghost predicate Solution(s: seq<Hit>, g: seq<int>, patterns: map<Triplet, string>, solve: Solver, sl: int,
                           t0: real, angle: real)
    requires |g| == |s| && -4 <= sl < 4
  {
    exists c :: Qualifies(s, g, patterns, solve, sl, c, t0, angle)
  }

  /** Every result k is the solution of some qualifying combination. */
  ghost predicate AllQualify(s: seq<Hit>, g: seq<int>, patterns: map<Triplet, string>, solve: Solver, sl: int,
                             tzeros: seq<real>, angles: seq<real>)
    requires |g| == |s| && -4 <= sl < 4 && |tzeros| == |angles|
  {
    forall k :: 0 <= k < |tzeros| ==> Solution(s, g, patterns, solve, sl, tzeros[k], angles[k])
  }

  /** The two result lists side by side. */
  function Zip(tzeros: seq<real>, angles: seq<real>): (r: seq<(real, real)>)
    requires |tzeros| == |angles|
    ensures |r| == |tzeros|
    ensures forall k :: 0 <= k < |r| ==> r[k] == (tzeros[k], angles[k])
  {
    seq(|tzeros|, k requires 0 <= k < |tzeros| => (tzeros[k], angles[k]))
  }

  lemma ZipConcat(tz1: seq<real>, an1: seq<real>, tz2: seq<real>, an2: seq<real>)
    requires |tz1| == |an1| && |tz2| == |an2|
    ensures Zip(tz1 + tz2, an1 + an2) == Zip(tz1, an1) + Zip(tz2, an2)
  {
    var l, r := Zip(tz1 + tz2, an1 + an2), Zip(tz1, an1) + Zip(tz2, an2);
    forall k | 0 <= k < |l|
      ensures l[k] == r[k]
    {
      if k >= |tz1| {
        assert (tz1 + tz2)[k] == tz2[k - |tz1|] && (an1 + an2)[k] == an2[k - |tz1|];
      }
    }
  }

  /** What one combination of three hit times adds to the results: its
      solution when the times span at most 1.1 x TDRIFT and the solved angle
      lies strictly inside the chamber's window, otherwise nothing. */
  function ComboResult(pattern: string, t1: real, t2: real, t3: real, solve: Solver, sl: int): seq<(real, real)>
    requires -4 <= sl < 4
  {
    if Spread(t1, t2, t3) > EVENT_WIDTH_MAX then []
    else
      var x := solve(pattern, t1, t2, t3);
      if AngleWindow(sl).0 < x.1 < AngleWindow(sl).1 then [x] else []
  }

  /** What the combination of the hits at three positions adds to the results. */
  type Step = (nat, nat, nat) -> seq<(real, real)>

  /** The step of a pattern on the time-sorted hits: `ComboResult` of the
      three hits' times. */
  function PatternStep(s: seq<Hit>, pattern: string, solve: Solver, sl: int): Step
  {
    (i1: nat, i2: nat, i3: nat) =>
      if i1 < |s| && i2 < |s| && i3 < |s| && -4 <= sl < 4
      then ComboResult(pattern, s[i1].timeAbs, s[i2].timeAbs, s[i3].timeAbs, solve, sl)
      else []
  }

  /** `f` applied to each element of `xs` in turn, the results concatenated:
      a loop over `xs` that appends what each element contributes. */
  function Flatten<T, R>(f: T -> seq<R>, xs: seq<T>): seq<R>
    decreases |xs|
  {
    if xs == [] then [] else Flatten(f, xs[..|xs| - 1]) + f(xs[|xs| - 1])
  }

  /** An element of such a loop's output is exactly an element contributed by
      one of the elements of `xs`. */
  lemma {:induction false} FlattenMembers<T, R>(f: T -> seq<R>, xs: seq<T>, x: R)
    ensures x in Flatten(f, xs) <==> exists k :: 0 <= k < |xs| && x in f(xs[k])
    decreases |xs|
  {
    if xs != [] {
      var n := |xs| - 1;
      var pre := xs[..n];
      FlattenMembers(f, pre, x);
      if x in Flatten(f, pre) {
        var k :| 0 <= k < |pre| && x in f(pre[k]);
        assert pre[k] == xs[k];
      }
      if k :| 0 <= k < |xs| && x in f(xs[k]) {
        if k < n {
          assert x in f(pre[k]);
        }
      }
    }
  }

  /** One more element of `xs` appends its contribution. */
  lemma FlattenSnoc<T, R>(f: T -> seq<R>, xs: seq<T>, k: nat)
    requires k < |xs|
    ensures Flatten(f, xs[..k + 1]) == Flatten(f, xs[..k]) + f(xs[k])
  {
    assert xs[..k + 1][..k] == xs[..k];
  }

  /** The innermost loop's body: what a third hit i3 contributes. */
  function ThirdHit(step: Step, i1: nat, i2: nat): nat -> seq<(real, real)>
  {
    (i3: nat) => step(i1, i2, i3)
  }

  /** The innermost loop: the first two hits fixed, the third over `rows3`. */
  function Inner(step: Step, i1: nat, i2: nat, rows3: seq<nat>): seq<(real, real)>
  {
    Flatten(ThirdHit(step, i1, i2), rows3)
  }

  /** The middle loop's body: the innermost loop for a second hit i2. */
  function SecondHit(step: Step, i1: nat, rows3: seq<nat>): nat -> seq<(real, real)>
  {
    (i2: nat) => Inner(step, i1, i2, rows3)
  }

  /** The middle loop: the first hit fixed, the second over `rows2`. */
  function Middle(step: Step, i1: nat, rows2: seq<nat>, rows3: seq<nat>): seq<(real, real)>
  {
    Flatten(SecondHit(step, i1, rows3), rows2)
  }

  /** The outer loop's body: the middle loop for a first hit i1. */
  function FirstHit(step: Step, rows2: seq<nat>, rows3: seq<nat>): nat -> seq<(real, real)>
  {
    (i1: nat) => Middle(step, i1, rows2, rows3)
  }

  /** The outer loop: the first hit over `rows1`. */
  function Outer(step: Step, rows1: seq<nat>, rows2: seq<nat>, rows3: seq<nat>): seq<(real, real)>
  {
    Flatten(FirstHit(step, rows2, rows3), rows1)
  }

  /** A result of the three nested loops is exactly a result of one of their
      combinations of hits. */
  lemma NestedMembers(step: Step, rows1: seq<nat>, rows2: seq<nat>, rows3: seq<nat>, x: (real, real))
    ensures x in Outer(step, rows1, rows2, rows3)
      <==> exists k1, k2, k3 :: 0 <= k1 < |rows1| && 0 <= k2 < |rows2| && 0 <= k3 < |rows3|
             && x in step(rows1[k1], rows2[k2], rows3[k3])
  {
    FlattenMembers(FirstHit(step, rows2, rows3), rows1, x);
    if x in Outer(step, rows1, rows2, rows3) {
      var k1 :| 0 <= k1 < |rows1| && x in Middle(step, rows1[k1], rows2, rows3);
      FlattenMembers(SecondHit(step, rows1[k1], rows3), rows2, x);
      var k2 :| 0 <= k2 < |rows2| && x in Inner(step, rows1[k1], rows2[k2], rows3);
      FlattenMembers(ThirdHit(step, rows1[k1], rows2[k2]), rows3, x);
    }
    if k1, k2, k3 :| (0 <= k1 < |rows1| && 0 <= k2 < |rows2| && 0 <= k3 < |rows3|
         && x in step(rows1[k1], rows2[k2], rows3[k3])) {
      FlattenMembers(ThirdHit(step, rows1[k1], rows2[k2]), rows3, x);
      FlattenMembers(SecondHit(step, rows1[k1], rows3), rows2, x);
      assert x in Inner(step, rows1[k1], rows2[k2], rows3);
      assert x in Middle(step, rows1[k1], rows2, rows3);
    }
  }

  /** The results of pattern triple t in sub-group e: the three nested loops
      over the hits on its channels, each channel's hits in time order. */
  function TripletSolutions(s: seq<Hit>, g: seq<int>, e: int, t: Triplet, patterns: map<Triplet, string>,
                            solve: Solver, sl: int): seq<(real, real)>
    requires |g| == |s| && t in patterns
  {
    Outer(PatternStep(s, patterns[t], solve, sl), ChannelRows(s, g, e, t.0, |s|),
          ChannelRows(s, g, e, t.1, |s|), ChannelRows(s, g, e, t.2, |s|))
  }

  /** The combination of three hits on the channels of t in sub-group e
      contributes x exactly when it qualifies with solution x. */
  lemma StepQualifies(s: seq<Hit>, g: seq<int>, e: int, t: Triplet, patterns: map<Triplet, string>,
                      solve: Solver, sl: int, c: Combo, x: (real, real))
    requires |g| == |s| && -4 <= sl < 4
    requires t in patterns && Distinct3(t) && |GroupChannelSet(s, g, e)| >= 3
    requires c.grp == e && c.triplet == t && c.i1 < |s| && c.i2 < |s| && c.i3 < |s|
    requires g[c.i1] == e && g[c.i2] == e && g[c.i3] == e
    requires s[c.i1].norm == t.0 && s[c.i2].norm == t.1 && s[c.i3].norm == t.2
    ensures x in PatternStep(s, patterns[t], solve, sl)(c.i1, c.i2, c.i3)
      <==> Qualifies(s, g, patterns, solve, sl, c, x.0, x.1)
  {
    var r := ComboResult(patterns[t], s[c.i1].timeAbs, s[c.i2].timeAbs, s[c.i3].timeAbs, solve, sl);
    assert PatternStep(s, patterns[t], solve, sl)(c.i1, c.i2, c.i3) == r;
  }

  /** Every result of pattern triple t in sub-group e is the solution of a
      qualifying combination of that triple in that sub-group. */
  lemma TripletSound(s: seq<Hit>, g: seq<int>, e: int, t: Triplet, patterns: map<Triplet, string>,
                     solve: Solver, sl: int, x: (real, real))
    requires |g| == |s| && -4 <= sl < 4
    requires t in patterns && Distinct3(t) && |GroupChannelSet(s, g, e)| >= 3
    requires x in TripletSolutions(s, g, e, t, patterns, solve, sl)
    ensures exists c: Combo :: c.grp == e && c.triplet == t && Qualifies(s, g, patterns, solve, sl, c, x.0, x.1)
  {
    var rows1, rows2, rows3 := ChannelRows(s, g, e, t.0, |s|), ChannelRows(s, g, e, t.1, |s|),
                               ChannelRows(s, g, e, t.2, |s|);
    var step := PatternStep(s, patterns[t], solve, sl);
    NestedMembers(step, rows1, rows2, rows3, x);
    var k1, k2, k3 :| 0 <= k1 < |rows1| && 0 <= k2 < |rows2| && 0 <= k3 < |rows3|
      && x in step(rows1[k1], rows2[k2], rows3[k3]);
    var c := Combo(e, t, rows1[k1], rows2[k2], rows3[k3]);
    StepQualifies(s, g, e, t, patterns, solve, sl, c, x);
  }

  /** The solution of every qualifying combination of pattern triple t in
      sub-group e is among that triple's results. */
  lemma TripletComplete(s: seq<Hit>, g: seq<int>, e: int, t: Triplet, patterns: map<Triplet, string>,
                        solve: Solver, sl: int, c: Combo, x: (real, real))
    requires |g| == |s| && -4 <= sl < 4
    requires t in patterns && Distinct3(t) && |GroupChannelSet(s, g, e)| >= 3
    requires c.grp == e && c.triplet == t && Qualifies(s, g, patterns, solve, sl, c, x.0, x.1)
    ensures x in TripletSolutions(s, g, e, t, patterns, solve, sl)
  {
    var rows1, rows2, rows3 := ChannelRows(s, g, e, t.0, |s|), ChannelRows(s, g, e, t.1, |s|),
                               ChannelRows(s, g, e, t.2, |s|);
    var step := PatternStep(s, patterns[t], solve, sl);
    assert c.i1 in rows1 && c.i2 in rows2 && c.i3 in rows3;
    var k1 :| 0 <= k1 < |rows1| && rows1[k1] == c.i1;
    var k2 :| 0 <= k2 < |rows2| && rows2[k2] == c.i2;
    var k3 :| 0 <= k3 < |rows3| && rows3[k3] == c.i3;
    StepQualifies(s, g, e, t, patterns, solve, sl, c, x);
    NestedMembers(step, rows1, rows2, rows3, x);
  }

  /** Lexicographic order on triples. */
  predicate LexBelow(a: Triplet, b: Triplet)
  {
    a.0 < b.0 || (a.0 == b.0 && (a.1 < b.1 || (a.1 == b.1 && a.2 < b.2)))
  }

  /** The lexicographically least triple of a non-empty set. */
  function LeastTriple(ts: set<Triplet>): (m: Triplet)
    requires ts != {}
    ensures m in ts
    ensures forall t :: t in ts && t != m ==> LexBelow(m, t)
  {
    var firsts := set t | t in ts :: t.0;
    assert |firsts| > 0 by {
      var w :| w in ts;
      assert w.0 in firsts;
    }
    var a := Least(firsts);
    var seconds := set t | t in ts && t.0 == a :: t.1;
    assert |seconds| > 0 by {
      var w :| w in ts && w.0 == a;
      assert w.1 in seconds;
    }
    var b := Least(seconds);
    var thirds := set t | t in ts && t.0 == a && t.1 == b :: t.2;
    assert |thirds| > 0 by {
      var w :| w in ts && w.0 == a && w.1 == b;
      assert w.2 in thirds;
    }
    var c := Least(thirds);
    assert (a, b, c) in ts && forall t :: t in ts && t != (a, b, c) ==> LexBelow((a, b, c), t) by {
      var w :| w in ts && w.0 == a && w.1 == b && w.2 == c;
      assert w == (a, b, c);
      forall t | t in ts && t != (a, b, c)
        ensures LexBelow((a, b, c), t)
      {
        assert t.0 in firsts;
        if t.0 == a {
          assert t.1 in seconds;
          if t.1 == b {
            assert t.2 in thirds;
          }
        }
      }
    }
    (a, b, c)
  }

  /** The triples of a finite set in ascending lexicographic order, each once. */
  function Enumerate(ts: set<Triplet>): (r: seq<Triplet>)
    ensures |r| == |ts|
    ensures forall t :: t in r <==> t in ts
    ensures forall i, j :: 0 <= i < j < |r| ==> LexBelow(r[i], r[j])
    decreases |ts|
  {
    if ts == {} then []
    else
      var m := LeastTriple(ts);
      var rest := Enumerate(ts - {m});
      assert forall j :: 0 <= j < |rest| ==> LexBelow(m, rest[j]) by {
        forall j | 0 <= j < |rest|
          ensures LexBelow(m, rest[j])
        {
          assert rest[j] in rest;
        }
      }
      [m] + rest
  }

  /** The pattern triples of a set of channels in the order they are tried:
      each exactly once, in ascending lexicographic order. */
  function TripletOrder(channels: set<int>, patterns: map<Triplet, string>): (order: seq<Triplet>)
    ensures |order| == |PatternTriplets(channels, patterns)|
    ensures forall t :: t in order <==> t in patterns && Distinct3(t) && t.0 in channels && t.1 in channels && t.2 in channels
    ensures forall i, j :: 0 <= i < j < |order| ==> LexBelow(order[i], order[j])
  {
    Enumerate(PatternTriplets(channels, patterns))
  }

  /** What pattern triple t contributes to its sub-group's results. */
  function TripletStep(s: seq<Hit>, g: seq<int>, e: int, patterns: map<Triplet, string>, solve: Solver, sl: int)
    : Triplet -> seq<(real, real)>
    requires |g| == |s|
  {
    (t: Triplet) => if t in patterns then TripletSolutions(s, g, e, t, patterns, solve, sl) else []
  }

  /** The results of sub-group e: its pattern triples in ascending order. */
  function GroupAll(s: seq<Hit>, g: seq<int>, e: int, patterns: map<Triplet, string>, solve: Solver, sl: int)
    : seq<(real, real)>
    requires |g| == |s| && -4 <= sl < 4
  {
    Flatten(TripletStep(s, g, e, patterns, solve, sl), TripletOrder(GroupChannelSet(s, g, e), patterns))
  }

  /** Every result of a sub-group of at least three channels is the solution
      of a qualifying combination in that sub-group. */
  lemma GroupSound(s: seq<Hit>, g: seq<int>, e: int, patterns: map<Triplet, string>, solve: Solver, sl: int,
                   x: (real, real))
    requires |g| == |s| && -4 <= sl < 4 && |GroupChannelSet(s, g, e)| >= 3
    requires x in GroupAll(s, g, e, patterns, solve, sl)
    ensures exists c: Combo :: c.grp == e && Qualifies(s, g, patterns, solve, sl, c, x.0, x.1)
  {
    var order := TripletOrder(GroupChannelSet(s, g, e), patterns);
    FlattenMembers(TripletStep(s, g, e, patterns, solve, sl), order, x);
    var i :| 0 <= i < |order| && x in TripletStep(s, g, e, patterns, solve, sl)(order[i]);
    assert order[i] in order;
    TripletSound(s, g, e, order[i], patterns, solve, sl, x);
  }

  /** The solution of every qualifying combination in a sub-group is among
      the sub-group's results. */
  lemma GroupComplete(s: seq<Hit>, g: seq<int>, e: int, patterns: map<Triplet, string>, solve: Solver, sl: int,
                      c: Combo, x: (real, real))
    requires |g| == |s| && -4 <= sl < 4
    requires c.grp == e && Qualifies(s, g, patterns, solve, sl, c, x.0, x.1)
    ensures x in GroupAll(s, g, e, patterns, solve, sl)
  {
    var order := TripletOrder(GroupChannelSet(s, g, e), patterns);
    var t := c.triplet;
    assert s[c.i1].norm in GroupChannelSet(s, g, e);
    assert s[c.i2].norm in GroupChannelSet(s, g, e);
    assert s[c.i3].norm in GroupChannelSet(s, g, e);
    assert t in order;
    var i :| 0 <= i < |order| && order[i] == t;
    TripletComplete(s, g, e, t, patterns, solve, sl, c, x);
    assert x in TripletStep(s, g, e, patterns, solve, sl)(order[i]);
    FlattenMembers(TripletStep(s, g, e, patterns, solve, sl), order, x);
  }

  /** The results of sub-groups 0 .. n-1, skipping those with fewer than
      three channels. */
  function Solutions(s: seq<Hit>, g: seq<int>, n: int, patterns: map<Triplet, string>, solve: Solver, sl: int)
    : seq<(real, real)>
    requires |g| == |s| && -4 <= sl < 4
    decreases n
  {
    if n <= 0 then []
    else
      Solutions(s, g, n - 1, patterns, solve, sl)
        + (if |GroupChannelSet(s, g, n - 1)| >= 3 then GroupAll(s, g, n - 1, patterns, solve, sl) else [])
  }

  /** Every result of sub-groups 0 .. n-1 is the solution of a qualifying
      combination in one of them. */
  lemma {:induction false} SolutionsSound(s: seq<Hit>, g: seq<int>, n: int, patterns: map<Triplet, string>,
                                          solve: Solver, sl: int, x: (real, real))
    requires |g| == |s| && -4 <= sl < 4
    requires x in Solutions(s, g, n, patterns, solve, sl)
    ensures exists c: Combo :: 0 <= c.grp < n && Qualifies(s, g, patterns, solve, sl, c, x.0, x.1)
    decreases n
  {
    if x in Solutions(s, g, n - 1, patterns, solve, sl) {
      SolutionsSound(s, g, n - 1, patterns, solve, sl, x);
    } else {
      GroupSound(s, g, n - 1, patterns, solve, sl, x);
    }
  }

  /** The solution of every qualifying combination in sub-groups 0 .. n-1 is
      among their results. */
  lemma {:induction false} SolutionsComplete(s: seq<Hit>, g: seq<int>, n: int, patterns: map<Triplet, string>,
                                             solve: Solver, sl: int, c: Combo, x: (real, real))
    requires |g| == |s| && -4 <= sl < 4
    requires 0 <= c.grp < n && Qualifies(s, g, patterns, solve, sl, c, x.0, x.1)
    ensures x in Solutions(s, g, n, patterns, solve, sl)
    decreases n
  {
    if c.grp < n - 1 {
      SolutionsComplete(s, g, n - 1, patterns, solve, sl, c, x);
    } else {
      GroupComplete(s, g, n - 1, patterns, solve, sl, c, x);
    }
  }

  /** A chamber's hits sorted by absolute time. */
  function TimeSorted(hits: seq<Hit>): (s: seq<Hit>)
    ensures |s| == |hits| && multiset(s) == multiset(hits)
  {
    SortBy(hits, TimeAbs)
  }

  /** The sub-group id of each time-sorted hit: gaps above 1.1 x TDRIFT start a new one. */
  function SubGroups(hits: seq<Hit>): (g: seq<int>)
    ensures |g| == |hits|
  {
    GroupIds(Times(TimeSorted(hits)), EVENT_WIDTH_MAX)
  }

  /** meantimer_results as a value: the results of every sub-group of the
      time-sorted hits, in sub-group order. */
  function MeantimerSolutions(hits: seq<Hit>, patterns: map<Triplet, string>, solve: Solver): seq<(real, real)>
    requires |hits| > 0 && -4 <= hits[0].sl < 4
  {
    var g := SubGroups(hits);
    Solutions(TimeSorted(hits), g, g[|g| - 1] + 1, patterns, solve, hits[0].sl)
  }

  /** With group ids between 0 and the last one, a result of all sub-groups
      is exactly the solution of a qualifying combination. */
  lemma AllGroupsMember(s: seq<Hit>, g: seq<int>, patterns: map<Triplet, string>, solve: Solver, sl: int,
                        x: (real, real))
    requires |g| == |s| > 0 && -4 <= sl < 4
    requires forall i :: 0 <= i < |g| ==> 0 <= g[i] <= g[|g| - 1]
    ensures x in Solutions(s, g, g[|g| - 1] + 1, patterns, solve, sl) <==> Solution(s, g, patterns, solve, sl, x.0, x.1)
  {
    var n := g[|g| - 1] + 1;
    if x in Solutions(s, g, n, patterns, solve, sl) {
      SolutionsSound(s, g, n, patterns, solve, sl, x);
      var c: Combo :| 0 <= c.grp < n && Qualifies(s, g, patterns, solve, sl, c, x.0, x.1);
    }
    if Solution(s, g, patterns, solve, sl, x.0, x.1) {
      var c: Combo :| Qualifies(s, g, patterns, solve, sl, c, x.0, x.1);
      assert c.grp == g[c.i1];
      SolutionsComplete(s, g, n, patterns, solve, sl, c, x);
    }
  }

  /** A chamber's sub-group ids run from 0 to the last one. */
  lemma SubGroupsBounded(hits: seq<Hit>)
    requires |hits| > 0
    ensures var g := SubGroups(hits); forall i :: 0 <= i < |g| ==> 0 <= g[i] <= g[|g| - 1]
  {
    DriftCoversHalfCell();
    forall i | 0 <= i < |hits|
      ensures 0 <= SubGroups(hits)[i] <= SubGroups(hits)[|hits| - 1]
    {
      GroupIdsMonotone(Times(TimeSorted(hits)), EVENT_WIDTH_MAX, i, |hits| - 1);
    }
  }

  /** A (t0, angle) is a meantimer result of a chamber's hits exactly when it
      is the solution of a qualifying combination of them. */
  lemma MeantimerMember(hits: seq<Hit>, patterns: map<Triplet, string>, solve: Solver, x: (real, real))
    requires |hits| > 0 && -4 <= hits[0].sl < 4
    ensures x in MeantimerSolutions(hits, patterns, solve)
      <==> Solution(TimeSorted(hits), SubGroups(hits), patterns, solve, hits[0].sl, x.0, x.1)
  {
    SubGroupsBounded(hits);
    AllGroupsMember(TimeSorted(hits), SubGroups(hits), patterns, solve, hits[0].sl, x);
  }

  /** The same, for every (t0, angle) at once. */
  lemma MeantimerSolutionsExact(hits: seq<Hit>, patterns: map<Triplet, string>, solve: Solver)
    requires |hits| > 0 && -4 <= hits[0].sl < 4
    ensures forall x :: (x in MeantimerSolutions(hits, patterns, solve)
      <==> Solution(TimeSorted(hits), SubGroups(hits), patterns, solve, hits[0].sl, x.0, x.1))
  {
    forall x
      ensures x in MeantimerSolutions(hits, patterns, solve)
        <==> Solution(TimeSorted(hits), SubGroups(hits), patterns, solve, hits[0].sl, x.0, x.1)
    {
      MeantimerMember(hits, patterns, solve, x);
    }
  }

  /** `set(permutations(channels, 3)) & PATTERN_NAMES.keys()`. */
  function PatternTriplets(channels: set<int>, patterns: map<Triplet, string>): (ts: set<Triplet>)
    ensures forall t :: t in ts <==> t in patterns && Distinct3(t) && t.0 in channels && t.1 in channels && t.2 in channels
  {
    set t | t in patterns.Keys && Distinct3(t) && t.0 in channels && t.1 in channels && t.2 in channels
  }

  /** Qualifying results keep their angles strictly inside the chamber's
      window. */
  lemma QualifiedAngles(s: seq<Hit>, g: seq<int>, patterns: map<Triplet, string>, solve: Solver, sl: int,
                        tzeros: seq<real>, angles: seq<real>)
    requires |g| == |s| && -4 <= sl < 4 && |tzeros| == |angles|
    requires AllQualify(s, g, patterns, solve, sl, tzeros, angles)
    ensures forall k :: 0 <= k < |angles| ==> AngleWindow(sl).0 < angles[k] < AngleWindow(sl).1
  {
    forall k | 0 <= k < |angles|
      ensures AngleWindow(sl).0 < angles[k] < AngleWindow(sl).1
    {
      assert Solution(s, g, patterns, solve, sl, tzeros[k], angles[k]);
      var c :| Qualifies(s, g, patterns, solve, sl, c, tzeros[k], angles[k]);
    }
  }

  /** A sub-group with fewer than three distinct channels has no pattern
      triple, so dropping such sub-groups never changes the results. */
  lemma FewChannelsNoTriplet(channels: set<int>, patterns: map<Triplet, string>)
    requires |channels| < 3
    ensures PatternTriplets(channels, patterns) == {}
  {
    if t :| t in PatternTriplets(channels, patterns) {
      var three := {t.0, t.1, t.2};
      assert |three| == 3;
      assert three <= channels;
      SubsetCard(three, channels);
    }
  }

  /** A result is only ever produced where a pattern triple is present. */
  lemma SolutionNeedsPattern(s: seq<Hit>, g: seq<int>, patterns: map<Triplet, string>, solve: Solver, sl: int,
                             t0: real, angle: real)
    requires |g| == |s| && -4 <= sl < 4
    requires Solution(s, g, patterns, solve, sl, t0, angle)
    ensures PatternPresent(s, g, patterns)
  {
    var c :| Qualifies(s, g, patterns, solve, sl, c, t0, angle);
    assert c.triplet in patterns;
  }

  /** Lists equal to the meantimer results hold exactly the solutions of the
      qualifying combinations, are empty when no sub-group holds a pattern
      triple, and keep every angle inside the chamber's window. */
  lemma ResultsMeaning(hits: seq<Hit>, patterns: map<Triplet, string>, solve: Solver,
                       tzeros: seq<real>, angles: seq<real>)
    requires |hits| > 0 && -4 <= hits[0].sl < 4 && |tzeros| == |angles|
    requires Zip(tzeros, angles) == MeantimerSolutions(hits, patterns, solve)
    ensures AllQualify(TimeSorted(hits), SubGroups(hits), patterns, solve, hits[0].sl, tzeros, angles)
    ensures forall t0, angle ::
      (Solution(TimeSorted(hits), SubGroups(hits), patterns, solve, hits[0].sl, t0, angle)
       ==> (t0, angle) in Zip(tzeros, angles))
    ensures !PatternPresent(TimeSorted(hits), SubGroups(hits), patterns) ==> tzeros == [] && angles == []
    ensures forall k :: 0 <= k < |angles| ==> AngleWindow(hits[0].sl).0 < angles[k] < AngleWindow(hits[0].sl).1
  {
    ResultsQualify(hits, patterns, solve, tzeros, angles);
    ResultsComplete(hits, patterns, solve, tzeros, angles);
    if tzeros != [] {
      SolutionNeedsPattern(TimeSorted(hits), SubGroups(hits), patterns, solve, hits[0].sl, tzeros[0], angles[0]);
    }
    QualifiedAngles(TimeSorted(hits), SubGroups(hits), patterns, solve, hits[0].sl, tzeros, angles);
  }

  /** Lists equal to the meantimer results hold only solutions. */
  lemma ResultsQualify(hits: seq<Hit>, patterns: map<Triplet, string>, solve: Solver,
                       tzeros: seq<real>, angles: seq<real>)
    requires |hits| > 0 && -4 <= hits[0].sl < 4 && |tzeros| == |angles|
    requires Zip(tzeros, angles) == MeantimerSolutions(hits, patterns, solve)
    ensures AllQualify(TimeSorted(hits), SubGroups(hits), patterns, solve, hits[0].sl, tzeros, angles)
  {
    forall k | 0 <= k < |tzeros|
      ensures Solution(TimeSorted(hits), SubGroups(hits), patterns, solve, hits[0].sl, tzeros[k], angles[k])
    {
      assert Zip(tzeros, angles)[k] in Zip(tzeros, angles);
      MeantimerMember(hits, patterns, solve, Zip(tzeros, angles)[k]);
    }
  }

  /** Lists equal to the meantimer results hold every solution. */
  lemma ResultsComplete(hits: seq<Hit>, patterns: map<Triplet, string>, solve: Solver,
                        tzeros: seq<real>, angles: seq<real>)
    requires |hits| > 0 && -4 <= hits[0].sl < 4 && |tzeros| == |angles|
    requires Zip(tzeros, angles) == MeantimerSolutions(hits, patterns, solve)
    ensures forall t0, angle ::
      (Solution(TimeSorted(hits), SubGroups(hits), patterns, solve, hits[0].sl, t0, angle)
       ==> (t0, angle) in Zip(tzeros, angles))
  {
    forall t0, angle | Solution(TimeSorted(hits), SubGroups(hits), patterns, solve, hits[0].sl, t0, angle)
      ensures (t0, angle) in Zip(tzeros, angles)
    {
      MeantimerMember(hits, patterns, solve, (t0, angle));
    }
  }

  /** The innermost loop of a pattern triple (over t3), appending to the
      lists it is given. */
  method ThirdHits(s: seq<Hit>, pattern: string, i1: nat, i2: nat, rows3: seq<nat>, solve: Solver, sl: int,
                   tz0: seq<real>, an0: seq<real>) returns (tzeros: seq<real>, angles: seq<real>)
    requires i1 < |s| && i2 < |s| && (forall k :: 0 <= k < |rows3| ==> rows3[k] < |s|)
    requires -4 <= sl < 4 && |tz0| == |an0|
    ensures |tzeros| == |angles|
    ensures Zip(tzeros, angles) == Zip(tz0, an0) + Inner(PatternStep(s, pattern, solve, sl), i1, i2, rows3)
  {
    ghost var step := PatternStep(s, pattern, solve, sl);
    var (lo, hi) := AngleWindow(sl);
    tzeros, angles := tz0, an0;
    for c := 0 to |rows3|
      invariant |tzeros| == |angles|
      invariant Zip(tzeros, angles) == Zip(tz0, an0) + Inner(step, i1, i2, rows3[..c])
    {
      var t1, t2, t3 := s[i1].timeAbs, s[i2].timeAbs, s[rows3[c]].timeAbs;
      ghost var found := ComboResult(pattern, t1, t2, t3, solve, sl);
      assert ThirdHit(step, i1, i2)(rows3[c]) == found;
      FlattenSnoc(ThirdHit(step, i1, i2), rows3, c);
      if Spread(t1, t2, t3) <= EVENT_WIDTH_MAX {
        var (meanTime, angle) := solve(pattern, t1, t2, t3);
        if lo < angle < hi {
          assert found == [(meanTime, angle)];
          ZipConcat(tzeros, angles, [meanTime], [angle]);
          tzeros, angles := tzeros + [meanTime], angles + [angle];
        }
      }
    }
    assert rows3[..|rows3|] == rows3;
  }

  /** The middle loop of a pattern triple (over t2), appending to the lists
      it is given. */
  method SecondHits(s: seq<Hit>, pattern: string, i1: nat, rows2: seq<nat>, rows3: seq<nat>, solve: Solver,
                    sl: int, tz0: seq<real>, an0: seq<real>) returns (tzeros: seq<real>, angles: seq<real>)
    requires i1 < |s| && (forall k :: 0 <= k < |rows2| ==> rows2[k] < |s|)
    requires (forall k :: 0 <= k < |rows3| ==> rows3[k] < |s|)
    requires -4 <= sl < 4 && |tz0| == |an0|
    ensures |tzeros| == |angles|
    ensures Zip(tzeros, angles) == Zip(tz0, an0) + Middle(PatternStep(s, pattern, solve, sl), i1, rows2, rows3)
  {
    ghost var step := PatternStep(s, pattern, solve, sl);
    tzeros, angles := tz0, an0;
    for b := 0 to |rows2|
      invariant |tzeros| == |angles|
      invariant Zip(tzeros, angles) == Zip(tz0, an0) + Middle(step, i1, rows2[..b], rows3)
    {
      ghost var before := Zip(tzeros, angles);
      tzeros, angles := ThirdHits(s, pattern, i1, rows2[b], rows3, solve, sl, tzeros, angles);
      FlattenSnoc(SecondHit(step, i1, rows3), rows2, b);
      assert Zip(tzeros, angles) == before + Inner(step, i1, rows2[b], rows3);
    }
    assert rows2[..|rows2|] == rows2;
  }

  /** The combinations of one pattern triple in sub-group e: three nested
      loops over the hit times on its three channels, in time order. */
  method TripletResults(s: seq<Hit>, g: seq<int>, e: int, t: Triplet, patterns: map<Triplet, string>,
                        solve: Solver, sl: int) returns (tzeros: seq<real>, angles: seq<real>)
    requires |g| == |s| && -4 <= sl < 4 && t in patterns
    ensures |tzeros| == |angles|
    ensures Zip(tzeros, angles) == TripletSolutions(s, g, e, t, patterns, solve, sl)
  {
    var rows1 := ChannelRows(s, g, e, t.0, |s|);
    var rows2 := ChannelRows(s, g, e, t.1, |s|);
    var rows3 := ChannelRows(s, g, e, t.2, |s|);
    var pattern := patterns[t];
    ghost var step := PatternStep(s, pattern, solve, sl);
    tzeros, angles := [], [];
    for a := 0 to |rows1|
      invariant |tzeros| == |angles|
      invariant Zip(tzeros, angles) == Outer(step, rows1[..a], rows2, rows3)
    {
      ghost var before := Zip(tzeros, angles);
      tzeros, angles := SecondHits(s, pattern, rows1[a], rows2, rows3, solve, sl, tzeros, angles);
      FlattenSnoc(FirstHit(step, rows2, rows3), rows1, a);
      assert Zip(tzeros, angles) == before + Middle(step, rows1[a], rows2, rows3);
    }
    assert rows1[..|rows1|] == rows1;
  }

  /** The results of every pattern triple of sub-group e, the triples taken
      in ascending lexicographic order. */
  method GroupResults(s: seq<Hit>, g: seq<int>, e: int, patterns: map<Triplet, string>, solve: Solver, sl: int)
    returns (tzeros: seq<real>, angles: seq<real>)
    requires |g| == |s| && -4 <= sl < 4
    ensures |tzeros| == |angles|
    ensures Zip(tzeros, angles) == GroupAll(s, g, e, patterns, solve, sl)
  {
    var order := TripletOrder(GroupChannelSet(s, g, e), patterns);
    tzeros, angles := TripletsOver(s, g, e, order, patterns, solve, sl);
  }

  /** The loop over the pattern triples `order` of sub-group e. */
  method TripletsOver(s: seq<Hit>, g: seq<int>, e: int, order: seq<Triplet>, patterns: map<Triplet, string>,
                      solve: Solver, sl: int)
    returns (tzeros: seq<real>, angles: seq<real>)
    requires |g| == |s| && -4 <= sl < 4
    requires forall t :: t in order ==> t in patterns
    ensures |tzeros| == |angles|
    ensures Zip(tzeros, angles) == Flatten(TripletStep(s, g, e, patterns, solve, sl), order)
  {
    tzeros, angles := [], [];
    for i := 0 to |order|
      invariant |tzeros| == |angles|
      invariant Zip(tzeros, angles) == Flatten(TripletStep(s, g, e, patterns, solve, sl), order[..i])
    {
      assert order[i] in order;
      var tz, an := TripletResults(s, g, e, order[i], patterns, solve, sl);
      ZipConcat(tzeros, angles, tz, an);
      FlattenSnoc(TripletStep(s, g, e, patterns, solve, sl), order, i);
      tzeros, angles := tzeros + tz, angles + an;
    }
    assert order[..|order|] == order;
  }

  /** The loop over sub-groups 0 .. n-1: those with fewer than three
      distinct channels are skipped, the others' results appended in order. */
  method SubGroupResults(s: seq<Hit>, g: seq<int>, n: int, patterns: map<Triplet, string>, solve: Solver, sl: int)
    returns (tzeros: seq<real>, angles: seq<real>)
    requires |g| == |s| && -4 <= sl < 4 && n >= 0
    ensures |tzeros| == |angles|
    ensures Zip(tzeros, angles) == Solutions(s, g, n, patterns, solve, sl)
  {
    tzeros, angles := [], [];
    for e := 0 to n
      invariant |tzeros| == |angles|
      invariant Zip(tzeros, angles) == Solutions(s, g, e, patterns, solve, sl)
    {
      var channels := GroupChannelSet(s, g, e);
      if |channels| >= 3 {
        var tz, an := GroupResults(s, g, e, patterns, solve, sl);
        ZipConcat(tzeros, angles, tz, an);
        tzeros, angles := tzeros + tz, angles + an;
      }
    }
  }

  /** meantimer_results on the hits of one chamber (SL taken from the first
      hit): the results of the sub-groups in order. Every returned
      (t0, angle) is the solution of a qualifying combination, every such
      solution is returned, both lists are empty when no sub-group holds a
      pattern triple, and every angle lies inside the chamber's window. */
  method MeantimerResults(hits: seq<Hit>, patterns: map<Triplet, string>, solve: Solver)
    returns (tzeros: seq<real>, angles: seq<real>)
    requires |hits| > 0 && -4 <= hits[0].sl < 4
    ensures |tzeros| == |angles|
    ensures Zip(tzeros, angles) == MeantimerSolutions(hits, patterns, solve)
    ensures AllQualify(TimeSorted(hits), SubGroups(hits), patterns, solve, hits[0].sl, tzeros, angles)
    ensures forall t0, angle ::
      (Solution(TimeSorted(hits), SubGroups(hits), patterns, solve, hits[0].sl, t0, angle)
       ==> (t0, angle) in Zip(tzeros, angles))
    ensures !PatternPresent(TimeSorted(hits), SubGroups(hits), patterns) ==> tzeros == [] && angles == []
    ensures forall k :: 0 <= k < |angles| ==>
      AngleWindow(hits[0].sl).0 < angles[k] < AngleWindow(hits[0].sl).1
  {
    var sl := hits[0].sl;
    var s := TimeSorted(hits);
    var g := SubGroups(hits);
    SubGroupsBounded(hits);
    tzeros, angles := SubGroupResults(s, g, g[|g| - 1] + 1, patterns, solve, sl);
    ResultsMeaning(hits, patterns, solve, tzeros, angles);
  }
}
