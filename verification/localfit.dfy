/** The local (single-chamber) line fit of the reconstruction
    (process_hits_v2.py, removezeros, allowed_slope and find_fit): the points
    of a chamber are grouped by height, every combination of one point per
    height is fitted with a straight line, and the combination with the best
    residual among those with an allowed slope is kept. The least-squares fit
    itself (`np.polyfit`) is a parameter. */
module LocalFit {
  import opened Config
  import opened Common

  /** A point of a chamber: a drift position x and the wire height y. */
  type Point = (real, real)

  /** A row of the point buffers that was never written. */
  predicate IsZero(p: Point)
  {
    p.0 == 0.0 && p.1 == 0.0
  }

  /** removezeros: the rows that are not entirely zero, in order. */
  function RemoveZeros(pts: seq<Point>): (r: seq<Point>)
    ensures |r| <= |pts|
    ensures forall i :: 0 <= i < |r| ==> !IsZero(r[i]) && r[i] in pts
    ensures forall p :: p in pts && !IsZero(p) ==> p in r
  {
    if pts == [] then []
    else
      assert pts == [pts[0]] + pts[1..];
      var rest := RemoveZeros(pts[1..]);
      if IsZero(pts[0]) then rest else [pts[0]] + rest
  }

  /** Removing the zero rows of two blocks one after the other is removing
      them from the whole buffer. */
  lemma {:induction false} RemoveZerosAppend(a: seq<Point>, b: seq<Point>)
    ensures RemoveZeros(a + b) == RemoveZeros(a) + RemoveZeros(b)
  {
    if a != [] {
      assert (a + b)[0] == a[0] && (a + b)[1..] == a[1..] + b;
      RemoveZerosAppend(a[1..], b);
    } else {
      assert a + b == b;
    }
  }

  /** A buffer of zero rows leaves nothing. */
  lemma {:induction false} RemoveZerosOfZeros(n: nat)
    ensures RemoveZeros(seq(n, _ => (0.0, 0.0))) == []
  {
    if n > 0 {
      assert seq(n, _ => (0.0, 0.0))[1..] == seq(n - 1, _ => (0.0, 0.0));
      RemoveZerosOfZeros(n - 1);
    }
  }

  /** A list without zero rows is kept as it is; in particular removezeros is
      idempotent. */
  lemma {:induction false} RemoveZerosKeepsNonZero(pts: seq<Point>)
    requires forall i :: 0 <= i < |pts| ==> !IsZero(pts[i])
    ensures RemoveZeros(pts) == pts
  {
    if pts != [] {
      RemoveZerosKeepsNonZero(pts[1..]);
    }
  }

  /** `np.around` to an integer: the nearest integer, a half going to the even
      neighbour. */
  function Around(v: real): (r: int)
    ensures v - 0.5 <= r as real <= v + 0.5
    ensures r == 0 <==> -0.5 <= v <= 0.5
  {
    var f := v.Floor;
    var frac := v - f as real;
    if frac < 0.5 then f
    else if frac > 0.5 then f + 1
    else if f % 2 == 0 then f
    else f + 1
  }

  /** A value halfway between two integers rounds to the even one. */
  lemma AroundHalfToEven(n: int)
    ensures Around(n as real + 0.5) % 2 == 0
    ensures Around(n as real + 0.5) == n || Around(n as real + 0.5) == n + 1
  {
    assert (n as real + 0.5).Floor == n;
  }

  /** The distance between the largest and the smallest value. */
  function Spread(s: seq<real>): (d: real)
    requires |s| > 0
    ensures d >= 0.0
  {
    MaxOf(s) - MinOf(s)
  }

  /** The slope allowed_slope computes from the spreads of the positions and
      of the heights: 100 when the height spread rounds to 0. */
  function Slope(dx: real, dy: real): real
  {
    if Around(dy) == 0 then 100.0 else dx / dy
  }

  /** The slope passes the gate exactly when the height spread is above 0.5
      and the position spread is at most the largest allowed slope times the
      height spread. */
  lemma SlopeGate(dx: real, dy: real)
    requires dy >= 0.0
    ensures !(Slope(dx, dy) > MAX_SLOPE) <==> dy > 0.5 && dx <= MAX_SLOPE * dy
  {
    if dy > 0.5 {
      assert dx / dy * dy == dx;
      if dx / dy <= MAX_SLOPE {
        assert dx / dy * dy <= MAX_SLOPE * dy;
      } else {
        assert dx / dy * dy > MAX_SLOPE * dy;
      }
    }
  }

  /** allowed_slope: the line through the ends of the fitted points makes at
      most the largest allowed angle with the vertical. A height spread that
      rounds to 0 gives slope 100, which is rejected. */
  function AllowedSlope(xs: seq<real>, ys: seq<real>): (ok: bool)
    requires |xs| > 0 && |ys| > 0
    ensures ok <==> Spread(ys) > 0.5 && Spread(xs) <= MAX_SLOPE * Spread(ys)
  {
    var x := SortBy(xs, Id);
    var y := SortBy(ys, Id);
    SortedEnds(xs);
    SortedEnds(ys);
    assert x[|x| - 1] - x[0] == Spread(xs) && y[|y| - 1] - y[0] == Spread(ys);
    SlopeGate(Spread(xs), Spread(ys));
    !(Slope(x[|x| - 1] - x[0], y[|y| - 1] - y[0]) > MAX_SLOPE)
  }

  /** The x values of a list of points. */
  function Xs(pts: seq<Point>): (r: seq<real>)
    ensures |r| == |pts| && forall i :: 0 <= i < |pts| ==> r[i] == pts[i].0
  {
    seq(|pts|, i requires 0 <= i < |pts| => pts[i].0)
  }

  /** The heights of a list of points. */
  function Ys(pts: seq<Point>): (r: seq<real>)
    ensures |r| == |pts| && forall i :: 0 <= i < |pts| ==> r[i] == pts[i].1
  {
    seq(|pts|, i requires 0 <= i < |pts| => pts[i].1)
  }

  /** A sorted sequence without its repeated values. */
  function Dedup(s: seq<real>): (r: seq<real>)
    requires forall i, j :: 0 <= i < j < |s| ==> s[i] <= s[j]
    ensures forall v :: v in r <==> v in s
    ensures forall i, j :: 0 <= i < j < |r| ==> r[i] < r[j]
  {
    if |s| <= 1 then s
    else
      var rest := Dedup(s[1..]);
      assert forall i :: 0 <= i < |rest| ==> rest[i] in s[1..];
      if s[0] == s[1] then
        assert s == [s[0]] + s[1..];
        rest
      else [s[0]] + rest
  }

  /** The distinct heights of the points, ascending (the keys of
      `groupby('y')`). */
  function Heights(pts: seq<Point>): (r: seq<real>)
    ensures forall i, j :: 0 <= i < j < |r| ==> r[i] < r[j]
    ensures forall v :: v in r <==> exists p :: p in pts && p.1 == v
  {
    var ys := Ys(pts);
    var sorted := SortBy(ys, Id);
    assert forall i, j :: 0 <= i < j < |sorted| ==> Id(sorted[i]) <= Id(sorted[j]);
    forall v ensures v in sorted <==> exists p :: p in pts && p.1 == v {
      assert v in sorted <==> v in multiset(sorted);
      assert v in ys <==> v in multiset(ys);
      if v in ys {
        var i :| 0 <= i < |ys| && ys[i] == v;
        assert pts[i] in pts;
      }
      if p :| p in pts && p.1 == v {
        var i :| 0 <= i < |pts| && pts[i] == p;
        assert ys[i] == v;
      }
    }
    Dedup(sorted)
  }

  /** The points at height `h`, in their order. */
  function AtHeight(pts: seq<Point>, h: real): (r: seq<Point>)
    ensures forall p :: p in r <==> p in pts && p.1 == h
  {
    if pts == [] then []
    else
      assert pts == [pts[0]] + pts[1..];
      var rest := AtHeight(pts[1..], h);
      if pts[0].1 == h then [pts[0]] + rest else rest
  }

  /** `groupby('y')`: the points of each height, heights ascending. */
  function Groups(pts: seq<Point>): (gs: seq<seq<Point>>)
    ensures |gs| == |Heights(pts)|
    ensures |pts| > 0 ==> |gs| > 0
    ensures forall k :: 0 <= k < |gs| ==> gs[k] == AtHeight(pts, Heights(pts)[k])
  {
    var hs := Heights(pts);
    assert |pts| > 0 ==> |hs| > 0 by {
      if |pts| > 0 {
        assert pts[0] in pts;
        assert pts[0].1 in hs;
      }
    }
    seq(|hs|, k requires 0 <= k < |hs| => AtHeight(pts, hs[k]))
  }

  /** Every group is non-empty, and a point belongs to group k exactly when
      its height is the k-th height. */
  lemma GroupsPartition(pts: seq<Point>)
    ensures var gs := Groups(pts); var hs := Heights(pts);
      forall k :: 0 <= k < |gs| ==>
        && |gs[k]| > 0
        && forall p :: p in gs[k] <==> p in pts && p.1 == hs[k]
  {
    var gs := Groups(pts);
    var hs := Heights(pts);
    forall k | 0 <= k < |gs| ensures |gs[k]| > 0 {
      assert hs[k] in hs;
      var p :| p in pts && p.1 == hs[k];
      assert p in gs[k];
    }
  }

  /** Each point of `ps` in front of each tail, `ps` varying slowest. */
  function Prepend(ps: seq<Point>, tails: seq<seq<Point>>): (r: seq<seq<Point>>)
    ensures |r| == |ps| * |tails|
  {
    if ps == [] then []
    else seq(|tails|, j requires 0 <= j < |tails| => [ps[0]] + tails[j]) + Prepend(ps[1..], tails)
  }

  /** A combination is in Prepend exactly when its head is one of the points
      and its tail one of the tails. */
  lemma {:induction false} PrependMembers(ps: seq<Point>, tails: seq<seq<Point>>, c: seq<Point>)
    ensures c in Prepend(ps, tails) <==> |c| > 0 && c[0] in ps && c[1..] in tails
  {
    if ps != [] {
      var first := seq(|tails|, j requires 0 <= j < |tails| => [ps[0]] + tails[j]);
      PrependMembers(ps[1..], tails, c);
      assert Prepend(ps, tails) == first + Prepend(ps[1..], tails);
      if c in first {
        var j :| 0 <= j < |tails| && first[j] == c;
        assert c[1..] == tails[j];
      }
      if |c| > 0 && c[0] == ps[0] && c[1..] in tails {
        var j :| 0 <= j < |tails| && tails[j] == c[1..];
        assert c == [ps[0]] + c[1..];
        assert first[j] == c;
      }
      if |c| > 0 && c[0] in ps && c[0] != ps[0] {
        assert c[0] in ps[1..];
      }
    }
  }

  /** `itertools.product(*groups)`: every choice of one point per group, in
      lexicographic order. */
  function Product(gs: seq<seq<Point>>): (r: seq<seq<Point>>)
    ensures forall c :: c in r ==> |c| == |gs|
  {
    if gs == [] then [[]]
    else
      var tails := Product(gs[1..]);
      forall c | c in Prepend(gs[0], tails) ensures |c| == |gs| {
        PrependMembers(gs[0], tails, c);
      }
      Prepend(gs[0], tails)
  }

  /** The combinations of Product are exactly the choices of one point from
      each group. */
  lemma {:induction false} ProductMembers(gs: seq<seq<Point>>, c: seq<Point>)
    ensures c in Product(gs) <==> |c| == |gs| && forall k :: 0 <= k < |gs| ==> c[k] in gs[k]
  {
    if gs != [] {
      PrependMembers(gs[0], Product(gs[1..]), c);
      if |c| > 0 {
        ProductMembers(gs[1..], c[1..]);
        if |c| == |gs| && c[1..] in Product(gs[1..]) {
          forall k | 0 < k < |gs| ensures c[k] in gs[k] {
            assert c[k] == c[1..][k - 1] && gs[k] == gs[1..][k - 1];
          }
        }
        if |c| == |gs| && forall k :: 0 <= k < |gs| ==> c[k] in gs[k] {
          forall k | 0 <= k < |gs| - 1 ensures c[1..][k] in gs[1..][k] {
            assert c[1..][k] == c[k + 1];
          }
        }
      }
    }
  }

  /** The number of combinations. */
  function Combinations(gs: seq<seq<Point>>): nat
  {
    if gs == [] then 1 else |gs[0]| * Combinations(gs[1..])
  }

  /** Product lists every combination once per choice. */
  lemma {:induction false} ProductSize(gs: seq<seq<Point>>)
    ensures |Product(gs)| == Combinations(gs)
  {
    if gs != [] {
      ProductSize(gs[1..]);
    }
  }

  /** The straight line x = slope * y + intercept. */
  datatype Line = Line(slope: real, intercept: real)

  /** `np.polyfit(ys, xs, 1, full=True)`: the fitted line and the residual
      sum of squares, absent when the fit is exact by construction. */
  type Fitter = (seq<real>, seq<real>) -> (Line, Option<real>)

  /** `np.poly1d(fit)(ys)`. */
  function Eval(l: Line, ys: seq<real>): (r: seq<real>)
    ensures |r| == |ys|
  {
    seq(|ys|, i requires 0 <= i < |ys| => l.slope * ys[i] + l.intercept)
  }

  /** The residual per degree of freedom (two), an absent residual counting as 0. */
  function Score(res: Option<real>): real
  {
    if res.None? then 0.0 else res.value / 2.0
  }

  /** The line fitted to a combination. */
  function FitOf(c: seq<Point>, fit: Fitter): Line
  {
    fit(Ys(c), Xs(c)).0
  }

  /** The residual of the line fitted to a combination. */
  function ResidualOf(c: seq<Point>, fit: Fitter): Option<real>
  {
    fit(Ys(c), Xs(c)).1
  }

  /** The fitted line of a combination passes the slope gate. */
  predicate Allowed(c: seq<Point>, fit: Fitter)
    requires |c| > 0
  {
    AllowedSlope(Eval(FitOf(c, fit), Ys(c)), Ys(c))
  }

  /** What one pass of the loop of find_fit learns about a combination: its
      line, its residual and whether the slope gate lets it through. */
  datatype Trial = Trial(combo: seq<Point>, line: Line, residual: Option<real>, allowed: bool)

  /** The trial of one combination. */
  function TrialOf(c: seq<Point>, fit: Fitter): Trial
    requires |c| > 0
  {
    Trial(c, FitOf(c, fit), ResidualOf(c, fit), Allowed(c, fit))
  }

  /** The trial of each combination, in order. */
  function Trials(combos: seq<seq<Point>>, fit: Fitter): (ts: seq<Trial>)
    requires forall i :: 0 <= i < |combos| ==> |combos[i]| > 0
    ensures |ts| == |combos|
  {
    if combos == [] then []
    else [TrialOf(combos[0], fit)] + Trials(combos[1..], fit)
  }

  /** The trial of combination `i`. */
  lemma {:induction false} TrialAt(combos: seq<seq<Point>>, fit: Fitter, i: nat)
    requires forall i :: 0 <= i < |combos| ==> |combos[i]| > 0
    requires i < |combos|
    ensures Trials(combos, fit)[i] == TrialOf(combos[i], fit)
  {
    var rest := Trials(combos[1..], fit);
    assert Trials(combos, fit) == [TrialOf(combos[0], fit)] + rest;
    if i > 0 {
      TrialAt(combos[1..], fit, i - 1);
      assert combos[1..][i - 1] == combos[i];
      assert Trials(combos, fit)[i] == rest[i - 1];
    }
  }

  /** The running best of find_fit: `chisq_best` and the index of the
      combination it belongs to, if any. */
  datatype Best = Best(chisq: real, pick: Option<nat>)

  /** One pass of the loop of find_fit on trial `i`: an allowed combination
      replaces the best when its fit is exact, or when its score is below the
      best one. */
  function Step(b: Best, t: Trial, i: nat): Best
  {
    if !t.allowed then b
    else if t.residual.None? then Best(0.0, Some(i))
    else if t.residual.value / 2.0 < b.chisq then Best(t.residual.value / 2.0, Some(i))
    else b
  }

  /** The running best after the first `n` trials. */
  function Search(ts: seq<Trial>, n: nat): (b: Best)
    requires n <= |ts|
    ensures b.pick.Some? ==> b.pick.value < n
  {
    if n == 0 then Best(CHISQ_LOCAL, None)
    else Step(Search(ts, n - 1), ts[n - 1], n - 1)
  }

  /** Without a pick the best score is the ceiling 20; a pick is an allowed
      trial among the first `n` whose score is the best score, below 20. */
  lemma {:induction false} SearchPick(ts: seq<Trial>, n: nat)
    requires n <= |ts|
    ensures var b := Search(ts, n);
      && (b.pick.None? ==> b.chisq == CHISQ_LOCAL)
      && (b.pick.Some? ==>
            b.pick.value < n && ts[b.pick.value].allowed && b.chisq == Score(ts[b.pick.value].residual) < CHISQ_LOCAL)
  {
    if n > 0 {
      SearchPick(ts, n - 1);
    }
  }

  /** Without a pick, every allowed trial among the first `n` has a residual
      whose score is at least the ceiling. */
  lemma {:induction false} SearchNone(ts: seq<Trial>, n: nat)
    requires n <= |ts|
    ensures Search(ts, n).pick.None? ==>
      forall i :: 0 <= i < n && ts[i].allowed ==> ts[i].residual.Some? && Score(ts[i].residual) >= CHISQ_LOCAL
  {
    if n > 0 {
      SearchNone(ts, n - 1);
      SearchPick(ts, n - 1);
    }
  }

  /** With non-negative residuals the best score is never negative. */
  lemma {:induction false} SearchNonNegative(ts: seq<Trial>, n: nat)
    requires n <= |ts|
    requires forall i :: 0 <= i < n && ts[i].residual.Some? ==> ts[i].residual.value >= 0.0
    ensures Search(ts, n).chisq >= 0.0
  {
    if n > 0 {
      SearchNonNegative(ts, n - 1);
    }
  }

  /** With non-negative residuals the best score is at most the score of
      every allowed trial among the first `n`. */
  lemma {:induction false} SearchMinimal(ts: seq<Trial>, n: nat)
    requires n <= |ts|
    requires forall i :: 0 <= i < n && ts[i].residual.Some? ==> ts[i].residual.value >= 0.0
    ensures forall i :: 0 <= i < n && ts[i].allowed ==> Search(ts, n).chisq <= Score(ts[i].residual)
  {
    if n > 0 {
      SearchMinimal(ts, n - 1);
      SearchNonNegative(ts, n - 1);
    }
  }

  /** An allowed exact fit is always taken: the pick is the last allowed
      exact fit among the first `n` trials, with score 0. */
  lemma {:induction false} SearchLastExact(ts: seq<Trial>, n: nat, k: nat)
    requires k < n <= |ts|
    requires ts[k].allowed && ts[k].residual.None?
    requires forall i :: k < i < n ==> !(ts[i].allowed && ts[i].residual.None?)
    requires forall i :: 0 <= i < n && ts[i].residual.Some? ==> ts[i].residual.value >= 0.0
    ensures Search(ts, n) == Best(0.0, Some(k))
  {
    if n - 1 > k {
      SearchLastExact(ts, n - 1, k);
    }
  }

  /** What find_fit returns: the points and fitted positions of the picked
      combination and its score, or no points and the ceiling 20. */
  datatype LocalFitResult = LocalFitResult(xs: seq<real>, ys: seq<real>, fitted: seq<real>, chisq: real)

  /** The result of the search. */
  function Outcome(ts: seq<Trial>, b: Best): LocalFitResult
    requires b.pick.Some? ==> b.pick.value < |ts|
  {
    match b.pick
    case None => LocalFitResult([], [], [], b.chisq)
    case Some(k) => LocalFitResult(Xs(ts[k].combo), Ys(ts[k].combo), Eval(ts[k].line, Ys(ts[k].combo)), b.chisq)
  }

  /** The combinations find_fit tries, all non-empty for a non-empty chamber. */
  function CombinationsOf(pts: seq<Point>): (combos: seq<seq<Point>>)
    requires |pts| > 0
    ensures forall i :: 0 <= i < |combos| ==> |combos[i]| == |Groups(pts)| > 0
  {
    var combos := Product(Groups(pts));
    assert forall i :: 0 <= i < |combos| ==> combos[i] in combos;
    combos
  }

  /** The result of the loop of find_fit over the given combinations. */
  function BestOf(combos: seq<seq<Point>>, fit: Fitter): LocalFitResult
    requires forall i :: 0 <= i < |combos| ==> |combos[i]| > 0
  {
    var ts := Trials(combos, fit);
    Outcome(ts, Search(ts, |ts|))
  }

  /** find_fit as a function of the chamber's points. */
  function BestFit(pts: seq<Point>, fit: Fitter): LocalFitResult
    requires |pts| > 0
  {
    BestOf(CombinationsOf(pts), fit)
  }

  /** find_fit: the points are grouped by height and every combination of
      one point per height is tried. */
  method FindFit(pts: seq<Point>, fit: Fitter) returns (r: LocalFitResult)
    requires |pts| > 0
    ensures r == BestFit(pts, fit)
  {
    var combos := CombinationsOf(pts);
    r := FitCombinations(combos, fit);
  }

  /** The loop of find_fit: the combinations are fitted in turn, keeping the
      best allowed one in `chisqBest`, `fitBest`, `xBest` and `yBest`. */
  method FitCombinations(combos: seq<seq<Point>>, fit: Fitter) returns (r: LocalFitResult)
    requires forall i :: 0 <= i < |combos| ==> |combos[i]| > 0
    ensures r == BestOf(combos, fit)
  {
    ghost var ts := Trials(combos, fit);
    var chisqBest := CHISQ_LOCAL;
    var fitBest := Line(0.0, 0.0);
    var xBest: seq<real> := [];
    var yBest: seq<real> := [];
    ghost var pick: Option<nat> := None;
    for i := 0 to |combos|
      invariant Search(ts, i) == Best(chisqBest, pick)
      invariant Kept(ts, i, pick, fitBest, xBest, yBest)
    {
      TrialAt(combos, fit, i);
      ghost var before := pick;
      chisqBest, fitBest, xBest, yBest, pick := Consider(combos[i], fit, i, ts[i], chisqBest, fitBest, xBest, yBest, pick);
      assert pick != before ==> pick == Some(i);
    }
    r := LocalFitResult(xBest, yBest, Eval(fitBest, yBest), chisqBest);
  }

  /** The best line and points held for the pick among the first `n` trials. */
  ghost predicate Kept(ts: seq<Trial>, n: nat, pick: Option<nat>, fitBest: Line, xBest: seq<real>, yBest: seq<real>)
  {
    match pick
    case None => xBest == [] && yBest == []
    case Some(k) => k < n <= |ts| && xBest == Xs(ts[k].combo) && yBest == Ys(ts[k].combo) && fitBest == ts[k].line
  }

  /** One pass of the loop of find_fit on combination `i`: it is fitted and,
      when its slope is allowed and its fit is exact or better than the best
      one, it becomes the best. */
  method Consider(combo: seq<Point>, fit: Fitter, i: nat, ghost t: Trial,
                  chisqBest: real, fitBest: Line, xBest: seq<real>, yBest: seq<real>, ghost pick: Option<nat>)
    returns (chisq': real, fit': Line, x': seq<real>, y': seq<real>, ghost pick': Option<nat>)
    requires |combo| > 0
    requires t == Trial(combo, FitOf(combo, fit), ResidualOf(combo, fit), Allowed(combo, fit))
    requires pick.Some? ==> pick.value < i
    ensures Best(chisq', pick') == Step(Best(chisqBest, pick), t, i)
    ensures pick' == pick ==> fit' == fitBest && x' == xBest && y' == yBest
    ensures pick' != pick ==> pick' == Some(i) && fit' == t.line && x' == Xs(combo) && y' == Ys(combo)
  {
    var xs := Xs(combo);
    var ys := Ys(combo);
    var fitted := fit(ys, xs);
    var line, res := fitted.0, fitted.1;
    var xFit := Eval(line, ys);
    var ok := AllowedSlope(xFit, ys);
    chisq', fit', x', y', pick' := chisqBest, fitBest, xBest, yBest, pick;
    if ok {
      if res.None? {
        chisq', fit', x', y', pick' := 0.0, line, xs, ys, Some(i);
      } else if res.value / 2.0 < chisqBest {
        chisq', fit', x', y', pick' := res.value / 2.0, line, xs, ys, Some(i);
      }
    }
  }

  /** When find_fit finds nothing it returns no points and the score 20, and
      every allowed combination had a residual of at least 40. */
  lemma BestOfNone(combos: seq<seq<Point>>, fit: Fitter)
    requires forall i :: 0 <= i < |combos| ==> |combos[i]| > 0
    ensures var r := BestOf(combos, fit);
      r.xs == [] ==>
        && r.ys == [] && r.fitted == [] && r.chisq == CHISQ_LOCAL
        && forall c :: c in combos ==> Allowed(c, fit) ==>
             ResidualOf(c, fit).Some? && ResidualOf(c, fit).value >= 2.0 * CHISQ_LOCAL
  {
    var ts := Trials(combos, fit);
    var n := |ts|;
    SearchPick(ts, n);
    SearchNone(ts, n);
    var b := Search(ts, n);
    if b.pick.Some? {
      var k := b.pick.value;
      TrialAt(combos, fit, k);
      assert |Xs(combos[k])| == |combos[k]| > 0;
    } else {
      forall c | c in combos && Allowed(c, fit)
        ensures ResidualOf(c, fit).Some? && ResidualOf(c, fit).value >= 2.0 * CHISQ_LOCAL
      {
        var i :| 0 <= i < n && combos[i] == c;
        TrialAt(combos, fit, i);
      }
    }
  }

  /** When find_fit finds something it returns the points of an allowed
      combination, one per height, with their fitted positions and a score
      below 20. */
  lemma BestOfPick(combos: seq<seq<Point>>, fit: Fitter)
    requires forall i :: 0 <= i < |combos| ==> |combos[i]| > 0
    ensures var r := BestOf(combos, fit);
      && |r.xs| == |r.ys| == |r.fitted|
      && (r.xs != [] ==>
            exists c :: c in combos && Allowed(c, fit)
              && r.xs == Xs(c) && r.ys == Ys(c) && r.fitted == Eval(FitOf(c, fit), Ys(c))
              && r.chisq == Score(ResidualOf(c, fit)) < CHISQ_LOCAL)
  {
    var ts := Trials(combos, fit);
    var n := |ts|;
    SearchPick(ts, n);
    var b := Search(ts, n);
    if b.pick.Some? {
      var k := b.pick.value;
      TrialAt(combos, fit, k);
      assert combos[k] in combos;
    }
  }

  /** With non-negative residuals the score find_fit returns is at most the
      score of every allowed combination. */
  lemma BestOfMinimal(combos: seq<seq<Point>>, fit: Fitter)
    requires forall i :: 0 <= i < |combos| ==> |combos[i]| > 0
    requires forall c :: c in combos && ResidualOf(c, fit).Some? ==> ResidualOf(c, fit).value >= 0.0
    ensures forall c :: c in combos ==> Allowed(c, fit) ==> BestOf(combos, fit).chisq <= Score(ResidualOf(c, fit))
  {
    var ts := Trials(combos, fit);
    var n := |ts|;
    forall i | 0 <= i < n && ts[i].residual.Some? ensures ts[i].residual.value >= 0.0 {
      TrialAt(combos, fit, i);
      assert combos[i] in combos;
    }
    SearchMinimal(ts, n);
    forall c | c in combos && Allowed(c, fit) ensures Search(ts, n).chisq <= Score(ResidualOf(c, fit)) {
      var i :| 0 <= i < n && combos[i] == c;
      TrialAt(combos, fit, i);
    }
  }

  /** An allowed exact fit is always taken: if combination `k` is allowed and
      fits exactly and no later combination does both, find_fit returns it
      with score 0. */
  lemma BestOfLastExact(combos: seq<seq<Point>>, fit: Fitter, k: nat)
    requires forall i :: 0 <= i < |combos| ==> |combos[i]| > 0
    requires forall c :: c in combos && ResidualOf(c, fit).Some? ==> ResidualOf(c, fit).value >= 0.0
    requires k < |combos| && Allowed(combos[k], fit) && ResidualOf(combos[k], fit).None?
    requires forall i :: k < i < |combos| ==> !(Allowed(combos[i], fit) && ResidualOf(combos[i], fit).None?)
    ensures BestOf(combos, fit) ==
      LocalFitResult(Xs(combos[k]), Ys(combos[k]), Eval(FitOf(combos[k], fit), Ys(combos[k])), 0.0)
  {
    var ts := Trials(combos, fit);
    var n := |ts|;
    forall i | 0 <= i < n ensures ts[i] == Trial(combos[i], FitOf(combos[i], fit), ResidualOf(combos[i], fit), Allowed(combos[i], fit)) {
      TrialAt(combos, fit, i);
    }
    forall i | 0 <= i < n && ts[i].residual.Some? ensures ts[i].residual.value >= 0.0 {
      assert combos[i] in combos;
    }
    SearchLastExact(ts, n, k);
  }

  /** A combination of find_fit takes exactly one point of the chamber at
      each distinct height, heights ascending. */
  lemma CombinationShape(pts: seq<Point>, c: seq<Point>)
    requires |pts| > 0
    requires c in CombinationsOf(pts)
    ensures |c| == |Heights(pts)|
    ensures forall k :: 0 <= k < |c| ==> c[k] in pts && c[k].1 == Heights(pts)[k]
    ensures forall i, j :: 0 <= i < j < |c| ==> c[i].1 < c[j].1
  {
    var gs := Groups(pts);
    ProductMembers(gs, c);
    GroupsPartition(pts);
  }
}
