/** Time-gap segmentation, the rule the analysis applies three times: on a
    time-sorted stream take consecutive differences (the first one is 0), mark
    a break where a difference exceeds the threshold, and number the groups by
    the cumulative sum of the breaks. */
module Segmentation {

  /** `diff().fillna(0)`: the gap to the previous time, 0 for the first. */
  function Diffs(ts: seq<real>): (d: seq<real>)
    ensures |d| == |ts|
  {
    seq(|ts|, i requires 0 <= i < |ts| => if i == 0 then 0.0 else ts[i] - ts[i - 1])
  }

  /** 1 where the gap is larger than `gap`, 0 elsewhere. With a positive
      threshold this is also the two-step form "set to 0 where <= gap, then to
      1 where > 0". */
  function Breaks(d: seq<real>, gap: real): (b: seq<int>)
    ensures |b| == |d|
  {
    seq(|d|, i requires 0 <= i < |d| => if d[i] > gap then 1 else 0)
  }

  /** Sum of the first `n` elements. */
  function SumPrefix(b: seq<int>, n: nat): int
    requires n <= |b|
  {
    if n == 0 then 0 else SumPrefix(b, n - 1) + b[n - 1]
  }

  /** `cumsum()`: element i is the sum of elements 0..i. */
  function CumSum(b: seq<int>): (c: seq<int>)
    ensures |c| == |b|
  {
    seq(|b|, i requires 0 <= i < |b| => SumPrefix(b, i + 1))
  }

  /** The group id of every element of the stream. */
  function GroupIds(ts: seq<real>, gap: real): (g: seq<int>)
    ensures |g| == |ts|
  {
    CumSum(Breaks(Diffs(ts), gap))
  }

  /** Group ids start at 0 and step up by exactly one between consecutive
      elements precisely when their gap exceeds the threshold. */
  lemma GroupIdSteps(ts: seq<real>, gap: real)
    requires gap >= 0.0
    ensures var g := GroupIds(ts, gap);
      && (|ts| > 0 ==> g[0] == 0)
      && forall i :: 0 < i < |ts| ==>
           g[i] == g[i - 1] + (if ts[i] - ts[i - 1] > gap then 1 else 0)
  {
    var b := Breaks(Diffs(ts), gap);
    if |ts| > 0 {
      assert SumPrefix(b, 1) == SumPrefix(b, 0) + b[0];
    }
    forall i | 0 < i < |ts|
      ensures SumPrefix(b, i + 1) == SumPrefix(b, i) + (if ts[i] - ts[i - 1] > gap then 1 else 0)
    {
    }
  }

  /** Group ids never decrease, and element i is in a group numbered 0..i. */
  lemma {:induction false} GroupIdsMonotone(ts: seq<real>, gap: real, i: nat, j: nat)
    requires gap >= 0.0
    requires i <= j < |ts|
    ensures var g := GroupIds(ts, gap); 0 <= g[i] <= g[j] && g[j] - g[i] <= j - i && g[j] <= j
  {
    GroupIdSteps(ts, gap);
    if i < j {
      GroupIdsMonotone(ts, gap, i, j - 1);
    } else if i > 0 {
      GroupIdsMonotone(ts, gap, i - 1, i - 1);
    }
  }

  /** Two elements share a group exactly when no gap between them exceeds the threshold. */
  lemma {:induction false} SameGroupIffNoBreak(ts: seq<real>, gap: real, i: nat, j: nat)
    requires gap >= 0.0
    requires i <= j < |ts|
    ensures var g := GroupIds(ts, gap);
      g[i] == g[j] <==> forall k :: i < k <= j ==> ts[k] - ts[k - 1] <= gap
  {
    if i < j {
      var g := GroupIds(ts, gap);
      SameGroupIffNoBreak(ts, gap, i, j - 1);
      GroupIdsMonotone(ts, gap, i, j - 1);
      GroupIdSteps(ts, gap);
      assert g[j] == g[j - 1] + (if ts[j] - ts[j - 1] > gap then 1 else 0);
      if ts[j] - ts[j - 1] > gap {
        assert g[i] < g[j];
      } else {
        assert (forall k :: i < k <= j ==> ts[k] - ts[k - 1] <= gap)
           <==> (forall k :: i < k <= j - 1 ==> ts[k] - ts[k - 1] <= gap);
      }
    }
  }
}
