/** The acceptance filter (process_hits_v2.py, event_accepted and
    select_accepted_events): an event is kept only if enough chambers have
    hits in three layers and enough distinct channels, optionally no chamber
    is crowded, and the meantimer solutions of its chambers agree on a t0;
    the t0 of the first large enough cluster of solutions is then committed
    to the event table and to the event's hits. The t0 averaging
    (`mean_tzero`), the clustering (`tzero_clusters`) and the acceptance
    channel map are parameters. */
module Acceptance {
  import opened Config
  import opened Common
  import opened Hits
  import opened Segmentation
  import opened TriggerlessEvents
  import opened Tables
  import opened Meantimer

  /** `tzeros_all`: the meantimer t0 values of each chamber, in the order
      the chambers were processed. */
  type PerChamber = seq<(int, seq<real>)>

  /** `mean_tzero(tzeros_all)`: the combined t0 and the solutions it keeps. */
  type MeanTzero = PerChamber -> (real, seq<real>)

  /** `tzero_clusters(tzeros_all)`: the t0 values of each cluster, by
      ascending cluster id. */
  type TzeroClusters = PerChamber -> seq<seq<real>>

  /** The hits of one chamber, `df[df['SL'] == SL]`. */
  function ChamberHits(df: seq<Hit>, sl: int): (r: seq<Hit>)
    ensures forall h :: h in r <==> h in df && h.sl == sl
  {
    Filter(df, (h: Hit) => h.sl == sl)
  }

  /** The chambers present in the event (the keys of `groupby('SL')`). */
  function Chambers(df: seq<Hit>): set<int>
  {
    set h | h in df :: h.sl
  }

  /** Distinct layers hit in a chamber. */
  function LayerCount(df: seq<Hit>, sl: int): nat
  {
    |set h | h in df && h.sl == sl :: h.layer|
  }

  /** Distinct normalised channels hit in a chamber. */
  function ChannelCount(df: seq<Hit>, sl: int): nat
  {
    |set h | h in df && h.sl == sl :: h.norm|
  }

  /** Hits in a chamber (`size`). */
  function HitCount(df: seq<Hit>, sl: int): nat
  {
    |ChamberHits(df, sl)|
  }

  /** Chambers with hits in at least three distinct layers. */
  function MultiLayerChambers(df: seq<Hit>): (r: set<int>)
    ensures r <= Chambers(df)
  {
    set sl | sl in Chambers(df) && LayerCount(df, sl) >= 3
  }

  /** Chambers with at least NHITS_SL[0] distinct channels. */
  function FilledChambers(df: seq<Hit>): (r: set<int>)
    ensures r <= Chambers(df)
  {
    set sl | sl in Chambers(df) && ChannelCount(df, sl) >= NHITS_SL_MIN
  }

  /** Some chamber has more than NHITS_SL[1] hits. */
  predicate Crowded(df: seq<Hit>)
  {
    exists sl :: sl in Chambers(df) && HitCount(df, sl) > NHITS_SL_MAX
  }

  /** The three multiplicity cuts of event_accepted, `chambers` being the
      command-line minimum of chambers. */
  predicate PassesMultiplicity(df: seq<Hit>, chambers: int, cutMaxHits: bool)
  {
    && |MultiLayerChambers(df)| >= MEANTIMER_SL_MULT_MIN
    && |FilledChambers(df)| >= chambers
    && !(cutMaxHits && Crowded(df))
  }

  /** The sort key of the meantimer order: the hit count first, then the
      chamber number (the small-array sort keeps the groupby order of ties). */
  function OrderKey(df: seq<Hit>, sl: int): real
  {
    (HitCount(df, sl) * 8 + (sl + 4)) as real
  }

  /** `nHits.loc[nLayers >= 3].sort_values().index`. */
  function MeantimerOrder(df: seq<Hit>): seq<int>
  {
    SortBy(Ascending(MultiLayerChambers(df)), (sl: int) => OrderKey(df, sl))
  }

  /** Comparing two order keys compares the hit counts first, then the chambers. */
  lemma OrderKeyCompares(a: nat, b: nat, x: int, y: int)
    requires -4 <= x < 4 && -4 <= y < 4
    requires ((a * 8 + (x + 4)) as real) <= ((b * 8 + (y + 4)) as real)
    ensures a < b || (a == b && x <= y)
  {
  }

  /** Every chamber of the event is one of the four windows' indices. */
  lemma ChamberInRange(df: seq<Hit>, sl: int)
    requires forall h :: h in df ==> -4 <= h.sl < 4
    requires sl in Chambers(df)
    ensures -4 <= sl < 4
  {
  }

  /** The meantimer runs on exactly the chambers with three or more layers. */
  lemma MeantimerOrderCoversMultiLayer(df: seq<Hit>)
    ensures var r := MeantimerOrder(df);
      && |r| == |MultiLayerChambers(df)|
      && (forall sl :: sl in r <==> sl in MultiLayerChambers(df))
  {
    var a := Ascending(MultiLayerChambers(df));
    var r := MeantimerOrder(df);
    assert multiset(r) == multiset(a);
    forall sl ensures sl in r <==> sl in MultiLayerChambers(df) {
      assert sl in r <==> sl in multiset(r);
      assert sl in a <==> sl in multiset(a);
    }
  }

  /** The meantimer runs in ascending order of hit count, ties in ascending
      chamber number. */
  lemma MeantimerOrderIsByHitCount(df: seq<Hit>)
    requires forall h :: h in df ==> -4 <= h.sl < 4
    ensures var r := MeantimerOrder(df);
      forall i, j :: 0 <= i < j < |r| ==>
        HitCount(df, r[i]) < HitCount(df, r[j]) || (HitCount(df, r[i]) == HitCount(df, r[j]) && r[i] <= r[j])
  {
    var r := MeantimerOrder(df);
    MeantimerOrderCoversMultiLayer(df);
    forall i, j | 0 <= i < j < |r|
      ensures HitCount(df, r[i]) < HitCount(df, r[j]) || (HitCount(df, r[i]) == HitCount(df, r[j]) && r[i] <= r[j])
    {
      assert r[i] in r && r[j] in r;
      ChamberInRange(df, r[i]);
      ChamberInRange(df, r[j]);
      assert OrderKey(df, r[i]) <= OrderKey(df, r[j]);
      OrderKeyCompares(HitCount(df, r[i]), HitCount(df, r[j]), r[i], r[j]);
    }
  }

  /** Chamber `sl` has at least one hit, and all its hits are in chamber `sl`. */
  lemma ChamberHitsOfPresentChamber(df: seq<Hit>, sl: int)
    requires sl in Chambers(df)
    ensures |ChamberHits(df, sl)| > 0 && ChamberHits(df, sl)[0].sl == sl
  {
    var h :| h in df && h.sl == sl;
    assert h in ChamberHits(df, sl);
  }

  /** The t0 values of a list of meantimer results. */
  function Firsts(r: seq<(real, real)>): (t: seq<real>)
    ensures |t| == |r|
    ensures forall k :: 0 <= k < |r| ==> t[k] == r[k].0
  {
    seq(|r|, k requires 0 <= k < |r| => r[k].0)
  }

  /** The t0 values of zipped lists are the first list. */
  lemma FirstsOfZip(tzeros: seq<real>, angles: seq<real>)
    requires |tzeros| == |angles|
    ensures Firsts(Zip(tzeros, angles)) == tzeros
  {
  }

  /** `meantimer_results(df[df['SL'] == SL])[0]`: the t0 values found on the
      hits of chamber `sl` (nothing for a chamber without hits). */
  function ChamberTzeros(df: seq<Hit>, sl: int, patterns: map<Triplet, string>, solve: Solver): seq<real>
    requires forall h :: h in df ==> -4 <= h.sl < 4
  {
    var c := ChamberHits(df, sl);
    if c == [] then []
    else
      assert c[0] in c;
      Firsts(MeantimerSolutions(c, patterns, solve))
  }

  /** A present chamber's t0 values are exactly the t0 values of the
      solutions on its time-sorted hits and their sub-groups. */
  lemma ChamberTzerosMember(df: seq<Hit>, sl: int, patterns: map<Triplet, string>, solve: Solver, t0: real)
    requires forall h :: h in df ==> -4 <= h.sl < 4
    requires sl in Chambers(df)
    ensures -4 <= sl < 4
    ensures t0 in ChamberTzeros(df, sl, patterns, solve) <==>
      exists angle :: Solution(TimeSorted(ChamberHits(df, sl)), SubGroups(ChamberHits(df, sl)), patterns, solve, sl,
        t0, angle)
  {
    var c := ChamberHits(df, sl);
    ChamberHitsOfPresentChamber(df, sl);
    assert c[0] in c;
    var m := MeantimerSolutions(c, patterns, solve);
    var tz := ChamberTzeros(df, sl, patterns, solve);
    assert tz == Firsts(m);
    if t0 in tz {
      var k :| 0 <= k < |tz| && tz[k] == t0;
      assert m[k] in m;
      MeantimerMember(c, patterns, solve, m[k]);
    }
    if exists angle :: Solution(TimeSorted(c), SubGroups(c), patterns, solve, sl, t0, angle) {
      var angle :| Solution(TimeSorted(c), SubGroups(c), patterns, solve, sl, t0, angle);
      MeantimerMember(c, patterns, solve, (t0, angle));
      var k :| 0 <= k < |m| && m[k] == (t0, angle);
      assert tz[k] == t0;
    }
  }

  /** `tzeros_all`: the t0 values of every chamber of MeantimerOrder, in that order. */
  function Runs(df: seq<Hit>, patterns: map<Triplet, string>, solve: Solver): PerChamber
    requires forall h :: h in df ==> -4 <= h.sl < 4
  {
    RunsOver(df, MeantimerOrder(df), patterns, solve)
  }

  /** The chambers of `order`, each paired with what `f` gives it. */
  function Keyed(order: seq<int>, f: int --> seq<real>): (pc: PerChamber)
    requires forall k :: 0 <= k < |order| ==> f.requires(order[k])
    ensures |pc| == |order|
    ensures forall k :: 0 <= k < |order| ==> pc[k] == (order[k], f(order[k]))
  {
    seq(|order|, k requires 0 <= k < |order| && f.requires(order[k]) => (order[k], f(order[k])))
  }

  /** One more chamber adds its pair at the end. */
  lemma KeyedSnoc(order: seq<int>, i: nat, f: int --> seq<real>)
    requires i < |order| && forall k :: 0 <= k < |order| ==> f.requires(order[k])
    ensures Keyed(order[..i + 1], f) == Keyed(order[..i], f) + [(order[i], f(order[i]))]
  {
    var a, b := Keyed(order[..i + 1], f), Keyed(order[..i], f) + [(order[i], f(order[i]))];
    forall k | 0 <= k < |a| ensures a[k] == b[k] {
      assert order[..i + 1][k] == order[k];
    }
  }

  /** ChamberTzeros of the event `df`, as a function of the chamber. */
  function TzerosOf(df: seq<Hit>, patterns: map<Triplet, string>, solve: Solver): int --> seq<real>
  {
    (sl: int) requires forall h :: h in df ==> -4 <= h.sl < 4 => ChamberTzeros(df, sl, patterns, solve)
  }

  /** The t0 values of each chamber of `order`, keyed by the chamber. */
  function RunsOver(df: seq<Hit>, order: seq<int>, patterns: map<Triplet, string>, solve: Solver): (pc: PerChamber)
    requires forall h :: h in df ==> -4 <= h.sl < 4
    ensures |pc| == |order|
    ensures forall k :: 0 <= k < |pc| ==> pc[k] == (order[k], ChamberTzeros(df, order[k], patterns, solve))
  {
    Keyed(order, TzerosOf(df, patterns, solve))
  }

  /** `meantimer_results(df[df['SL'] == SL])[0]` for one chamber of the event. */
  method ChamberMeantimer(df: seq<Hit>, sl: int, patterns: map<Triplet, string>, solve: Solver)
    returns (tz: seq<real>)
    requires forall h :: h in df ==> -4 <= h.sl < 4
    requires sl in Chambers(df)
    ensures tz == ChamberTzeros(df, sl, patterns, solve)
  {
    ChamberHitsOfPresentChamber(df, sl);
    assert ChamberHits(df, sl)[0] in ChamberHits(df, sl);
    var an;
    tz, an := MeantimerResults(ChamberHits(df, sl), patterns, solve);
    FirstsOfZip(tz, an);
  }

  /** The loop of event_accepted over the chambers with three or more
      layers: meantimer_results on each chamber's hits, in MeantimerOrder. */
  method ChamberMeantimers(df: seq<Hit>, patterns: map<Triplet, string>, solve: Solver)
    returns (all: PerChamber)
    requires forall h :: h in df ==> -4 <= h.sl < 4
    ensures all == Runs(df, patterns, solve)
  {
    var order := MeantimerOrder(df);
    MeantimerOrderCoversMultiLayer(df);
    assert forall sl :: sl in order ==> sl in Chambers(df);
    all := MeantimersOver(df, order, patterns, solve);
  }

  /** meantimer_results on each chamber of `order`, in that order. */
  method MeantimersOver(df: seq<Hit>, order: seq<int>, patterns: map<Triplet, string>, solve: Solver)
    returns (all: PerChamber)
    requires forall h :: h in df ==> -4 <= h.sl < 4
    requires forall sl :: sl in order ==> sl in Chambers(df)
    ensures all == RunsOver(df, order, patterns, solve)
  {
    all := [];
    for i := 0 to |order|
      invariant all == RunsOver(df, order[..i], patterns, solve)
    {
      assert order[i] in order;
      var tz := ChamberMeantimer(df, order[i], patterns, solve);
      KeyedSnoc(order, i, TzerosOf(df, patterns, solve));
      all := all + [(order[i], tz)];
    }
    assert order[..|order|] == order;
  }

  /** What event_accepted returns for an accepted event. */
  datatype Verdict = Verdict(tzero: real, tzeros: seq<real>, perChamber: PerChamber)

  /** event_accepted does not return False: the multiplicity cuts pass and
      `mean_tzero` keeps at least MEANTIMER_CLUSTER_SIZE of the runs' t0 values. */
  predicate PassesAcceptance(df: seq<Hit>, cutMaxHits: bool, chambers: int, patterns: map<Triplet, string>,
      solve: Solver, meanTzero: MeanTzero)
    requires forall h :: h in df ==> -4 <= h.sl < 4
  {
    && PassesMultiplicity(df, chambers, cutMaxHits)
    && |meanTzero(Runs(df, patterns, solve)).1| >= MEANTIMER_CLUSTER_SIZE
  }

  /** event_accepted: the multiplicity cuts, then the meantimer on every
      chamber with three or more layers in MeantimerOrder, then `mean_tzero`,
      which must keep at least MEANTIMER_CLUSTER_SIZE solutions. */
  method EventAccepted(df: seq<Hit>, cutMaxHits: bool, chambers: int,
      patterns: map<Triplet, string>, solve: Solver, meanTzero: MeanTzero)
    returns (r: Option<Verdict>)
    requires forall h :: h in df ==> -4 <= h.sl < 4
    ensures r.Some? <==> PassesAcceptance(df, cutMaxHits, chambers, patterns, solve, meanTzero)
    ensures r.Some? ==>
      && r.value.perChamber == Runs(df, patterns, solve)
      && (r.value.tzero, r.value.tzeros) == meanTzero(Runs(df, patterns, solve))
  {
    if |MultiLayerChambers(df)| < MEANTIMER_SL_MULT_MIN {
      return None;
    }
    if |FilledChambers(df)| < chambers {
      return None;
    }
    if cutMaxHits && Crowded(df) {
      return None;
    }
    var all := ChamberMeantimers(df, patterns, solve);
    var (tzero, tzeros) := meanTzero(all);
    if |tzeros| < MEANTIMER_CLUSTER_SIZE {
      return None;
    }
    return Some(Verdict(tzero, tzeros, all));
  }

  /** With the max-hits cut an event passes exactly when it passes without the
      cut and no chamber is crowded: the cut only narrows the selection. */
  lemma MaxHitsCutNarrows(df: seq<Hit>, chambers: int, patterns: map<Triplet, string>,
      solve: Solver, meanTzero: MeanTzero)
    requires forall h :: h in df ==> -4 <= h.sl < 4
    ensures PassesAcceptance(df, true, chambers, patterns, solve, meanTzero) <==>
      PassesAcceptance(df, false, chambers, patterns, solve, meanTzero) && !Crowded(df)
  {
  }

  /** A chamber with hits in three distinct layers holds at least three hits. */
  lemma MultiLayerHasThreeHits(df: seq<Hit>, sl: int)
    requires sl in MultiLayerChambers(df)
    ensures HitCount(df, sl) >= 3
  {
    var c := ChamberHits(df, sl);
    var layers := set h | h in df && h.sl == sl :: h.layer;
    var image := set i | 0 <= i < |c| :: c[i].layer;
    forall x | x in layers ensures x in image {
      var h :| h in df && h.sl == sl && h.layer == x;
      assert h in c;
      var i :| 0 <= i < |c| && c[i] == h;
    }
    SubsetCard(layers, image);
    ImageNoLarger(c);
  }

  /** Projecting the rows of a sequence to their layers gives no more values than rows. */
  lemma {:induction false} ImageNoLarger(c: seq<Hit>)
    ensures |set i | 0 <= i < |c| :: c[i].layer| <= |c|
  {
    if c != [] {
      var n := |c| - 1;
      ImageNoLarger(c[..n]);
      assert (set i | 0 <= i < |c| :: c[i].layer) <= (set i | 0 <= i < n :: c[..n][i].layer) + {c[n].layer} by {
        forall i | 0 <= i < |c| ensures c[i].layer in (set i | 0 <= i < n :: c[..n][i].layer) + {c[n].layer} {
          if i < n {
            assert c[..n][i] == c[i];
          }
        }
      }
      SubsetCard(set i | 0 <= i < |c| :: c[i].layer, (set i | 0 <= i < n :: c[..n][i].layer) + {c[n].layer});
    }
  }

  /** The mean of a non-empty list of t0 values. */
  function Mean(c: seq<real>): real
    requires |c| > 0
  {
    Sum(c) / (|c| as real)
  }

  function Sum(c: seq<real>): real
  {
    if c == [] then 0.0 else c[0] + Sum(c[1..])
  }

  /** k copies of m added up. */
  function Repeat(k: nat, m: real): real
  {
    if k == 0 then 0.0 else Repeat(k - 1, m) + m
  }

  /** Adding up k copies of m is multiplying m by k. */
  lemma {:induction false} RepeatIsProduct(k: nat, m: real)
    ensures Repeat(k, m) == (k as real) * m
  {
    if k > 0 {
      RepeatIsProduct(k - 1, m);
      assert (k as real) * m == ((k - 1) as real) * m + m;
    }
  }

  /** A sum of values none below m is at least |c| copies of m. */
  lemma {:induction false} SumAbove(c: seq<real>, m: real)
    requires forall i :: 0 <= i < |c| ==> m <= c[i]
    ensures Repeat(|c|, m) <= Sum(c)
  {
    if c != [] {
      SumAbove(c[1..], m);
    }
  }

  /** A sum of values none above m is at most |c| copies of m. */
  lemma {:induction false} SumBelow(c: seq<real>, m: real)
    requires forall i :: 0 <= i < |c| ==> c[i] <= m
    ensures Sum(c) <= Repeat(|c|, m)
  {
    if c != [] {
      SumBelow(c[1..], m);
    }
  }

  /** For a positive n, x / n lies between a and b when n a <= x <= n b. */
  lemma DivideBounds(x: real, n: real, a: real, b: real)
    requires n > 0.0 && n * a <= x <= n * b
    ensures a <= x / n <= b
  {
    assert n * (x / n) == x;
  }

  /** A total between k copies of lo and k copies of hi, divided by k, lies
      between lo and hi. */
  lemma AverageBounds(s: real, k: nat, lo: real, hi: real)
    requires k > 0 && Repeat(k, lo) <= s <= Repeat(k, hi)
    ensures lo <= s / (k as real) <= hi
  {
    RepeatIsProduct(k, lo);
    RepeatIsProduct(k, hi);
    DivideBounds(s, k as real, lo, hi);
  }

  /** A cluster's mean lies between its smallest and its largest t0. */
  lemma MeanWithinCluster(c: seq<real>)
    requires |c| > 0
    ensures MinOf(c) <= Mean(c) <= MaxOf(c)
  {
    SumAbove(c, MinOf(c));
    SumBelow(c, MaxOf(c));
    AverageBounds(Sum(c), |c|, MinOf(c), MaxOf(c));
  }

  /** The index of the first cluster with at least MEANTIMER_CLUSTER_SIZE
      values, or -1 when there is none. */
  function FirstLarge(cls: seq<seq<real>>): (k: int)
    ensures -1 <= k < |cls|
    ensures k >= 0 ==> |cls[k]| >= MEANTIMER_CLUSTER_SIZE
    ensures forall j :: 0 <= j < |cls| && (k < 0 || j < k) ==> |cls[j]| < MEANTIMER_CLUSTER_SIZE
  {
    if cls == [] then -1
    else if |cls[0]| >= MEANTIMER_CLUSTER_SIZE then 0
    else
      var k := FirstLarge(cls[1..]);
      assert forall j :: 1 <= j < |cls| ==> cls[j] == cls[1..][j - 1];
      if k < 0 then -1 else k + 1
  }

  /** `t0` is committed for the event: the first acceptance passes (the
      max-hits cut in trigger mode only), the runs have a cluster of at least
      MEANTIMER_CLUSTER_SIZE values, the whole-event re-acceptance with the
      max-hits cut passes, and `t0` is the non-negative mean of the first
      such cluster. */
  predicate Candidate(df: seq<Hit>, t0: real, eventMode: bool, chambers: int,
      patterns: map<Triplet, string>, solve: Solver, meanTzero: MeanTzero, clusters: TzeroClusters)
    requires forall h :: h in df ==> -4 <= h.sl < 4
  {
    var cls := clusters(Runs(df, patterns, solve));
    && PassesAcceptance(df, eventMode, chambers, patterns, solve, meanTzero)
    && FirstLarge(cls) >= 0
    && PassesAcceptance(df, true, chambers, patterns, solve, meanTzero)
    && t0 == Mean(cls[FirstLarge(cls)])
    && t0 >= 0.0
  }

  /** The event loop drops the event: a cut of the first acceptance, no
      cluster of MEANTIMER_CLUSTER_SIZE values, a failed re-acceptance, or a
      negative cluster mean. */
  predicate Refused(df: seq<Hit>, eventMode: bool, chambers: int,
      patterns: map<Triplet, string>, solve: Solver, meanTzero: MeanTzero, clusters: TzeroClusters)
    requires forall h :: h in df ==> -4 <= h.sl < 4
  {
    var cls := clusters(Runs(df, patterns, solve));
    || !PassesAcceptance(df, eventMode, chambers, patterns, solve, meanTzero)
    || FirstLarge(cls) < 0
    || !PassesAcceptance(df, true, chambers, patterns, solve, meanTzero)
    || Mean(cls[FirstLarge(cls)]) < 0.0
  }

  /** An event is refused exactly when no t0 is a candidate, and the
      candidate, when there is one, is unique. */
  lemma RefusedIffNoCandidate(df: seq<Hit>, eventMode: bool, chambers: int,
      patterns: map<Triplet, string>, solve: Solver, meanTzero: MeanTzero, clusters: TzeroClusters)
    requires forall h :: h in df ==> -4 <= h.sl < 4
    ensures Refused(df, eventMode, chambers, patterns, solve, meanTzero, clusters) <==>
      forall t0 :: !Candidate(df, t0, eventMode, chambers, patterns, solve, meanTzero, clusters)
    ensures forall t0, t1 ::
      (Candidate(df, t0, eventMode, chambers, patterns, solve, meanTzero, clusters) &&
       Candidate(df, t1, eventMode, chambers, patterns, solve, meanTzero, clusters)) ==> t0 == t1
  {
    if !Refused(df, eventMode, chambers, patterns, solve, meanTzero, clusters) {
      var cls := clusters(Runs(df, patterns, solve));
      assert Candidate(df, Mean(cls[FirstLarge(cls)]), eventMode, chambers, patterns, solve, meanTzero, clusters);
    }
  }

  /** A large cluster preceded only by small ones is the first large cluster. */
  lemma FirstLargeAt(cls: seq<seq<real>>, k: nat)
    requires k < |cls| && |cls[k]| >= MEANTIMER_CLUSTER_SIZE
    requires forall j :: 0 <= j < k ==> |cls[j]| < MEANTIMER_CLUSTER_SIZE
    ensures FirstLarge(cls) == k
  {
  }

  /** The loop over the clusters: a cluster below MEANTIMER_CLUSTER_SIZE is
      skipped; for the others the event is re-accepted with the max-hits cut
      and the first success gives the cluster mean. The re-acceptance runs on
      the whole event, the same computation for every cluster, so once it has
      failed the model remembers the failure instead of repeating it. */
  method PickTzero(df: seq<Hit>, cls: seq<seq<real>>, chambers: int, patterns: map<Triplet, string>,
      solve: Solver, meanTzero: MeanTzero)
    returns (r: Option<real>)
    requires forall h :: h in df ==> -4 <= h.sl < 4
    ensures r.Some? <==> FirstLarge(cls) >= 0 && PassesAcceptance(df, true, chambers, patterns, solve, meanTzero)
    ensures r.Some? ==> FirstLarge(cls) >= 0 && r.value == Mean(cls[FirstLarge(cls)])
  {
    var rejected := false;
    for k := 0 to |cls|
      invariant !rejected ==> forall j :: 0 <= j < k ==> |cls[j]| < MEANTIMER_CLUSTER_SIZE
      invariant rejected ==> 0 <= FirstLarge(cls) < k && !PassesAcceptance(df, true, chambers, patterns, solve, meanTzero)
    {
      if |cls[k]| >= MEANTIMER_CLUSTER_SIZE && !rejected {
        FirstLargeAt(cls, k);
        var cand := Mean(cls[k]);
        var v := EventAccepted(df, true, chambers, patterns, solve, meanTzero);
        if v.Some? {
          return Some(cand);
        }
        rejected := true;
      }
    }
    return None;
  }

  /** One pass of the event loop up to the commit: the first acceptance (with
      the max-hits cut in trigger mode only), the clusters of its solutions,
      the cluster pick, and the rejection of a negative t0. */
  method EventTzero(df: seq<Hit>, eventMode: bool, chambers: int, patterns: map<Triplet, string>,
      solve: Solver, meanTzero: MeanTzero, clusters: TzeroClusters)
    returns (r: Option<real>)
    requires forall h :: h in df ==> -4 <= h.sl < 4
    ensures r.None? <==> Refused(df, eventMode, chambers, patterns, solve, meanTzero, clusters)
    ensures r.Some? ==> Candidate(df, r.value, eventMode, chambers, patterns, solve, meanTzero, clusters)
  {
    var first := EventAccepted(df, eventMode, chambers, patterns, solve, meanTzero);
    if first.None? {
      return None;
    }
    var cls := clusters(first.value.perChamber);
    if |cls| < 1 {
      return None;
    }
    var t := PickTzero(df, cls, chambers, patterns, solve, meanTzero);
    if t.None? || t.value < 0.0 {
      return None;
    }
    return t;
  }

  /** A hit examined by the acceptance filter: a chamber channel listed in
      ACCEPTANCE_CHANNELS for the hit's chamber. */
  predicate InAcceptance(h: Hit, acceptance: map<int, set<int>>)
  {
    h.norm <= NCHANNELS && h.sl in acceptance && h.norm in acceptance[h.sl]
  }

  /** The examined hits of one event, in table order. */
  function EventHits(rows: seq<Hit>, acceptance: map<int, set<int>>, event: int): (r: seq<Hit>)
    ensures forall h :: h in r <==> h in rows && InAcceptance(h, acceptance) && h.eventNr == event
  {
    Filter(rows, (h: Hit) => InAcceptance(h, acceptance) && h.eventNr == event)
  }

  /** The event numbers of the examined hits (the keys of `groupby('EVENT_NR')`). */
  function EventKeys(rows: seq<Hit>, acceptance: map<int, set<int>>): set<int>
  {
    set h | h in rows && InAcceptance(h, acceptance) :: h.eventNr
  }

  function Elems(s: seq<int>): set<int>
  {
    set x | x in s
  }

  /** The hit table after the commits of the accepted events in order: none
      unless t0 updates are requested or the mode is trigger-less; then the
      trigger mode sets TIME0 on the event's hits and the trigger-less mode
      re-windows the event. */
  function Committed(rows: seq<Hit>, accepted: seq<int>, tzeros: seq<real>, eventMode: bool, updateTzero: bool): (r: seq<Hit>)
    requires |accepted| == |tzeros|
    ensures |r| == |rows|
  {
    if accepted == [] || !(updateTzero || !eventMode) then rows
    else
      var n := |accepted| - 1;
      var before := Committed(rows, accepted[..n], tzeros[..n], eventMode, updateTzero);
      if eventMode then EventTime0Set(before, accepted[n], tzeros[n])
      else Rewindowed(before, accepted[n], tzeros[n])
  }

  /** The event table after the same commits. */
  function CommittedTimes(rows: seq<EventRow>, accepted: seq<int>, tzeros: seq<real>, eventMode: bool, updateTzero: bool): (r: seq<EventRow>)
    requires |accepted| == |tzeros|
    ensures |r| == |rows|
  {
    if accepted == [] || !(updateTzero || !eventMode) then rows
    else
      var n := |accepted| - 1;
      RowsTime0Set(CommittedTimes(rows, accepted[..n], tzeros[..n], eventMode, updateTzero), accepted[n], tzeros[n])
  }

  /** Committing one more event extends the commits of the events before it. */
  lemma CommittedStep(rows: seq<Hit>, table: seq<EventRow>, accepted: seq<int>, tzeros: seq<real>,
      e: int, t: real, eventMode: bool, updateTzero: bool)
    requires |accepted| == |tzeros|
    ensures var before := Committed(rows, accepted, tzeros, eventMode, updateTzero);
      Committed(rows, accepted + [e], tzeros + [t], eventMode, updateTzero) ==
        if !(updateTzero || !eventMode) then before
        else if eventMode then EventTime0Set(before, e, t)
        else Rewindowed(before, e, t)
    ensures var before := CommittedTimes(table, accepted, tzeros, eventMode, updateTzero);
      CommittedTimes(table, accepted + [e], tzeros + [t], eventMode, updateTzero) ==
        if !(updateTzero || !eventMode) then before else RowsTime0Set(before, e, t)
  {
    assert (accepted + [e])[..|accepted|] == accepted;
    assert (tzeros + [t])[..|tzeros|] == tzeros;
  }

  /** The command-line options and the pattern-module parameters of
      select_accepted_events: `--events` (empty when not given), `--event`,
      `--update_tzero`, `--chambers`, ACCEPTANCE_CHANNELS, PATTERNS,
      `meantimereq`, `mean_tzero` and `tzero_clusters`. */
  datatype Settings = Settings(selected: seq<int>, eventMode: bool, updateTzero: bool, chambers: int,
    acceptance: map<int, set<int>>, patterns: map<Triplet, string>, solve: Solver,
    meanTzero: MeanTzero, clusters: TzeroClusters)
  {
    /** Every acceptance chamber is one of the four windows' indices. */
    predicate InRange()
    {
      forall sl :: sl in acceptance ==> -4 <= sl < 4
    }
  }

  /** The event loop accepts event `e`: it is selected (or no selection was
      given) and its examined hits are not refused. */
  predicate Accepts(rows: seq<Hit>, e: int, o: Settings)
    requires o.InRange()
  {
    && (o.selected == [] || e in o.selected)
    && !Refused(EventHits(rows, o.acceptance, e), o.eventMode, o.chambers, o.patterns, o.solve,
      o.meanTzero, o.clusters)
  }

  /** `t0` is the candidate t0 of event `e` on its examined hits. */
  predicate CandidateOf(rows: seq<Hit>, e: int, t0: real, o: Settings)
  {
    && o.InRange()
    && Candidate(EventHits(rows, o.acceptance, e), t0, o.eventMode, o.chambers, o.patterns, o.solve,
      o.meanTzero, o.clusters)
  }

  /** The t0 the event loop commits for an accepted event: the mean of the
      first large cluster. */
  function AcceptedTzero(rows: seq<Hit>, e: int, o: Settings): (t0: real)
    requires o.InRange() && Accepts(rows, e, o)
    ensures CandidateOf(rows, e, t0, o)
  {
    var cls := o.clusters(Runs(EventHits(rows, o.acceptance, e), o.patterns, o.solve));
    Mean(cls[FirstLarge(cls)])
  }

  /** The keys `p` holds of, in their order. */
  function KeepIf(keys: seq<int>, p: int -> bool): (r: seq<int>)
    ensures |r| <= |keys|
  {
    if keys == [] then []
    else
      var n := |keys| - 1;
      KeepIf(keys[..n], p) + (if p(keys[n]) then [keys[n]] else [])
  }

  /** A key is kept exactly when it is one of the keys and `p` holds of it. */
  lemma {:induction false} KeepIfMembers(keys: seq<int>, p: int -> bool, e: int)
    ensures e in KeepIf(keys, p) <==> e in keys && p(e)
  {
    if keys != [] {
      var n := |keys| - 1;
      KeepIfMembers(keys[..n], p, e);
      assert keys == keys[..n] + [keys[n]];
    }
  }

  /** `s` is strictly increasing. */
  predicate Increasing(s: seq<int>)
  {
    forall i, j :: 0 <= i < j < |s| ==> s[i] < s[j]
  }

  /** Keeping some of strictly increasing keys leaves them strictly increasing. */
  lemma {:induction false} KeepIfIncreasing(keys: seq<int>, p: int -> bool)
    requires Increasing(keys)
    ensures Increasing(KeepIf(keys, p))
  {
    if keys != [] {
      var n := |keys| - 1;
      var prev := KeepIf(keys[..n], p);
      KeepIfIncreasing(keys[..n], p);
      forall i | 0 <= i < |prev| ensures prev[i] < keys[n] {
        KeepIfMembers(keys[..n], p, prev[i]);
        var j :| 0 <= j < n && keys[..n][j] == prev[i];
      }
    }
  }

  /** For the keys `p` holds of, in their order, what `g` gives them. */
  function KeepMap(keys: seq<int>, p: int -> bool, g: int --> real): (r: seq<real>)
    requires forall e :: p(e) ==> g.requires(e)
    ensures |r| == |KeepIf(keys, p)|
  {
    if keys == [] then []
    else
      var n := |keys| - 1;
      KeepMap(keys[..n], p, g) + (if p(keys[n]) then [g(keys[n])] else [])
  }

  /** When every key `p` holds of stands in relation `c` to what `g` gives it,
      the kept keys and the kept values stand in `c` position by position. */
  lemma {:induction false} KeepMapPairs(keys: seq<int>, p: int -> bool, g: int --> real, c: (int, real) -> bool)
    requires forall e :: p(e) ==> g.requires(e) && c(e, g(e))
    ensures forall a :: 0 <= a < |KeepIf(keys, p)| ==> c(KeepIf(keys, p)[a], KeepMap(keys, p, g)[a])
  {
    if keys != [] {
      var n := |keys| - 1;
      KeepMapPairs(keys[..n], p, g, c);
    }
  }

  /** Accepts, as a test on event numbers. */
  function AcceptsIn(rows: seq<Hit>, o: Settings): int -> bool
  {
    (e: int) => o.InRange() && Accepts(rows, e, o)
  }

  /** AcceptedTzero, as a function of the accepted event numbers. */
  function TzeroIn(rows: seq<Hit>, o: Settings): int --> real
  {
    (e: int) requires o.InRange() && Accepts(rows, e, o) => AcceptedTzero(rows, e, o)
  }

  /** `events_accepted` after examining `keys` in order. */
  function AcceptedEvents(rows: seq<Hit>, keys: seq<int>, o: Settings): seq<int>
  {
    KeepIf(keys, AcceptsIn(rows, o))
  }

  /** The t0 committed for each event of AcceptedEvents, in the same order. */
  function AcceptedTzeros(rows: seq<Hit>, keys: seq<int>, o: Settings): (r: seq<real>)
    ensures |r| == |AcceptedEvents(rows, keys, o)|
  {
    KeepMap(keys, AcceptsIn(rows, o), TzeroIn(rows, o))
  }

  /** An event is accepted exactly when it is examined, selected and not
      refused; events examined in ascending order are accepted in ascending
      order. */
  lemma AcceptedEventsMeaning(rows: seq<Hit>, keys: seq<int>, o: Settings)
    requires o.InRange()
    requires Increasing(keys)
    ensures forall e :: e in AcceptedEvents(rows, keys, o) <==> e in keys && Accepts(rows, e, o)
    ensures Increasing(AcceptedEvents(rows, keys, o))
  {
    assert AcceptedEvents(rows, keys, o) == KeepIf(keys, AcceptsIn(rows, o));
    forall e ensures e in AcceptedEvents(rows, keys, o) <==> e in keys && Accepts(rows, e, o) {
      KeepIfMembers(keys, AcceptsIn(rows, o), e);
      assert AcceptsIn(rows, o)(e) == Accepts(rows, e, o);
    }
    KeepIfIncreasing(keys, AcceptsIn(rows, o));
  }

  /** Every accepted event is committed with its candidate t0. */
  lemma AcceptedTzerosAreCandidates(rows: seq<Hit>, keys: seq<int>, o: Settings)
    requires o.InRange()
    ensures var acc, tz := AcceptedEvents(rows, keys, o), AcceptedTzeros(rows, keys, o);
      forall a :: 0 <= a < |acc| ==> CandidateOf(rows, acc[a], tz[a], o)
  {
    var p, g := AcceptsIn(rows, o), TzeroIn(rows, o);
    var c := (e: int, t: real) => CandidateOf(rows, e, t, o);
    forall e | p(e) ensures g.requires(e) && c(e, g(e)) {
      assert Accepts(rows, e, o);
    }
    KeepMapPairs(keys, p, g, c);
  }

  /** The commit of one accepted event: its t0 in the event table, then on
      its hits (trigger mode) or by re-windowing (trigger-less mode); nothing
      unless t0 updates are requested or the mode is trigger-less. */
  method CommitEvent(allhits: HitTable, events: EventTable, e: int, t0: real, eventMode: bool, updateTzero: bool)
    modifies allhits, events
    ensures allhits.rows ==
      if !(updateTzero || !eventMode) then old(allhits.rows)
      else if eventMode then EventTime0Set(old(allhits.rows), e, t0)
      else Rewindowed(old(allhits.rows), e, t0)
    ensures events.rows ==
      if !(updateTzero || !eventMode) then old(events.rows) else RowsTime0Set(old(events.rows), e, t0)
  {
    if updateTzero || !eventMode {
      events.SetTime0(e, t0);
      if eventMode {
        allhits.SetEventTime0(e, t0);
      } else {
        allhits.RewindowEvent(e, t0);
      }
    }
  }

  /** The decision of the event loop on event `e`: skipped when it is not
      selected, otherwise EventTzero on its examined hits. */
  method EventVerdict(snapshot: seq<Hit>, e: int, o: Settings) returns (t: Option<real>)
    requires o.InRange()
    ensures t.Some? <==> Accepts(snapshot, e, o)
    ensures t.Some? ==> t.value == AcceptedTzero(snapshot, e, o)
  {
    if o.selected != [] && e !in o.selected {
      return None;
    }
    var df := EventHits(snapshot, o.acceptance, e);
    t := EventTzero(df, o.eventMode, o.chambers, o.patterns, o.solve, o.meanTzero, o.clusters);
    RefusedIffNoCandidate(df, o.eventMode, o.chambers, o.patterns, o.solve, o.meanTzero, o.clusters);
  }

  /** What one pass of the event loop does with its verdict: an accepted event
      is appended with its t0 and committed; otherwise nothing changes. */
  method RecordVerdict(allhits: HitTable, events: EventTable, snapshot: seq<Hit>, ghost table0: seq<EventRow>,
      accepted: seq<int>, tzeros: seq<real>, e: int, t: Option<real>, eventMode: bool, updateTzero: bool)
    returns (accepted': seq<int>, tzeros': seq<real>)
    requires |accepted| == |tzeros|
    requires allhits.rows == Committed(snapshot, accepted, tzeros, eventMode, updateTzero)
    requires events.rows == CommittedTimes(table0, accepted, tzeros, eventMode, updateTzero)
    modifies allhits, events
    ensures accepted' == accepted + (if t.Some? then [e] else [])
    ensures tzeros' == tzeros + (if t.Some? then [t.value] else [])
    ensures allhits.rows == Committed(snapshot, accepted', tzeros', eventMode, updateTzero)
    ensures events.rows == CommittedTimes(table0, accepted', tzeros', eventMode, updateTzero)
  {
    accepted', tzeros' := accepted, tzeros;
    if t.Some? {
      CommittedStep(snapshot, table0, accepted, tzeros, e, t.value, eventMode, updateTzero);
      accepted', tzeros' := accepted + [e], tzeros + [t.value];
      CommitEvent(allhits, events, e, t.value, eventMode, updateTzero);
    }
  }

  /** Examining one more key appends it, with its t0, exactly when it is
      accepted. */
  lemma AcceptedStep(rows: seq<Hit>, keys: seq<int>, i: nat, o: Settings, t: Option<real>)
    requires o.InRange() && i < |keys|
    requires t.Some? <==> Accepts(rows, keys[i], o)
    requires t.Some? ==> t.value == AcceptedTzero(rows, keys[i], o)
    ensures AcceptedEvents(rows, keys[..i + 1], o) == AcceptedEvents(rows, keys[..i], o) + (if t.Some? then [keys[i]] else [])
    ensures AcceptedTzeros(rows, keys[..i + 1], o) == AcceptedTzeros(rows, keys[..i], o) + (if t.Some? then [t.value] else [])
  {
    assert keys[..i + 1][..i] == keys[..i];
    assert AcceptsIn(rows, o)(keys[i]) == t.Some?;
  }

  /** The loop of select_accepted_events over the event numbers `keys`. */
  method ExamineAll(allhits: HitTable, events: EventTable, snapshot: seq<Hit>, ghost table0: seq<EventRow>,
      keys: seq<int>, o: Settings)
    returns (accepted: seq<int>, tzeros: seq<real>)
    requires o.InRange()
    requires allhits.rows == snapshot && events.rows == table0
    modifies allhits, events
    ensures accepted == AcceptedEvents(snapshot, keys, o)
    ensures tzeros == AcceptedTzeros(snapshot, keys, o)
    ensures allhits.rows == Committed(snapshot, accepted, tzeros, o.eventMode, o.updateTzero)
    ensures events.rows == CommittedTimes(table0, accepted, tzeros, o.eventMode, o.updateTzero)
  {
    accepted, tzeros := [], [];
    for i := 0 to |keys|
      invariant accepted == AcceptedEvents(snapshot, keys[..i], o)
      invariant tzeros == AcceptedTzeros(snapshot, keys[..i], o)
      invariant allhits.rows == Committed(snapshot, accepted, tzeros, o.eventMode, o.updateTzero)
      invariant events.rows == CommittedTimes(table0, accepted, tzeros, o.eventMode, o.updateTzero)
    {
      var t := EventVerdict(snapshot, keys[i], o);
      AcceptedStep(snapshot, keys, i, o, t);
      accepted, tzeros := RecordVerdict(allhits, events, snapshot, table0, accepted, tzeros, keys[i], t,
        o.eventMode, o.updateTzero);
    }
    assert keys[..|keys|] == keys;
  }

  /** select_accepted_events: every examined event (restricted to `--events`
      when that list is not empty) is checked in ascending event number on
      its hits as they were before any commit; the accepted ones get their t0
      committed, and finally only the rows and hits of accepted events remain. */
  method SelectAcceptedEvents(allhits: HitTable, events: EventTable, o: Settings)
    returns (accepted: seq<int>, tzeros: seq<real>)
    requires o.acceptance != map[]
    requires o.InRange()
    modifies allhits, events
    ensures accepted == AcceptedEvents(old(allhits.rows), Ascending(EventKeys(old(allhits.rows), o.acceptance)), o)
    ensures tzeros == AcceptedTzeros(old(allhits.rows), Ascending(EventKeys(old(allhits.rows), o.acceptance)), o)
    ensures forall e :: e in accepted <==> e in EventKeys(old(allhits.rows), o.acceptance) && Accepts(old(allhits.rows), e, o)
    ensures Increasing(accepted)
    ensures forall a :: 0 <= a < |accepted| ==> CandidateOf(old(allhits.rows), accepted[a], tzeros[a], o)
    ensures allhits.rows == Filter(Committed(old(allhits.rows), accepted, tzeros, o.eventMode, o.updateTzero),
      (h: Hit) => h.eventNr in Elems(accepted))
    ensures events.rows == KeptRows(CommittedTimes(old(events.rows), accepted, tzeros, o.eventMode, o.updateTzero),
      Elems(accepted))
  {
    var snapshot := allhits.rows;
    var keys := Ascending(EventKeys(snapshot, o.acceptance));
    accepted, tzeros := ExamineAll(allhits, events, snapshot, events.rows, keys, o);
    AcceptedEventsMeaning(snapshot, keys, o);
    AcceptedTzerosAreCandidates(snapshot, keys, o);
    events.KeepAccepted(Elems(accepted));
    allhits.KeepAcceptedEvents(Elems(accepted));
  }
}
