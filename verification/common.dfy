/** Small shared vocabulary: an optional value, sorting by a real-valued key,
    and the extremes of a non-empty sequence of reals. */
module Common {

  datatype Option<T> = None | Some(value: T)

  /** An unsigned 8-bit column value (`np.uint8`). */
  newtype Byte = x: int | 0 <= x < 256

  /** `s` is in ascending order of `key`. */
  predicate SortedBy<T>(s: seq<T>, key: T -> real)
  {
    forall i, j :: 0 <= i < j < |s| ==> key(s[i]) <= key(s[j])
  }

  /** Inserts `x` into the sorted `s`, after every element with a key below its own and
      before every element with an equal or larger key. */
  function InsertBy<T>(x: T, s: seq<T>, key: T -> real): (r: seq<T>)
    requires SortedBy(s, key)
    ensures SortedBy(r, key)
    ensures multiset(r) == multiset(s) + multiset{x}
    ensures |r| == |s| + 1
  {
    if s == [] then [x]
    else if key(x) <= key(s[0]) then [x] + s
    else
      var rest := InsertBy(x, s[1..], key);
      assert s == [s[0]] + s[1..];
      LowerBoundKept(s[0], x, s[1..], rest, key);
      [s[0]] + rest
  }

  /** A key bound on `x` and on every element of `s` bounds every element of
      any re-arrangement of `s` plus `x`. */
  lemma LowerBoundKept<T>(lo: T, x: T, s: seq<T>, r: seq<T>, key: T -> real)
    requires key(lo) <= key(x)
    requires forall k :: 0 <= k < |s| ==> key(lo) <= key(s[k])
    requires multiset(r) == multiset(s) + multiset{x}
    ensures forall k :: 0 <= k < |r| ==> key(lo) <= key(r[k])
  {
    forall k | 0 <= k < |r| ensures key(lo) <= key(r[k]) {
      assert r[k] in multiset(r);
      if r[k] != x {
        assert r[k] in multiset(s);
        var j :| 0 <= j < |s| && s[j] == r[k];
      }
    }
  }

  /** The hits of a table or a group, re-ordered by ascending key (sort_values).
      Insertion from the back puts the earlier of two equal keys first; pandas'
      default sort leaves the order of equal keys unspecified, so no contract
      here depends on it. */
  function SortBy<T>(s: seq<T>, key: T -> real): (r: seq<T>)
    ensures SortedBy(r, key)
    ensures multiset(r) == multiset(s)
    ensures |r| == |s|
  {
    if s == [] then []
    else
      assert s == [s[0]] + s[1..];
      InsertBy(s[0], SortBy(s[1..], key), key)
  }

  /** The identity key, to sort plain reals. */
  function Id(x: real): real { x }

  /** The largest element of a non-empty sequence. */
  function MaxOf(s: seq<real>): (m: real)
    requires |s| > 0
    ensures forall i :: 0 <= i < |s| ==> s[i] <= m
    ensures exists i :: 0 <= i < |s| && s[i] == m
  {
    if |s| == 1 then s[0]
    else
      var m' := MaxOf(s[1..]);
      assert forall i :: 1 <= i < |s| ==> s[i] == s[1..][i - 1];
      if s[0] >= m' then s[0] else m'
  }

  /** The smallest element of a non-empty sequence. */
  function MinOf(s: seq<real>): (m: real)
    requires |s| > 0
    ensures forall i :: 0 <= i < |s| ==> m <= s[i]
    ensures exists i :: 0 <= i < |s| && s[i] == m
  {
    if |s| == 1 then s[0]
    else
      var m' := MinOf(s[1..]);
      assert forall i :: 1 <= i < |s| ==> s[i] == s[1..][i - 1];
      if s[0] <= m' then s[0] else m'
  }

  /** In an ascending permutation of `s`, the ends are the extremes of `s`. */
  lemma PermutationEnds(r: seq<real>, s: seq<real>)
    requires |s| > 0 && multiset(r) == multiset(s)
    requires forall i, j :: 0 <= i < j < |r| ==> r[i] <= r[j]
    ensures |r| == |s| && r[|r| - 1] == MaxOf(s) && r[0] == MinOf(s)
  {
    assert |r| == |multiset(r)| == |s|;
    var n := |r|;
    var hi, lo := MaxOf(s), MinOf(s);
    // both ends of r occur in s, so they lie between the extremes
    assert r[n - 1] in multiset(r) && r[0] in multiset(r);
    var a :| 0 <= a < |s| && s[a] == r[n - 1];
    var b :| 0 <= b < |s| && s[b] == r[0];
    // both extremes of s occur in r, so they lie between its ends
    var c :| 0 <= c < |s| && s[c] == hi;
    var d :| 0 <= d < |s| && s[d] == lo;
    assert s[c] in multiset(s) && s[d] in multiset(s);
    var c' :| 0 <= c' < n && r[c'] == hi;
    var d' :| 0 <= d' < n && r[d'] == lo;
    assert r[c'] <= r[n - 1] && r[0] <= r[d'];
  }

  /** After sorting, the last element is the maximum and the first the minimum:
      `sorted(x)[-1] - sorted(x)[0]` is the spread of `x`. */
  lemma SortedEnds(s: seq<real>)
    requires |s| > 0
    ensures var r := SortBy(s, Id); |r| == |s| && r[|r| - 1] == MaxOf(s) && r[0] == MinOf(s)
  {
    var r := SortBy(s, Id);
    assert forall i, j :: 0 <= i < j < |r| ==> Id(r[i]) <= Id(r[j]);
    PermutationEnds(r, s);
  }

  /** The number of distinct values that `f` takes on `s` (pandas nunique). */
  function NUnique<T, U>(s: seq<T>, f: T -> U): nat
  {
    |set i | 0 <= i < |s| :: f(s[i])|
  }

  /** A subset is no larger than its superset. */
  lemma {:induction false} SubsetCard<T>(a: set<T>, b: set<T>)
    requires a <= b
    ensures |a| <= |b|
    decreases |a|
  {
    if |a| > 0 {
      var x :| x in a;
      SubsetCard(a - {x}, b - {x});
    }
  }

  /** Some element of a non-empty set. */
  lemma Element<T>(s: set<T>) returns (y: T)
    requires |s| > 0
    ensures y in s
  {
    y :| y in s;
  }

  /** A non-empty finite set of integers has a least element. */
  lemma {:induction false} MinExists(s: set<int>)
    requires |s| > 0
    ensures exists m :: m in s && forall x :: x in s ==> m <= x
    decreases |s|
  {
    var y := Element(s);
    var rest := s - {y};
    if |rest| > 0 {
      MinExists(rest);
      var m :| m in rest && forall x :: x in rest ==> m <= x;
      var least := if y < m then y else m;
      forall x | x in s ensures least <= x {
        if x != y {
          assert x in rest;
        }
      }
    } else {
      assert rest == {};
      assert s == {y};
    }
  }

  /** The least element of a non-empty finite set of integers. */
  function Least(s: set<int>): (m: int)
    requires |s| > 0
    ensures m in s && forall x :: x in s ==> m <= x
  {
    MinExists(s);
    var m :| m in s && forall x :: x in s ==> m <= x;
    m
  }

  /** The elements of a finite set of integers in ascending order, each once
      (the key order of a pandas groupby). */
  function Ascending(s: set<int>): (r: seq<int>)
    ensures |r| == |s|
    ensures forall i :: 0 <= i < |r| ==> r[i] in s
    ensures forall x :: x in s ==> x in r
    ensures forall i, j :: 0 <= i < j < |r| ==> r[i] < r[j]
    decreases |s|
  {
    if |s| == 0 then []
    else
      var m := Least(s);
      var rest := Ascending(s - {m});
      PrependLeast(s, m, rest);
      [m] + rest
  }

  /** The least element of `s` before the other elements in ascending order
      gives all of `s` in ascending order. */
  lemma PrependLeast(s: set<int>, m: int, rest: seq<int>)
    requires m in s && forall x :: x in s ==> m <= x
    requires |rest| == |s - {m}|
    requires forall i :: 0 <= i < |rest| ==> rest[i] in s - {m}
    requires forall x :: x in s - {m} ==> x in rest
    requires forall i, j :: 0 <= i < j < |rest| ==> rest[i] < rest[j]
    ensures |[m] + rest| == |s|
    ensures forall i :: 0 <= i < |[m] + rest| ==> ([m] + rest)[i] in s
    ensures forall x :: x in s ==> x in [m] + rest
    ensures forall i, j :: 0 <= i < j < |[m] + rest| ==> ([m] + rest)[i] < ([m] + rest)[j]
  {
    assert s == (s - {m}) + {m};
    var r := [m] + rest;
    forall i | 1 <= i < |r| ensures r[i] == rest[i - 1] && m < r[i] {
      assert rest[i - 1] in s - {m};
    }
  }
}
