/**
 * The two pieces of d3 scale behaviour the charts' data decisions rest
 * on: the bucket a threshold scale puts a value in, and the extent used
 * as a colour domain.
 */
module Scales {
  import opened Js

  predicate Ascending(ts: seq<real>) {
    forall i, j :: 0 <= i < j < |ts| ==> ts[i] < ts[j]
  }

  /**
   * d3.scaleThreshold's bucket for `v`: the number of leading thresholds
   * at or below `v`, which is what bisectRight returns for the ascending
   * threshold lists the charts use.
   */
  function ThresholdIndex(ts: seq<real>, v: real): (i: nat)
    ensures i <= |ts|
  {
    if ts == [] || v < ts[0] then 0 else 1 + ThresholdIndex(ts[1..], v)
  }

  /**
   * For ascending thresholds the bucket is the one interval
   * ts[i-1] <= v < ts[i] that contains the value.
   */
  lemma {:induction false} ThresholdIndexBrackets(ts: seq<real>, v: real, i: nat)
    requires Ascending(ts)
    requires i <= |ts|
    ensures ThresholdIndex(ts, v) == i
        <==> (i == 0 || ts[i - 1] <= v) && (i == |ts| || v < ts[i])
  {
    if ts != [] && v >= ts[0] {
      assert Ascending(ts[1..]) by {
        forall a, b | 0 <= a < b < |ts[1..]| ensures ts[1..][a] < ts[1..][b] {
          assert ts[1..][a] == ts[a + 1] && ts[1..][b] == ts[b + 1];
        }
      }
      if i > 0 {
        ThresholdIndexBrackets(ts[1..], v, i - 1);
        assert i - 1 > 0 ==> ts[1..][i - 2] == ts[i - 1];
        assert i - 1 < |ts[1..]| ==> ts[1..][i - 1] == ts[i];
      }
    } else if i > 0 {
      assert ts[0] <= ts[i - 1];
    }
  }

  /** The number of thresholds at or below `v` is the bucket. */
  lemma {:induction false} ThresholdIndexCounts(ts: seq<real>, v: real)
    requires Ascending(ts)
    ensures forall k :: 0 <= k < ThresholdIndex(ts, v) ==> ts[k] <= v
    ensures forall k :: ThresholdIndex(ts, v) <= k < |ts| ==> v < ts[k]
  {
    var i := ThresholdIndex(ts, v);
    ThresholdIndexBrackets(ts, v, i);
    forall k | 0 <= k < i ensures ts[k] <= v {
      if k < i - 1 { assert ts[k] < ts[i - 1]; }
    }
    forall k | i <= k < |ts| ensures v < ts[k] {
      if i < k { assert ts[i] < ts[k]; }
    }
  }

  /** A larger value never lands in a lower bucket. */
  lemma {:induction false} ThresholdIndexMonotone(ts: seq<real>, v: real, w: real)
    requires v <= w
    ensures ThresholdIndex(ts, v) <= ThresholdIndex(ts, w)
  {
    if ts != [] && v >= ts[0] {
      ThresholdIndexMonotone(ts[1..], v, w);
    }
  }

  /** d3.min of a non-empty list of numbers. */
  function Min(xs: seq<real>): (m: real)
    requires xs != []
    ensures m in xs
    ensures forall x :: x in xs ==> m <= x
  {
    if |xs| == 1 then xs[0]
    else
      var rest := Min(xs[1..]);
      assert forall x :: x in xs ==> x == xs[0] || x in xs[1..];
      if xs[0] <= rest then xs[0] else rest
  }

  /** d3.max of a non-empty list of numbers. */
  function Max(xs: seq<real>): (m: real)
    requires xs != []
    ensures m in xs
    ensures forall x :: x in xs ==> x <= m
  {
    if |xs| == 1 then xs[0]
    else
      var rest := Max(xs[1..]);
      assert forall x :: x in xs ==> x == xs[0] || x in xs[1..];
      if xs[0] >= rest then xs[0] else rest
  }

  /** `x` lies between two members of `a`. */
  predicate Inside(a: seq<real>, x: real) {
    exists lo, hi :: lo in a && hi in a && lo <= x <= hi
  }

  /**
   * Adding values that each lie between two values already present
   * changes neither the smallest nor the largest.
   */
  lemma ExtentKept(a: seq<real>, c: seq<real>)
    requires forall x :: x in a ==> x in c
    requires forall x :: x in c ==> x in a || Inside(a, x)
    ensures c == [] <==> a == []
    ensures a != [] ==> Min(c) == Min(a) && Max(c) == Max(a)
  {
    if c != [] {
      assert c[0] in a || Inside(a, c[0]);
      assert a != [];
    }
    if a != [] {
      assert Min(a) in c && Max(a) in c;
      assert Min(c) in a || Inside(a, Min(c));
      assert Max(c) in a || Inside(a, Max(c));
    }
  }

  /**
   * `values.length ? d3.extent(values) : fallback`: the smallest and the
   * largest value, or the fallback domain for an empty list.
   */
  function ExtentOr(xs: seq<real>, fallback: (real, real)): (d: (real, real))
    ensures xs == [] ==> d == fallback
    ensures xs != [] ==> d.0 in xs && d.1 in xs
    ensures forall x :: x in xs ==> d.0 <= x <= d.1
  {
    if xs == [] then fallback else (Min(xs), Max(xs))
  }
}
