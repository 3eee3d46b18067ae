/**
 * The grouping and reduction calls every chart makes before it draws:
 * d3.group / d3.rollup keys in first-appearance order, the rows of one
 * group, d3.sum, d3.mean (both skip NaN), and the per-group mean map
 * that d3.rollup(rows, v => d3.mean(v, val), key) builds.
 */
module Aggregate {
  import opened Js
  import Scales

  predicate NoDuplicates<T(==,!new)>(s: seq<T>) {
    forall i, j :: 0 <= i < j < |s| ==> s[i] != s[j]
  }

  /** The position of the first occurrence of `x` in `s`. */
  function FirstIndex<T(==)>(s: seq<T>, x: T): (i: nat)
    requires x in s
    ensures i < |s| && s[i] == x && x !in s[..i]
  {
    if s[0] == x then 0
    else
      assert s == [s[0]] + s[1..];
      var k := FirstIndex(s[1..], x);
      assert s[..k + 1] == [s[0]] + s[1..][..k];
      k + 1
  }

  /** Appending an element does not move the first occurrence of one already there. */
  lemma FirstIndexAppend<T(!new)>(s: seq<T>, y: T, x: T)
    requires x in s
    ensures FirstIndex(s + [y], x) == FirstIndex(s, x)
  {
    var i := FirstIndex(s, x);
    var j := FirstIndex(s + [y], x);
    assert (s + [y])[i] == x;
    assert forall k :: 0 <= k < |s| ==> (s + [y])[k] == s[k];
  }

  /**
   * The elements of `s` without repeats, in order of first appearance:
   * every element once, nothing else, and an earlier first occurrence
   * listed first.
   */
  function Distinct<T(==,!new)>(s: seq<T>): (r: seq<T>)
    ensures NoDuplicates(r)
    ensures forall x :: x in r <==> x in s
    ensures |r| <= |s|
    ensures forall i, j :: 0 <= i < j < |r| ==> FirstIndex(s, r[i]) < FirstIndex(s, r[j])
  {
    if |s| == 0 then []
    else
      var init := s[..|s| - 1];
      var last := s[|s| - 1];
      var p := Distinct(init);
      assert s == init + [last];
      forall x | x in init ensures FirstIndex(s, x) == FirstIndex(init, x) {
        FirstIndexAppend(init, last, x);
      }
      if last in p then p
      else
        var r := p + [last];
        assert last !in init;
        assert FirstIndex(s, last) == |s| - 1 by {
          assert forall k :: 0 <= k < |s| - 1 ==> s[k] == init[k];
        }
        assert forall i :: 0 <= i < |p| ==> r[i] == p[i] && p[i] in init;
        r
  }

  /** `xs.map(f)`. */
  function MapSeq<R, K>(rows: seq<R>, f: R -> K): (r: seq<K>)
    ensures |r| == |rows|
    ensures forall i :: 0 <= i < |rows| ==> r[i] == f(rows[i])
  {
    seq(|rows|, i requires 0 <= i < |rows| => f(rows[i]))
  }

  lemma MapSeqCons<R, K>(x: R, rest: seq<R>, f: R -> K)
    ensures MapSeq([x] + rest, f) == [f(x)] + MapSeq(rest, f)
  {
  }

  lemma WhereCons<R(!new), K(!new)>(r: R, rest: seq<R>, key: R -> K, k: K)
    ensures Where([r] + rest, key, k) == if key(r) == k then [r] + Where(rest, key, k) else Where(rest, key, k)
  {
    assert ([r] + rest)[1..] == rest;
  }

  /** The rows whose key is `k`, in their original order (one group of d3.group). */
  function Where<R(!new), K(==,!new)>(rows: seq<R>, key: R -> K, k: K): (r: seq<R>)
    ensures |r| <= |rows|
    ensures forall x :: x in r <==> x in rows && key(x) == k
    ensures r != [] <==> k in MapSeq(rows, key)
  {
    if |rows| == 0 then []
    else
      var rest := Where(rows[1..], key, k);
      var keys := MapSeq(rows, key);
      assert keys == [key(rows[0])] + MapSeq(rows[1..], key);
      assert forall x :: x in rows <==> x == rows[0] || x in rows[1..];
      if key(rows[0]) == k then
        assert keys[0] == k;
        [rows[0]] + rest
      else
        assert k in keys <==> k in MapSeq(rows[1..], key);
        rest
  }

  /** `rows.filter(p)`: the rows satisfying `p`, in their original order. */
  function Filter<R(!new)>(rows: seq<R>, p: R -> bool): (r: seq<R>)
    ensures |r| <= |rows|
    ensures forall x :: x in r <==> x in rows && p(x)
  {
    if |rows| == 0 then []
    else
      var rest := Filter(rows[1..], p);
      assert rows == [rows[0]] + rows[1..];
      if p(rows[0]) then [rows[0]] + rest else rest
  }

  /**
   * Mapping each row to a record or null and dropping the nulls (what
   * d3.csv does with a row function, and `map` followed by a `filter`).
   */
  function Collect<R(!new), T(!new)>(rows: seq<R>, f: R -> Option<T>): (r: seq<T>)
    ensures |r| <= |rows|
    ensures forall t :: t in r <==> exists x :: x in rows && f(x) == Some(t)
  {
    if rows == [] then []
    else
      var rest := Collect(rows[1..], f);
      assert forall x :: x in rows <==> x == rows[0] || x in rows[1..];
      match f(rows[0])
      case None => rest
      case Some(t) => [t] + rest
  }

  /** The group keys of d3.group(rows, key), in iteration order. */
  function Keys<R(!new), K(==,!new)>(rows: seq<R>, key: R -> K): (ks: seq<K>)
    ensures NoDuplicates(ks)
    ensures forall k :: k in ks <==> k in MapSeq(rows, key)
    ensures forall i, j :: 0 <= i < j < |ks| ==> FirstIndex(MapSeq(rows, key), ks[i]) < FirstIndex(MapSeq(rows, key), ks[j])
  {
    Distinct(MapSeq(rows, key))
  }

  /** A list without repeats has as many members as the set of its members. */
  lemma {:induction false} DistinctCard<T(!new)>(ks: seq<T>, ps: set<T>)
    requires NoDuplicates(ks)
    requires forall k :: k in ks <==> k in ps
    ensures |ks| == |ps|
  {
    if ks != [] {
      assert NoDuplicates(ks[1..]) by {
        forall i, j | 0 <= i < j < |ks[1..]| ensures ks[1..][i] != ks[1..][j] {
          assert ks[1..][i] == ks[i + 1] && ks[1..][j] == ks[j + 1];
        }
      }
      forall k ensures k in ks[1..] <==> k in ps - {ks[0]} {
        if k in ks[1..] {
          var j :| 0 <= j < |ks[1..]| && ks[1..][j] == k;
          assert ks[j + 1] == k;
        }
        if k in ks && k != ks[0] {
          var j :| 0 <= j < |ks| && ks[j] == k;
          assert ks[1..][j - 1] == k;
        }
      }
      DistinctCard(ks[1..], ps - {ks[0]});
    } else {
      assert forall k :: k !in ps;
      assert ps == {};
    }
  }
  /** A key occurs among the keys exactly when some row has it. */
  lemma InMapSeq<R(!new), K(!new)>(rows: seq<R>, key: R -> K, k: K)
    ensures k in MapSeq(rows, key) <==> exists x :: x in rows && key(x) == k
  {
    if exists x :: x in rows && key(x) == k {
      var x :| x in rows && key(x) == k;
      var i :| 0 <= i < |rows| && rows[i] == x;
      assert MapSeq(rows, key)[i] == k;
    }
  }

  function Sum(xs: seq<real>): real {
    if xs == [] then 0.0 else xs[0] + Sum(xs[1..])
  }

  lemma SumCons(x: real, xs: seq<real>)
    ensures Sum([x] + xs) == x + Sum(xs)
  {
    assert ([x] + xs)[1..] == xs;
  }

  /** The mean of a list of numbers, None for the empty list. */
  function Mean(xs: seq<real>): (m: Option<real>)
    ensures m.Some? <==> xs != []
  {
    if xs == [] then None else Some(Sum(xs) / |xs| as real)
  }

  /** The numeric members of a list, in order (what d3.sum and d3.mean look at). */
  function Numbers(xs: seq<Num>): (r: seq<real>)
    ensures |r| <= |xs|
    ensures (forall i :: 0 <= i < |xs| ==> xs[i].Real?) ==>
              |r| == |xs| && forall i :: 0 <= i < |xs| ==> r[i] == xs[i].r
  {
    if xs == [] then []
    else
      var rest := Numbers(xs[1..]);
      if xs[0].Real? then [xs[0].r] + rest else rest
  }

  /** There is nothing to average exactly when no member is numeric. */
  lemma {:induction false} NumbersEmpty(xs: seq<Num>)
    ensures Numbers(xs) == [] <==> forall i :: 0 <= i < |xs| ==> xs[i].NaN?
  {
    if xs != [] {
      NumbersEmpty(xs[1..]);
      assert forall i :: 1 <= i < |xs| ==> xs[i] == xs[1..][i - 1];
    }
  }

  /** d3.mean: the mean of the numeric members, None (undefined) if there is none. */
  function MeanNum(xs: seq<Num>): Option<real> {
    Mean(Numbers(xs))
  }

  /** d3.rollup(rows, v => d3.mean(v, val), key) as a lookup table. */
  function GroupMean<R(!new), K(==,!new)>(rows: seq<R>, key: R -> K, val: R -> Num): (m: map<K, Option<real>>)
    ensures forall k :: k in m <==> k in MapSeq(rows, key)
    ensures forall k :: k in m ==> m[k] == MeanNum(MapSeq(Where(rows, key, k), val))
  {
    map k | k in MapSeq(rows, key) :: MeanNum(MapSeq(Where(rows, key, k), val))
  }

  /** A group whose values are all numeric has a defined mean. */
  lemma GroupMeanDefined<R(!new), K(!new)>(rows: seq<R>, key: R -> K, val: R -> Num, k: K)
    requires forall i :: 0 <= i < |rows| ==> val(rows[i]).Real?
    requires k in MapSeq(rows, key)
    ensures GroupMean(rows, key, val)[k].Some?
  {
    var w := Where(rows, key, k);
    var vs := MapSeq(w, val);
    assert w[0] in rows;
    assert vs[0].Real?;
    NumbersKeepsNumeric(vs, 0);
  }

  lemma {:induction false} NumbersKeepsNumeric(xs: seq<Num>, i: nat)
    requires i < |xs| && xs[i].Real?
    ensures Numbers(xs) != []
  {
    if i > 0 && !xs[0].Real? {
      NumbersKeepsNumeric(xs[1..], i - 1);
    }
  }

  // ---------------------------------------------------------------------
  // Sums over a partition into groups

  /** The sum of the group sums, for the groups named in `ks`. */
  function SumGroups<R(!new), K(==,!new)>(rows: seq<R>, key: R -> K, val: R -> real, ks: seq<K>): real {
    if ks == [] then 0.0
    else Sum(MapSeq(Where(rows, key, ks[0]), val)) + SumGroups(rows, key, val, ks[1..])
  }

  lemma {:induction false} SumConcat(a: seq<real>, b: seq<real>)
    ensures Sum(a + b) == Sum(a) + Sum(b)
  {
    if a == [] {
      assert a + b == b;
    } else {
      assert (a + b)[1..] == a[1..] + b;
      SumConcat(a[1..], b);
    }
  }

  lemma {:induction false} SumGroupsCons<R(!new), K(!new)>(r: R, rest: seq<R>, key: R -> K, val: R -> real, ks: seq<K>)
    requires NoDuplicates(ks)
    ensures SumGroups([r] + rest, key, val, ks)
         == SumGroups(rest, key, val, ks) + (if key(r) in ks then val(r) else 0.0)
  {
    if ks != [] {
      var k, ks' := ks[0], ks[1..];
      assert ks == [k] + ks';
      assert NoDuplicates(ks') by {
        forall i, j | 0 <= i < j < |ks'| ensures ks'[i] != ks'[j] {
          assert ks'[i] == ks[i + 1] && ks'[j] == ks[j + 1];
        }
      }
      SumGroupsCons(r, rest, key, val, ks');
      var w := Where(rest, key, k);
      WhereCons(r, rest, key, k);
      if key(r) == k {
        MapSeqCons(r, w, val);
        SumCons(val(r), MapSeq(w, val));
        assert key(r) !in ks' by {
          forall j | 0 <= j < |ks'| ensures ks'[j] != k {
            assert ks'[j] == ks[j + 1];
          }
        }
      } else {
        assert key(r) in ks <==> key(r) in ks';
      }
    }
  }

  /**
   * When every row's key is among the distinct keys `ks`, the group sums
   * add up to the sum over all rows: each row lands in exactly one group.
   */
  lemma {:induction false} SumPartition<R(!new), K(!new)>(rows: seq<R>, key: R -> K, val: R -> real, ks: seq<K>)
    requires NoDuplicates(ks)
    requires forall i :: 0 <= i < |rows| ==> key(rows[i]) in ks
    ensures SumGroups(rows, key, val, ks) == Sum(MapSeq(rows, val))
  {
    if rows == [] {
      SumGroupsEmpty(key, val, ks);
    } else {
      var r, rest := rows[0], rows[1..];
      assert rows == [r] + rest;
      forall i | 0 <= i < |rest| ensures key(rest[i]) in ks {
        assert rest[i] == rows[i + 1];
      }
      SumPartition(rest, key, val, ks);
      SumGroupsCons(r, rest, key, val, ks);
      assert key(r) in ks;
      MapSeqCons(r, rest, val);
      SumCons(val(r), MapSeq(rest, val));
    }
  }

  /** The group sums of the groups named in `ks`, in that order. */
  function GroupSums<R(!new), K(==,!new)>(rows: seq<R>, key: R -> K, val: R -> real, ks: seq<K>): (r: seq<real>)
    ensures |r| == |ks|
    ensures forall i :: 0 <= i < |ks| ==> r[i] == Sum(MapSeq(Where(rows, key, ks[i]), val))
  {
    seq(|ks|, i requires 0 <= i < |ks| => Sum(MapSeq(Where(rows, key, ks[i]), val)))
  }

  lemma {:induction false} SumOfGroupSums<R(!new), K(!new)>(rows: seq<R>, key: R -> K, val: R -> real, ks: seq<K>)
    ensures Sum(GroupSums(rows, key, val, ks)) == SumGroups(rows, key, val, ks)
  {
    if ks != [] {
      assert GroupSums(rows, key, val, ks)[1..] == GroupSums(rows, key, val, ks[1..]);
      SumOfGroupSums(rows, key, val, ks[1..]);
    }
  }

  /** Summing the group sums over all keys of the rows gives the sum over all rows. */
  lemma GroupSumsTotal<R(!new), K(!new)>(rows: seq<R>, key: R -> K, val: R -> real)
    ensures Sum(GroupSums(rows, key, val, Keys(rows, key))) == Sum(MapSeq(rows, val))
  {
    var ks := Keys(rows, key);
    SumOfGroupSums(rows, key, val, ks);
    forall i | 0 <= i < |rows| ensures key(rows[i]) in ks {
      assert MapSeq(rows, key)[i] == key(rows[i]);
    }
    SumPartition(rows, key, val, ks);
  }

  /**
   * When a row's second key determines its first, selecting on the first
   * and then on the second is selecting on the second alone.
   */
  lemma {:induction false} WhereDetermined<R(!new), K(!new), L(!new)>(rows: seq<R>, k1: R -> K, a: K, k2: R -> L, b: L)
    requires forall i :: 0 <= i < |rows| && k2(rows[i]) == b ==> k1(rows[i]) == a
    ensures Where(Where(rows, k1, a), k2, b) == Where(rows, k2, b)
  {
    if rows != [] {
      WhereDetermined(rows[1..], k1, a, k2, b);
      if k1(rows[0]) == a {
        assert Where(rows, k1, a) == [rows[0]] + Where(rows[1..], k1, a);
        assert ([rows[0]] + Where(rows[1..], k1, a))[1..] == Where(rows[1..], k1, a);
      }
    }
  }

  lemma {:induction false} SumGroupsEmpty<R(!new), K(!new)>(key: R -> K, val: R -> real, ks: seq<K>)
    ensures SumGroups([], key, val, ks) == 0.0
  {
    if ks != [] {
      SumGroupsEmpty(key, val, ks[1..]);
    }
  }

  lemma SumBounds(xs: seq<real>, lo: real, hi: real)
    requires forall x :: x in xs ==> lo <= x <= hi
    ensures |xs| as real * lo <= Sum(xs) <= |xs| as real * hi
  {
    forall i | 0 <= i < |xs| ensures lo <= xs[i] <= hi {
      assert xs[i] in xs;
    }
    SumBoundsAt(xs, lo, hi);
  }

  lemma {:induction false} SumBoundsAt(xs: seq<real>, lo: real, hi: real)
    requires forall i :: 0 <= i < |xs| ==> lo <= xs[i] <= hi
    ensures |xs| as real * lo <= Sum(xs) <= |xs| as real * hi
  {
    if xs == [] {
      ZeroTimes(lo, hi);
    } else {
      var rest := xs[1..];
      forall i | 0 <= i < |rest| ensures lo <= rest[i] <= hi {
        assert rest[i] == xs[i + 1];
      }
      SumBoundsAt(rest, lo, hi);
      BoundsStep(|rest| as real, lo, hi, xs[0], Sum(rest));
    }
  }

  lemma ZeroTimes(lo: real, hi: real)
    ensures 0.0 * lo == 0.0 && 0.0 * hi == 0.0
  {
  }

  lemma BoundsStep(n: real, lo: real, hi: real, x: real, s: real)
    requires n * lo <= s <= n * hi && lo <= x <= hi
    ensures (n + 1.0) * lo <= x + s <= (n + 1.0) * hi
  {
    assert (n + 1.0) * lo == n * lo + lo;
    assert (n + 1.0) * hi == n * hi + hi;
  }

  /** A mean lies between the smallest and the largest value averaged. */
  lemma MeanBetween(xs: seq<real>)
    requires xs != []
    ensures Scales.Min(xs) <= Mean(xs).value <= Scales.Max(xs)
  {
    var lo, hi := Scales.Min(xs), Scales.Max(xs);
    SumBounds(xs, lo, hi);
    DivBetween(Sum(xs), |xs| as real, lo, hi);
  }

  lemma DivBetween(s: real, n: real, lo: real, hi: real)
    requires n > 0.0 && n * lo <= s <= n * hi
    ensures lo <= s / n <= hi
  {
    var q := s / n;
    assert q * n == s;
  }
}
