/**
 * `array.sort((a, b) => d3.ascending(key(a), key(b)))` on a freshly
 * built array, as an insertion sort over values, for any strict total
 * order on keys, together with JavaScript's string `<` (`LexLess`), the
 * order the charts sort text keys by; the order on dates is defined with
 * the dates.
 */
module Sorting {

  /** A strict total order on keys. */
  ghost predicate StrictOrder<K(!new)>(lt: (K, K) -> bool) {
    && (forall a :: !lt(a, a))
    && (forall a, b, c :: lt(a, b) && lt(b, c) ==> lt(a, c))
    && (forall a, b :: a != b ==> lt(a, b) || lt(b, a))
  }

  predicate StrictlySorted<T, K>(s: seq<T>, key: T -> K, lt: (K, K) -> bool) {
    forall i, j :: 0 <= i < j < |s| ==> lt(key(s[i]), key(s[j]))
  }

  predicate DistinctKeys<T, K(==)>(s: seq<T>, key: T -> K) {
    forall i, j :: 0 <= i < j < |s| ==> key(s[i]) != key(s[j])
  }

  function Insert<T(==), K>(x: T, s: seq<T>, key: T -> K, lt: (K, K) -> bool): (r: seq<T>)
    ensures multiset(r) == multiset(s) + multiset{x}
    ensures |r| == |s| + 1
  {
    if s == [] then [x]
    else if lt(key(x), key(s[0])) then [x] + s
    else
      assert s == [s[0]] + s[1..];
      [s[0]] + Insert(x, s[1..], key, lt)
  }

  /** The elements of `s` ordered by ascending key. */
  function SortBy<T(==), K>(s: seq<T>, key: T -> K, lt: (K, K) -> bool): (r: seq<T>)
    ensures multiset(r) == multiset(s)
    ensures |r| == |s|
  {
    if s == [] then []
    else
      assert s == [s[0]] + s[1..];
      Insert(s[0], SortBy(s[1..], key, lt), key, lt)
  }

  lemma {:induction false} InsertSorted<T(!new), K(!new)>(x: T, s: seq<T>, key: T -> K, lt: (K, K) -> bool)
    requires StrictOrder(lt)
    requires StrictlySorted(s, key, lt)
    requires forall y :: y in s ==> key(y) != key(x)
    ensures StrictlySorted(Insert(x, s, key, lt), key, lt)
  {
    if s == [] {
    } else if lt(key(x), key(s[0])) {
      forall k | 0 <= k < |s| ensures lt(key(x), key(s[k])) {
        if k > 0 {
          assert lt(key(s[0]), key(s[k]));
        }
      }
      PrependSorted(x, s, key, lt);
    } else {
      assert key(s[0]) != key(x);
      var tail := s[1..];
      assert StrictlySorted(tail, key, lt) by {
        forall i, j | 0 <= i < j < |tail| ensures lt(key(tail[i]), key(tail[j])) {
          assert tail[i] == s[i + 1] && tail[j] == s[j + 1];
        }
      }
      forall y | y in tail ensures key(y) != key(x) {
        assert y in s;
      }
      InsertSorted(x, tail, key, lt);
      var ins := Insert(x, tail, key, lt);
      forall k | 0 <= k < |ins| ensures lt(key(s[0]), key(ins[k])) {
        assert ins[k] in multiset(ins);
        if ins[k] != x {
          assert ins[k] in multiset(tail);
          var m :| 0 <= m < |tail| && tail[m] == ins[k];
          assert tail[m] == s[m + 1];
        }
      }
      PrependSorted(s[0], ins, key, lt);
    }
  }

  /** An element below every element of a sorted list can go in front. */
  lemma PrependSorted<T, K>(x: T, s: seq<T>, key: T -> K, lt: (K, K) -> bool)
    requires StrictlySorted(s, key, lt)
    requires forall k :: 0 <= k < |s| ==> lt(key(x), key(s[k]))
    ensures StrictlySorted([x] + s, key, lt)
  {
    var r := [x] + s;
    forall i, j | 0 <= i < j < |r| ensures lt(key(r[i]), key(r[j])) {
      if i == 0 {
        assert r[j] == s[j - 1];
      } else {
        assert r[i] == s[i - 1] && r[j] == s[j - 1];
      }
    }
  }

  /** Sorting elements with distinct keys orders them strictly by key. */
  lemma {:induction false} SortBySorted<T(!new), K(!new)>(s: seq<T>, key: T -> K, lt: (K, K) -> bool)
    requires StrictOrder(lt)
    requires DistinctKeys(s, key)
    ensures StrictlySorted(SortBy(s, key, lt), key, lt)
  {
    if s != [] {
      var tail := s[1..];
      assert DistinctKeys(tail, key) by {
        forall i, j | 0 <= i < j < |tail| ensures key(tail[i]) != key(tail[j]) {
          assert tail[i] == s[i + 1] && tail[j] == s[j + 1];
        }
      }
      SortBySorted(tail, key, lt);
      var sorted := SortBy(tail, key, lt);
      forall y | y in sorted ensures key(y) != key(s[0]) {
        assert y in multiset(tail);
        var m :| 0 <= m < |tail| && tail[m] == y;
        assert tail[m] == s[m + 1];
      }
      InsertSorted(s[0], sorted, key, lt);
    }
  }

  // ---------------------------------------------------------------------
  // Key orders

  /** JavaScript's `a < b` on strings: lexicographic order by character. */
  predicate LexLess(a: string, b: string) {
    if a == [] then b != []
    else if b == [] then false
    else if a[0] != b[0] then a[0] < b[0]
    else LexLess(a[1..], b[1..])
  }

  lemma {:induction false} LexIrreflexive(a: string)
    ensures !LexLess(a, a)
  {
    if a != [] {
      LexIrreflexive(a[1..]);
    }
  }

  lemma {:induction false} LexTransitive(a: string, b: string, c: string)
    requires LexLess(a, b) && LexLess(b, c)
    ensures LexLess(a, c)
  {
    if a != [] && b != [] && c != [] && a[0] == b[0] && b[0] == c[0] {
      LexTransitive(a[1..], b[1..], c[1..]);
    }
  }

  lemma {:induction false} LexTotal(a: string, b: string)
    requires a != b
    ensures LexLess(a, b) || LexLess(b, a)
  {
    if a != [] && b != [] && a[0] == b[0] {
      assert a == [a[0]] + a[1..] && b == [b[0]] + b[1..];
      LexTotal(a[1..], b[1..]);
    }
  }

  lemma LexLessIsStrictOrder()
    ensures StrictOrder(LexLess)
  {
    forall a ensures !LexLess(a, a) {
      LexIrreflexive(a);
    }
    forall a, b, c | LexLess(a, b) && LexLess(b, c) ensures LexLess(a, c) {
      LexTransitive(a, b, c);
    }
    forall a, b | a != b ensures LexLess(a, b) || LexLess(b, a) {
      LexTotal(a, b);
    }
  }
}
