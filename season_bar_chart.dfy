/**
 * The bar chart of rows per season: a count per distinct `계절` value,
 * with only the null value removed.
 */
module SeasonBarChart {
  import opened Aggregate

  /** `d["계절"]` of a JSON row: missing, null, or a text. */
  datatype SeasonValue = Undefined | Null | Text(s: string)

  function Id(v: SeasonValue): SeasonValue { v }

  /** One bar: `{season, count}`. */
  datatype Entry = Entry(season: SeasonValue, count: nat)

  predicate NotNull(v: SeasonValue) { v != Null }

  /** `season !== null` on the group keys: undefined is not null and stays. */
  function Seasons(values: seq<SeasonValue>): seq<SeasonValue> {
    Filter(Keys(values, Id), NotNull)
  }

  /** The number of rows with a given season value, `v.length` of its group. */
  function Count(values: seq<SeasonValue>, k: SeasonValue): nat {
    |Where(values, Id, k)|
  }

  /**
   * `d3.rollups(data, v => v.length, d => d["계절"])`, then the filter
   * and the `map` to `{season, count}` (the filter and the map commute,
   * so the keys are filtered first). `values` is the `계절` of each row.
   */
  function FinalData(values: seq<SeasonValue>): (entries: seq<Entry>)
    ensures |entries| == |Seasons(values)|
  {
    MapSeq(Seasons(values), (k: SeasonValue) => Entry(k, Count(values, k)))
  }

  lemma {:induction false} CountIsMultiplicity(values: seq<SeasonValue>, k: SeasonValue)
    ensures Count(values, k) == multiset(values)[k]
  {
    if values != [] {
      CountIsMultiplicity(values[1..], k);
      assert values == [values[0]] + values[1..];
    }
  }

  /**
   * There is one bar per distinct season value other than null, an
   * undefined season included, and each counts the rows with that value,
   * so no count is 0.
   */
  lemma FinalDataEntries(values: seq<SeasonValue>, e: Entry)
    ensures e in FinalData(values) <==>
              e.season != Null && e.season in values && e.count == multiset(values)[e.season]
    ensures e in FinalData(values) ==> e.count >= 1
  {
    var ks := Seasons(values);
    var bars := FinalData(values);
    CountIsMultiplicity(values, e.season);
    InMapSeq(values, Id, e.season);
    if e in bars {
      var i :| 0 <= i < |ks| && bars[i] == e;
      EntryAt(values, i);
      assert ks[i] in Keys(values, Id);
    }
    if e.season != Null && e.season in values && e.count == multiset(values)[e.season] {
      var i :| 0 <= i < |ks| && ks[i] == e.season;
      EntryAt(values, i);
    }
  }

  lemma EntryAt(values: seq<SeasonValue>, i: nat)
    requires i < |Seasons(values)|
    ensures FinalData(values)[i] == Entry(Seasons(values)[i], Count(values, Seasons(values)[i]))
  {
  }

  /** No season value gets two bars. */
  lemma SeasonsDistinct(values: seq<SeasonValue>)
    ensures NoDuplicates(Seasons(values))
  {
    FilterKeepsDistinct(Keys(values, Id), NotNull);
  }

  lemma {:induction false} FilterKeepsDistinct(ks: seq<SeasonValue>, p: SeasonValue -> bool)
    requires NoDuplicates(ks)
    ensures NoDuplicates(Filter(ks, p))
  {
    if ks != [] {
      var tail := ks[1..];
      assert NoDuplicates(tail) by {
        forall i, j | 0 <= i < j < |tail| ensures tail[i] != tail[j] {
          assert tail[i] == ks[i + 1] && tail[j] == ks[j + 1];
        }
      }
      FilterKeepsDistinct(tail, p);
      assert ks[0] !in tail by {
        forall j | 0 <= j < |tail| ensures tail[j] != ks[0] {
          assert tail[j] == ks[j + 1];
        }
      }
      var rest := Filter(tail, p);
      if p(ks[0]) {
        var r := [ks[0]] + rest;
        forall i, j | 0 <= i < j < |r| ensures r[i] != r[j] {
          if i > 0 {
            assert r[i] == rest[i - 1] && r[j] == rest[j - 1];
          } else {
            assert r[j] == rest[j - 1] && rest[j - 1] in tail;
          }
        }
      }
    }
  }

  // ---------------------------------------------------------------------
  // Total

  function Total(entries: seq<Entry>): nat {
    if entries == [] then 0 else entries[0].count + Total(entries[1..])
  }

  /** The counts of the groups named in `ks`, added up. */
  function CountGroups(values: seq<SeasonValue>, ks: seq<SeasonValue>): nat {
    if ks == [] then 0 else Count(values, ks[0]) + CountGroups(values, ks[1..])
  }

  lemma {:induction false} TotalIsCountGroups(values: seq<SeasonValue>, ks: seq<SeasonValue>)
    ensures Total(MapSeq(ks, (k: SeasonValue) => Entry(k, Count(values, k)))) == CountGroups(values, ks)
  {
    if ks != [] {
      var f := (k: SeasonValue) => Entry(k, Count(values, k));
      assert MapSeq(ks, f)[1..] == MapSeq(ks[1..], f);
      TotalIsCountGroups(values, ks[1..]);
    }
  }

  lemma {:induction false} CountGroupsCons(v: SeasonValue, rest: seq<SeasonValue>, ks: seq<SeasonValue>)
    requires NoDuplicates(ks)
    ensures CountGroups([v] + rest, ks) == CountGroups(rest, ks) + (if v in ks then 1 else 0)
  {
    if ks != [] {
      assert ([v] + rest)[1..] == rest;
      assert NoDuplicates(ks[1..]) by {
        forall i, j | 0 <= i < j < |ks[1..]| ensures ks[1..][i] != ks[1..][j] {
          assert ks[1..][i] == ks[i + 1] && ks[1..][j] == ks[j + 1];
        }
      }
      CountGroupsCons(v, rest, ks[1..]);
      assert v in ks <==> v == ks[0] || v in ks[1..] by {
        assert ks == [ks[0]] + ks[1..];
      }
      if v == ks[0] {
        assert v !in ks[1..] by {
          forall j | 0 <= j < |ks[1..]| ensures ks[1..][j] != v {
            assert ks[1..][j] == ks[j + 1];
          }
        }
      }
    }
  }

  /** Counting over distinct keys counts the values that are among them. */
  lemma {:induction false} CountGroupsIsFilter(values: seq<SeasonValue>, ks: seq<SeasonValue>)
    requires NoDuplicates(ks)
    ensures CountGroups(values, ks) == |Filter(values, (v: SeasonValue) => v in ks)|
  {
    if values == [] {
      CountGroupsEmpty(ks);
    } else {
      assert values == [values[0]] + values[1..];
      CountGroupsCons(values[0], values[1..], ks);
      CountGroupsIsFilter(values[1..], ks);
    }
  }

  lemma {:induction false} CountGroupsEmpty(ks: seq<SeasonValue>)
    ensures CountGroups([], ks) == 0
  {
    if ks != [] {
      CountGroupsEmpty(ks[1..]);
    }
  }

  /** Two filters that agree on every value keep the same number of values. */
  lemma {:induction false} FilterAgree(values: seq<SeasonValue>, p: SeasonValue -> bool, q: SeasonValue -> bool)
    requires forall i :: 0 <= i < |values| ==> p(values[i]) == q(values[i])
    ensures |Filter(values, p)| == |Filter(values, q)|
  {
    if values != [] {
      FilterAgree(values[1..], p, q);
    }
  }

  /** The bars count, between them, every row whose season is not null. */
  lemma TotalCountsNonNullRows(values: seq<SeasonValue>)
    ensures Total(FinalData(values)) == |Filter(values, NotNull)|
  {
    var ks := Seasons(values);
    SeasonsDistinct(values);
    TotalIsCountGroups(values, ks);
    CountGroupsIsFilter(values, ks);
    forall i | 0 <= i < |values| ensures (values[i] in ks) == NotNull(values[i]) {
      assert MapSeq(values, Id)[i] == values[i];
    }
    FilterAgree(values, (v: SeasonValue) => v in ks, NotNull);
  }
}
