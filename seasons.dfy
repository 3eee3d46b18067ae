/**
 * The four seasons the charts label their data with (봄, 여름, 가을,
 * 겨울), their display order, and the month-only partition that the
 * `seasonMap` tables spell out.
 */
module Seasons {
  import opened Js

  datatype Season = Spring | Summer | Autumn | Winter

  /** The Korean label a chart writes for a season. */
  function Name(s: Season): string {
    match s
    case Spring => "봄"
    case Summer => "여름"
    case Autumn => "가을"
    case Winter => "겨울"
  }

  /** The label back to the season; None for any other text. */
  function OfName(t: string): (r: Option<Season>)
    ensures r.Some? ==> Name(r.value) == t
  {
    if t == "봄" then Some(Spring)
    else if t == "여름" then Some(Summer)
    else if t == "가을" then Some(Autumn)
    else if t == "겨울" then Some(Winter)
    else None
  }

  lemma NameRoundTrip(s: Season)
    ensures OfName(Name(s)) == Some(s)
  {
  }

  /** `["봄", "여름", "가을", "겨울"]`, the order of the legend and the grids. */
  const Order: seq<Season> := [Spring, Summer, Autumn, Winter]

  /** The position of a season in Order. */
  function Index(s: Season): (i: nat)
    ensures i < 4 && Order[i] == s
  {
    match s
    case Spring => 0
    case Summer => 1
    case Autumn => 2
    case Winter => 3
  }

  lemma OrderListsEverySeasonOnce()
    ensures |Order| == 4
    ensures forall s: Season :: s in Order
    ensures forall i, j :: 0 <= i < j < |Order| ==> Order[i] != Order[j]
  {
    forall s: Season ensures s in Order {
      assert Order[Index(s)] == s;
    }
  }

  /**
   * The `seasonMap` object {3:"봄", …, 2:"겨울"} read with a numeric
   * month: only the integers 1 to 12 are keys, anything else is undefined.
   */
  function MonthSeason(m: real): (r: Option<Season>)
    ensures r.Some? <==> m.Floor as real == m && 1 <= m.Floor <= 12
  {
    if m.Floor as real != m then None
    else
      var k := m.Floor;
      if 3 <= k <= 5 then Some(Spring)
      else if 6 <= k <= 8 then Some(Summer)
      else if 9 <= k <= 11 then Some(Autumn)
      else if k == 12 || k == 1 || k == 2 then Some(Winter)
      else None
  }

  /** The object {봄: [3,4,5], 여름: [6,7,8], 가을: [9,10,11], 겨울: [12,1,2]}. */
  function Months(s: Season): (ms: seq<int>)
    ensures |ms| == 3
  {
    match s
    case Spring => [3, 4, 5]
    case Summer => [6, 7, 8]
    case Autumn => [9, 10, 11]
    case Winter => [12, 1, 2]
  }

  /**
   * The two tables describe the same partition: a month lies in the list
   * of exactly the season the lookup table gives it, and every month of
   * the year lies in exactly one list.
   */
  lemma MonthTablesAgree(m: int, s: Season)
    ensures m in Months(s) <==> 1 <= m <= 12 && MonthSeason(m as real) == Some(s)
  {
    assert (m as real).Floor == m;
  }

  lemma MonthsPartitionYear(m: int)
    requires 1 <= m <= 12
    ensures exists s :: m in Months(s)
    ensures forall s, t :: m in Months(s) && m in Months(t) ==> s == t
  {
    assert (m as real).Floor == m;
    var s := MonthSeason(m as real).value;
    MonthTablesAgree(m, s);
    forall s1, t1 | m in Months(s1) && m in Months(t1) ensures s1 == t1 {
      MonthTablesAgree(m, s1);
      MonthTablesAgree(m, t1);
    }
  }
}
