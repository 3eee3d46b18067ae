/**
 * The data behind the season "tower" scatter plot: a second day-precise
 * season rule, the position of a calendar day on an axis that starts on
 * March 1, the month tick positions of that axis, and the horizontal
 * extent of each season's cluster.
 */
module SeasonScatterTower {
  import opened Js
  import opened Aggregate
  import opened Seasons
  import Scales
  import Heatmap = SeoulSeasonHeatmap

  /**
   * `getSeason(date)` of this chart. Its summer clause for August is
   * subsumed by the months 6–8, and its autumn clause covers all of
   * September, so the rule differs from the heatmap's.
   */
  function GetSeason(date: JsDate): Season {
    match date
    case InvalidDate => Winter
    case Date(_, m, d) =>
      if (m == 3 && d >= 1) || (3 < m < 5) || (m == 5 && d <= 30) then Spring
      else if (m == 5 && d >= 31) || (5 < m < 9) || (m == 8 && d <= 25) then Summer
      else if (m == 9 && d >= 26) || (8 < m < 11) || (m == 11 && d <= 29) then Autumn
      else Winter
  }

  /**
   * The two season rules agree except on September 1–25 (summer in the
   * heatmap, autumn here) and on November 30 and December 1–3 (autumn in
   * the heatmap, winter here).
   */
  lemma DiffersFromHeatmap(y: int, m: int, d: int)
    requires CalendarDay(m, d)
    ensures GetSeason(Date(y, m, d)) != Heatmap.GetSeason(Date(y, m, d))
        <==> (m == 9 && d <= 25) || (m == 11 && d == 30) || (m == 12 && d <= 3)
    ensures m == 9 && d <= 25 ==> Heatmap.GetSeason(Date(y, m, d)) == Summer && GetSeason(Date(y, m, d)) == Autumn
    ensures (m == 11 && d == 30) || (m == 12 && d <= 3) ==>
              Heatmap.GetSeason(Date(y, m, d)) == Autumn && GetSeason(Date(y, m, d)) == Winter
  {
  }

  // ---------------------------------------------------------------------
  // Day index from March 1

  /** `monthDays`. */
  const MonthDays: seq<int> := [31, 28, 31, 30, 31, 30, 31, 31, 30, 31, 30, 31]

  /** `monthsOrder`: the axis runs from March to February. */
  const MonthsOrder: seq<int> := [3, 4, 5, 6, 7, 8, 9, 10, 11, 12, 1, 2]

  /** The number of days in the first `k` months of MonthsOrder. */
  function DaysBefore(k: nat): int
    requires k <= 12
  {
    if k == 0 then 0 else DaysBefore(k - 1) + MonthDays[MonthsOrder[k - 1] - 1]
  }

  /** MonthsOrder lists every month once. */
  lemma MonthsOrderListsMonths(k: nat)
    requires k < 12
    ensures 1 <= MonthsOrder[k] <= 12 && Position(MonthsOrder[k]) == k
  {
    if k < 10 {
      assert MonthsOrder[k] == k + 3;
    } else {
      assert MonthsOrder[k] == k - 9;
    }
  }

  /** One more month of MonthsOrder adds that month's length. */
  lemma DaysBeforeStep(k: nat)
    requires k < 12
    ensures DaysBefore(k + 1) == DaysBefore(k) + MonthDays[(if k < 10 then k + 3 else k - 9) - 1]
  {
    MonthsOrderListsMonths(k);
  }

  /** The position of a month in MonthsOrder. */
  function Position(m: int): (k: nat)
    requires 1 <= m <= 12
    ensures k < 12 && MonthsOrder[k] == m
  {
    if m >= 3 then m - 3 else m + 9
  }

  /** The index `getSpringIndex` gives a day: days since March 1 along MonthsOrder. */
  function SpringIndexOf(m: int, d: int): int
    requires 1 <= m <= 12
  {
    DaysBefore(Position(m)) + d - 1
  }

  lemma DaysBeforeTable()
    ensures DaysBefore(0) == 0 && DaysBefore(1) == 31 && DaysBefore(2) == 61
    ensures DaysBefore(3) == 92 && DaysBefore(4) == 122 && DaysBefore(5) == 153
    ensures DaysBefore(6) == 184 && DaysBefore(7) == 214 && DaysBefore(8) == 245
    ensures DaysBefore(9) == 275 && DaysBefore(10) == 306 && DaysBefore(11) == 337
    ensures DaysBefore(12) == 365
  {
    assert DaysBefore(1) == 31;
    assert DaysBefore(2) == 61;
    assert DaysBefore(3) == 92;
    assert DaysBefore(4) == 122;
    assert DaysBefore(5) == 153;
    assert DaysBefore(6) == 184;
    assert DaysBefore(7) == 214;
    assert DaysBefore(8) == 245;
    assert DaysBefore(9) == 275;
    assert DaysBefore(10) == 306;
    assert DaysBefore(11) == 337;
  }

  /**
   * `getSpringIndex(month, day)`: its loops add up the lengths of the
   * months from March up to the given month (through December and on
   * from January for January and February), then the day within the month.
   */
  method SpringIndex(month: int, day: int) returns (idx: int)
    requires 1 <= month <= 12
    ensures idx == SpringIndexOf(month, day)
  {
    idx := 0;
    if month >= 3 {
      var m := 3;
      while m < month
        invariant 3 <= m <= month
        invariant idx == DaysBefore(m - 3)
      {
        DaysBeforeStep(m - 3);
        idx := idx + MonthDays[m - 1];
        m := m + 1;
      }
      idx := idx + day - 1;
    } else {
      var m := 3;
      while m <= 12
        invariant 3 <= m <= 13
        invariant idx == DaysBefore(m - 3)
      {
        DaysBeforeStep(m - 3);
        idx := idx + MonthDays[m - 1];
        m := m + 1;
      }
      m := 1;
      while m < month
        invariant 1 <= m <= month
        invariant idx == DaysBefore(m + 9)
      {
        DaysBeforeStep(m + 9);
        idx := idx + MonthDays[m - 1];
        m := m + 1;
      }
      idx := idx + day - 1;
    }
  }

  /**
   * Every calendar day gets a distinct index from 0 (March 1) to 364
   * (February 28); February 29 gets 365, one past the axis domain's end
   * `getSpringIndex(3, 1) + 364`.
   */
  lemma SpringIndexRange(m: int, d: int)
    requires CalendarDay(m, d)
    ensures SpringIndexOf(3, 1) == 0 && SpringIndexOf(1, 1) == 306 && SpringIndexOf(2, 28) == 364
    ensures 0 <= SpringIndexOf(m, d) <= 365
    ensures SpringIndexOf(m, d) == 365 <==> m == 2 && d == 29
  {
    DaysBeforeTable();
  }

  /** Later days along March … February get larger indices: the index is injective on calendar days. */
  lemma SpringIndexOrdered(m1: int, d1: int, m2: int, d2: int)
    requires CalendarDay(m1, d1) && CalendarDay(m2, d2)
    requires Position(m1) < Position(m2) || (m1 == m2 && d1 < d2)
    ensures SpringIndexOf(m1, d1) < SpringIndexOf(m2, d2)
  {
    DaysBeforeTable();
  }

  /**
   * On calendar days each season of this rule is one contiguous run of
   * indices: spring 0–90, summer 91–183, autumn 184–273, winter from 274.
   */
  lemma SeasonIsIndexRun(y: int, m: int, d: int)
    requires CalendarDay(m, d)
    ensures GetSeason(Date(y, m, d)) == Spring <==> SpringIndexOf(m, d) <= 90
    ensures GetSeason(Date(y, m, d)) == Summer <==> 91 <= SpringIndexOf(m, d) <= 183
    ensures GetSeason(Date(y, m, d)) == Autumn <==> 184 <= SpringIndexOf(m, d) <= 273
    ensures GetSeason(Date(y, m, d)) == Winter <==> 274 <= SpringIndexOf(m, d)
  {
    DaysBeforeTable();
  }

  // ---------------------------------------------------------------------
  // Points

  /** A loaded row: the Date parsed from `일시` and `+PM10`. */
  datatype Reading = Reading(date: JsDate, pm10: Num)

  /** One plotted point. An invalid date gives NaN month, day and index, and `md` "NaN-NaN". */
  datatype Point = Point(season: Season, pm10: Num, month: Option<int>, day: Option<int>,
                         idx: Option<int>, md: string)

  /** The record the loader maps each row to. */
  function PointOf(r: Reading): (p: Point)
    requires ValidDate(r.date)
    ensures p.season == GetSeason(r.date) && p.pm10 == r.pm10
    ensures r.date.InvalidDate? ==> p.idx == None && p.month == None && p.md == "NaN-NaN"
    ensures r.date.Date? ==> p.idx == Some(SpringIndexOf(r.date.month, r.date.day))
  {
    match r.date
    case InvalidDate => Point(Winter, r.pm10, None, None, None, "NaN-NaN")
    case Date(_, m, d) =>
      Point(GetSeason(r.date), r.pm10, Some(m), Some(d), Some(SpringIndexOf(m, d)),
            Decimal(m) + "-" + Decimal(d))
  }

  /** `raw.map(…)`: one point per row, in order. */
  function Points(raw: seq<Reading>): (ps: seq<Point>)
    requires forall i :: 0 <= i < |raw| ==> ValidDate(raw[i].date)
    ensures |ps| == |raw| && forall i :: 0 <= i < |raw| ==> ps[i] == PointOf(raw[i])
  {
    seq(|raw|, i requires 0 <= i < |raw| => PointOf(raw[i]))
  }

  function IdxOf(p: Point): Option<int> { p.idx }
  function PointSeason(p: Point): Season { p.season }

  /** The defined indices, in order (d3.extent skips NaN). */
  function DefinedIdx(xs: seq<Option<int>>): (r: seq<int>)
    ensures forall v :: v in r <==> Some(v) in xs
  {
    if xs == [] then []
    else
      var rest := DefinedIdx(xs[1..]);
      assert forall o :: o in xs <==> o == xs[0] || o in xs[1..];
      if xs[0].Some? then [xs[0].value] + rest else rest
  }

  /** The indices of one season's points, the data of `d3.extent(data, d => d.idx)`. */
  function ClusterIndices(points: seq<Point>, s: Season): seq<int> {
    DefinedIdx(MapSeq(Where(points, PointSeason, s), IdxOf))
  }

  /**
   * The zoom range of a season's cluster stays inside that season's run
   * of indices, so the four clusters never overlap.
   */
  lemma ClusterInsideRun(raw: seq<Reading>, s: Season, v: int)
    requires forall i :: 0 <= i < |raw| ==> ValidDate(raw[i].date)
    requires v in ClusterIndices(Points(raw), s)
    ensures s == Spring ==> 0 <= v <= 90
    ensures s == Summer ==> 91 <= v <= 183
    ensures s == Autumn ==> 184 <= v <= 273
    ensures s == Winter ==> 274 <= v <= 365
  {
    var points := Points(raw);
    var w := Where(points, PointSeason, s);
    InMapSeq(w, IdxOf, Some(v));
    var p :| p in w && p.idx == Some(v);
    var i :| 0 <= i < |points| && points[i] == p;
    assert p == PointOf(raw[i]);
    PointInRun(raw[i]);
  }

  /** A point with an index lies in the run of its own season. */
  lemma PointInRun(r: Reading)
    requires ValidDate(r.date) && PointOf(r).idx.Some?
    ensures var p := PointOf(r);
      var v := p.idx.value;
      && (p.season == Spring ==> 0 <= v <= 90)
      && (p.season == Summer ==> 91 <= v <= 183)
      && (p.season == Autumn ==> 184 <= v <= 273)
      && (p.season == Winter ==> 274 <= v <= 365)
  {
    var date := r.date;
    SeasonIsIndexRun(date.year, date.month, date.day);
    SpringIndexRange(date.month, date.day);
  }

  // ---------------------------------------------------------------------
  // Month ticks

  /** `monthTicks`: one tick per month of MonthsOrder, at the running day count plus one. */
  method MonthTicks() returns (ticks: seq<int>)
    ensures |ticks| == 12
    ensures forall k :: 0 <= k < 12 ==> ticks[k] == DaysBefore(k) + 1
  {
    ticks := [];
    var acc := 0;
    var k := 0;
    while k < 12
      invariant 0 <= k <= 12
      invariant acc == DaysBefore(k)
      invariant |ticks| == k
      invariant forall j :: 0 <= j < k ==> ticks[j] == DaysBefore(j) + 1
    {
      MonthsOrderListsMonths(k);
      ticks := ticks + [acc + 1];
      acc := acc + MonthDays[MonthsOrder[k] - 1];
      k := k + 1;
    }
  }

  /**
   * Each month's tick sits one index to the right of the points of that
   * month's first day: the tick labelled with MonthsOrder[k] is at
   * getSpringIndex(MonthsOrder[k], 1) + 1.
   */
  lemma TickAfterFirstDay(k: nat)
    requires k < 12
    ensures DaysBefore(k) + 1 == SpringIndexOf(MonthsOrder[k], 1) + 1
  {
    MonthsOrderListsMonths(k);
  }

  /** The ticks run strictly upwards from 1 (March 1) to 338 (February 1), all inside the domain. */
  lemma TicksIncrease(k: nat)
    requires k < 11
    ensures DaysBefore(k) + 1 < DaysBefore(k + 1) + 1
    ensures DaysBefore(0) + 1 == 1 && DaysBefore(11) + 1 == 338
  {
    DaysBeforeTable();
  }
}
