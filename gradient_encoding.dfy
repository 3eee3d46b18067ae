/**
 * The PM10 line with a gradient stroke: key lower-casing of each row,
 * the day and PM10 read from it, the mean per day sorted by date, and
 * the `yMax` cut-off that decides which days the line passes through.
 */
module GradientEncoding {
  import opened Js
  import opened Aggregate
  import opened Sorting
  import Scales

  /** A calendar day, the value of a Date at local midnight. */
  datatype Day = Day(year: int, month: int, day: int)

  /** A cell of an input row: text, or a Date object (a valid day). */
  datatype Cell = Text(s: string) | DateObj(date: Day)

  /** A row as `Object.entries` lists it: key and value pairs in insertion order. */
  type Entries = seq<(string, Cell)>

  /**
   * `Object.fromEntries(Object.entries(obj).map(([k, v]) => [k.toLowerCase(), v]))`:
   * later entries overwrite earlier ones with the same lower-cased key.
   */
  function Norm(entries: Entries): map<string, Cell>
    decreases |entries|
  {
    if entries == [] then map[]
    else
      var last := entries[|entries| - 1];
      Norm(entries[..|entries| - 1])[LowerAscii(last.0) := last.1]
  }

  /**
   * A lower-cased key is present exactly when some key lowers to it, and
   * it holds the value of the last such entry.
   */
  lemma {:induction false} NormLastWins(entries: Entries, k: string, i: nat)
    requires i < |entries| && LowerAscii(entries[i].0) == k
    requires forall j :: i < j < |entries| ==> LowerAscii(entries[j].0) != k
    ensures k in Norm(entries) && Norm(entries)[k] == entries[i].1
    decreases |entries|
  {
    var init := entries[..|entries| - 1];
    if i < |entries| - 1 {
      assert init[i] == entries[i];
      forall j | i < j < |init| ensures LowerAscii(init[j].0) != k {
        assert init[j] == entries[j];
      }
      NormLastWins(init, k, i);
    }
  }

  lemma {:induction false} NormKeys(entries: Entries, k: string)
    ensures k in Norm(entries) <==> exists i :: 0 <= i < |entries| && LowerAscii(entries[i].0) == k
    decreases |entries|
  {
    if entries != [] {
      var init := entries[..|entries| - 1];
      NormKeys(init, k);
      if exists i :: 0 <= i < |init| && LowerAscii(init[i].0) == k {
        var i :| 0 <= i < |init| && LowerAscii(init[i].0) == k;
        assert entries[i] == init[i];
      }
      if exists i :: 0 <= i < |entries| && LowerAscii(entries[i].0) == k {
        var i :| 0 <= i < |entries| && LowerAscii(entries[i].0) == k;
        if i < |init| {
          assert init[i] == entries[i];
        }
      }
    }
  }

  /** No key survives lower-casing with an upper-case first letter, so `row["PM10"]` is always undefined. */
  lemma NoUpperKey(entries: Entries)
    ensures "PM10" !in Norm(entries)
  {
    NormKeys(entries, "PM10");
    forall i | 0 <= i < |entries| ensures LowerAscii(entries[i].0) != "PM10" {
      var key := entries[i].0;
      if |key| == 4 {
        assert LowerAscii(key)[0] == LowerChar(key[0]);
      }
    }
  }

  function Get(row: map<string, Cell>, k: string): Option<Cell> {
    if k in row then Some(row[k]) else None
  }

  // ---------------------------------------------------------------------
  // Reading one row

  /** Truthiness of a cell: a Date object always, text when non-empty. */
  predicate TruthyCell(c: Option<Cell>) {
    c.Some? && (c.value.DateObj? || c.value.s != "")
  }

  /**
   * `d3.timeParse("%Y-%m-%d")` on the first ten characters, restricted to
   * the texts the data holds: four digits, '-', two digits, '-', two
   * digits naming a calendar day. Every other text, including those d3
   * would still accept, gives no date.
   */
  function ParseDay(s: string): (d: Option<Day>)
    ensures d.Some? ==> CalendarDay(d.value.month, d.value.day)
  {
    if |s| == 10 && s[4] == '-' && s[7] == '-'
       && AllDigits(s[..4]) && AllDigits(s[5..7]) && AllDigits(s[8..])
       && CalendarDay(DigitsValue(s[5..7]), DigitsValue(s[8..]))
    then Some(Day(DigitsValue(s[..4]), DigitsValue(s[5..7]), DigitsValue(s[8..])))
    else None
  }

  /** `dateVal = row.date || row["일시"]` and `dateObj`: a Date as is, a string parsed, anything else null. */
  function DateOf(row: map<string, Cell>): Option<Day> {
    var dateVal := if TruthyCell(Get(row, "date")) then Get(row, "date") else Get(row, "일시");
    match dateVal
    case None => None
    case Some(DateObj(d)) => Some(d)
    case Some(Text(s)) => ParseDay(Slice(s, 0, 10))
  }

  /** Unary plus on a cell: text is converted, undefined is NaN. */
  function CellNumber(c: Option<Cell>): Num {
    match c
    case None => NaN
    case Some(Text(s)) => ToNumber(s)
    case Some(DateObj(_)) => NaN
  }

  /** `+row.pm10 || +row["pm10"] || +row["PM10"]`. */
  function Pm10Of(row: map<string, Cell>): Num {
    Or(Or(CellNumber(Get(row, "pm10")), CellNumber(Get(row, "pm10"))), CellNumber(Get(row, "PM10")))
  }

  /**
   * Both fallbacks are dead: the value is `+row.pm10` when that is a
   * non-zero number and NaN otherwise, so a PM10 of 0 is dropped.
   */
  lemma Pm10Fallback(entries: Entries)
    ensures var a := CellNumber(Get(Norm(entries), "pm10"));
      Pm10Of(Norm(entries)) == (if Truthy(a) then a else NaN)
    ensures CellNumber(Get(Norm(entries), "pm10")) == Real(0.0) ==> Pm10Of(Norm(entries)).NaN?
  {
    NoUpperKey(entries);
  }

  /** A parsed row: its day and its PM10. */
  datatype Reading = Reading(day: Day, pm10: real)

  /** The `map` and the filter `d.date && !isNaN(d.pm10)`. */
  function Parse(entries: Entries): (r: Option<Reading>)
    ensures r.Some? <==> DateOf(Norm(entries)).Some? && Pm10Of(Norm(entries)).Real?
  {
    var row := Norm(entries);
    match DateOf(row)
    case None => None
    case Some(d) => if Pm10Of(row).Real? then Some(Reading(d, Pm10Of(row).r)) else None
  }

  function Readings(data: seq<Entries>): seq<Reading> {
    Collect(data, Parse)
  }

  // ---------------------------------------------------------------------
  // Mean per day

  function DayOf(r: Reading): Day { r.day }
  function ValueOf(r: Reading): real { r.pm10 }

  /** One point of `avgByDate`. */
  datatype Point = Point(date: Day, pm10: real)

  function PointDate(p: Point): Day { p.date }

  /** The days in calendar order: `a.date - b.date < 0`. */
  predicate DayLess(a: Day, b: Day) {
    a.year < b.year || (a.year == b.year && (a.month < b.month || (a.month == b.month && a.day < b.day)))
  }

  lemma DayLessIsStrictOrder()
    ensures StrictOrder(DayLess)
  {
  }

  /** `d3.mean(v, d => d.pm10)` over the readings of one day. */
  function DayMean(readings: seq<Reading>, d: Day): real {
    match Mean(MapSeq(Where(readings, DayOf, d), ValueOf))
    case None => 0.0
    case Some(m) => m
  }

  function Unsorted(readings: seq<Reading>): (ps: seq<Point>)
    ensures |ps| == |Keys(readings, DayOf)|
  {
    MapSeq(Keys(readings, DayOf), (d: Day) => Point(d, DayMean(readings, d)))
  }

  /** `avgByDate`: [] for no data, else one point per day sorted by date. */
  function AvgByDate(data: seq<Entries>): seq<Point> {
    if data == [] then [] else SortBy(Unsorted(Readings(data)), PointDate, DayLess)
  }

  lemma UnsortedDistinct(readings: seq<Reading>)
    ensures DistinctKeys(Unsorted(readings), PointDate)
  {
    var ks := Keys(readings, DayOf);
    forall i, j | 0 <= i < j < |ks| ensures PointDate(Unsorted(readings)[i]) != PointDate(Unsorted(readings)[j]) {
      assert Unsorted(readings)[i].date == ks[i] && Unsorted(readings)[j].date == ks[j];
    }
  }

  /**
   * One point per distinct day of the kept readings, strictly ascending
   * by date, each holding the mean PM10 of that day's readings.
   */
  lemma AvgByDatePoints(data: seq<Entries>, p: Point)
    ensures |AvgByDate(data)| == |Keys(Readings(data), DayOf)|
    ensures StrictlySorted(AvgByDate(data), PointDate, DayLess)
    ensures p in AvgByDate(data) <==>
              p.date in MapSeq(Readings(data), DayOf)
              && Mean(MapSeq(Where(Readings(data), DayOf, p.date), ValueOf)) == Some(p.pm10)
  {
    var rs := Readings(data);
    if data == [] {
      assert rs == [];
    } else {
      DayLessIsStrictOrder();
      UnsortedDistinct(rs);
      SortBySorted(Unsorted(rs), PointDate, DayLess);
      var arr := Unsorted(rs);
      assert p in AvgByDate(data) <==> p in multiset(arr);
      UnsortedPoints(rs, p);
    }
  }

  /** The unsorted points: one per day, holding that day's mean. */
  lemma UnsortedPoints(rs: seq<Reading>, p: Point)
    ensures p in Unsorted(rs) <==>
              p.date in MapSeq(rs, DayOf) && Mean(MapSeq(Where(rs, DayOf, p.date), ValueOf)) == Some(p.pm10)
  {
    var arr := Unsorted(rs);
    var ks := Keys(rs, DayOf);
    if p in arr {
      var i :| 0 <= i < |arr| && arr[i] == p;
      assert arr[i] == Point(ks[i], DayMean(rs, ks[i]));
      assert Where(rs, DayOf, p.date) != [];
    }
    if p.date in MapSeq(rs, DayOf) && Mean(MapSeq(Where(rs, DayOf, p.date), ValueOf)) == Some(p.pm10) {
      var i :| 0 <= i < |ks| && ks[i] == p.date;
      assert arr[i] == p;
    }
  }

  // ---------------------------------------------------------------------
  // The drawn line

  function Values(ps: seq<Point>): seq<real> {
    MapSeq(ps, (p: Point) => p.pm10)
  }

  /** `yMax = Math.min(300, d3.max(avgByDate, d => d.pm10))`; the chart is not drawn without points. */
  function YMax(ps: seq<Point>): real
    requires ps != []
  {
    var m := Scales.Max(Values(ps));
    if m <= 300.0 then m else 300.0
  }

  /** `avgByDate.filter(d => !isNaN(d.pm10) && d.pm10 <= yMax)`: the points the line passes through. */
  function Drawn(ps: seq<Point>): seq<Point>
    requires ps != []
  {
    Filter(ps, (p: Point) => p.pm10 <= YMax(ps))
  }

  /**
   * The axis tops out at 300 at most; a point is drawn exactly when its
   * mean is at most `yMax`, so nothing is cut when every mean is at most
   * 300, and otherwise exactly the means above 300 are cut.
   */
  lemma DrawnCutOff(ps: seq<Point>, p: Point)
    requires ps != []
    ensures YMax(ps) <= 300.0
    ensures p in Drawn(ps) <==> p in ps && p.pm10 <= YMax(ps)
    ensures Scales.Max(Values(ps)) <= 300.0 ==> (p in Drawn(ps) <==> p in ps)
    ensures Scales.Max(Values(ps)) > 300.0 ==> (p in Drawn(ps) <==> p in ps && p.pm10 <= 300.0)
  {
    if p in ps {
      var i :| 0 <= i < |ps| && ps[i] == p;
      assert Values(ps)[i] == p.pm10;
      assert p.pm10 in Values(ps);
    }
  }

  /** The drawn points keep the strictly ascending order of the days. */
  lemma {:induction false} FilterKeepsOrder(ps: seq<Point>, keep: Point -> bool)
    requires StrictlySorted(ps, PointDate, DayLess)
    ensures StrictlySorted(Filter(ps, keep), PointDate, DayLess)
  {
    if ps != [] {
      var tail := ps[1..];
      assert StrictlySorted(tail, PointDate, DayLess) by {
        forall i, j | 0 <= i < j < |tail| ensures DayLess(PointDate(tail[i]), PointDate(tail[j])) {
          assert tail[i] == ps[i + 1] && tail[j] == ps[j + 1];
        }
      }
      FilterKeepsOrder(tail, keep);
      var rest := Filter(tail, keep);
      if keep(ps[0]) {
        forall j | 0 <= j < |rest| ensures DayLess(PointDate(ps[0]), PointDate(rest[j])) {
          assert rest[j] in tail;
          var k :| 0 <= k < |tail| && tail[k] == rest[j];
          assert tail[k] == ps[k + 1];
        }
        assert Filter(ps, keep) == [ps[0]] + rest;
        PrependSorted(ps[0], rest, PointDate, DayLess);
      }
    }
  }

  lemma DrawnInOrder(data: seq<Entries>)
    requires AvgByDate(data) != []
    ensures StrictlySorted(Drawn(AvgByDate(data)), PointDate, DayLess)
  {
    var ps := AvgByDate(data);
    AvgByDatePoints(data, Point(Day(0, 0, 0), 0.0));
    FilterKeepsOrder(ps, (p: Point) => p.pm10 <= YMax(ps));
  }
}
