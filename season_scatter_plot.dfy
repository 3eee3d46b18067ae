/**
 * The data behind the PM10 / rainfall / wind scatter-plot matrix: the
 * month-only season of a row, the loader that skips rows without a
 * date, and the filter that keeps rows with three numeric measurements.
 */
module SeasonScatterPlot {
  import opened Js
  import opened Aggregate
  import opened Seasons

  /** `getSeason(month)`: `includes` finds only the integers 3–11; everything else is winter. */
  function GetSeason(month: Num): Season {
    if month == Real(3.0) || month == Real(4.0) || month == Real(5.0) then Spring
    else if month == Real(6.0) || month == Real(7.0) || month == Real(8.0) then Summer
    else if month == Real(9.0) || month == Real(10.0) || month == Real(11.0) then Autumn
    else Winter
  }

  /**
   * On the months 1–12 the rule is the `seasonMap` partition; any other
   * number, and NaN, is winter.
   */
  lemma GetSeasonIsSeasonMap(month: Num)
    ensures month.Real? && MonthSeason(month.r).Some? ==> GetSeason(month) == MonthSeason(month.r).value
    ensures (month.NaN? || MonthSeason(month.r).None?) ==> GetSeason(month) == Winter
  {
    if month.Real? {
      var k := month.r.Floor;
      if month.r == k as real && 1 <= k <= 12 {
        assert month == Real(k as real);
      }
    }
  }

  /** A loaded row: season, `+PM10`, `+일강수량(mm)` and `+최대 풍속(m/s)`. */
  datatype Point = Point(season: Season, pm10: Num, rain: Num, wind: Num)

  /** The row function: null (dropped by d3.csv) when `일시` is missing or empty. */
  function Load(row: CsvRow): (p: Option<Point>)
    ensures p.None? <==> !TruthyText(Field(row, "일시"))
  {
    var date := Field(row, "일시");
    if !TruthyText(date) then None
    else
      var m := ToNumber(Slice(date.value, 5, 7));
      Some(Point(GetSeason(m), Plus(Field(row, "PM10")), Plus(Field(row, "일강수량(mm)")),
                 Plus(Field(row, "최대 풍속(m/s)"))))
  }

  /** `SEASONS.includes(d.계절)`. */
  predicate KnownSeason(s: Season) {
    s in Order
  }

  /** The filter of the loaded rows. */
  predicate Shown(p: Point) {
    KnownSeason(p.season) && p.pm10.Real? && p.rain.Real? && p.wind.Real?
  }

  function Data(rows: seq<CsvRow>): seq<Point> {
    Filter(Collect(rows, Load), Shown)
  }

  /**
   * The season test never rejects a row: a row is shown exactly when it
   * has a date and its three measurements are numeric.
   */
  lemma DataRows(rows: seq<CsvRow>, p: Point)
    ensures p in Data(rows) <==>
              (exists r :: r in rows && Load(r) == Some(p)) && p.pm10.Real? && p.rain.Real? && p.wind.Real?
  {
    OrderListsEverySeasonOnce();
  }

  /** A row without `일시` never reaches the chart. */
  lemma UndatedRowDropped(rows: seq<CsvRow>, r: CsvRow)
    requires !TruthyText(Field(r, "일시"))
    ensures Collect([r] + rows, Load) == Collect(rows, Load)
  {
    assert ([r] + rows)[1..] == rows;
  }
}
