/**
 * The data behind the grouped bar chart of seasonal PM10 per year: row
 * normalisation, the year × season mean grid with a 0 filler that nested
 * loops push out, the bar layout and the legend's bucket labels.
 */
module GroupedBarChart {
  import opened Js
  import opened Aggregate
  import opened Seasons
  import Scales

  // ---------------------------------------------------------------------
  // Normalisation

  /** A normalised row: `year`, `month`, `pm10`, all numeric. */
  datatype Rec = Rec(year: real, month: real, pm10: real)

  /**
   * The `rawData.map(…)` of one row: the date parts of `일시`, falling back
   * to `year`/`month` when they are falsy; `+PM10`, falling back to `+pm10`.
   */
  function YearOfRow(d: CsvRow): Num { Or(DatePart(Field(d, "일시"), 0, 4), Plus(Field(d, "year"))) }
  function MonthOfRow(d: CsvRow): Num { Or(DatePart(Field(d, "일시"), 5, 7), Plus(Field(d, "month"))) }
  function Pm10OfRow(d: CsvRow): Num { Or(Plus(Field(d, "PM10")), Plus(Field(d, "pm10"))) }

  /** The mapping followed by the `!isNaN` filter on all three fields. */
  function Normalize(d: CsvRow): (r: Option<Rec>)
    ensures r.Some? <==> YearOfRow(d).Real? && MonthOfRow(d).Real? && Pm10OfRow(d).Real?
    ensures r.Some? ==> r.value == Rec(YearOfRow(d).r, MonthOfRow(d).r, Pm10OfRow(d).r)
  {
    var year, month, pm10 := YearOfRow(d), MonthOfRow(d), Pm10OfRow(d);
    if year.Real? && month.Real? && pm10.Real? then Some(Rec(year.r, month.r, pm10.r)) else None
  }

  /**
   * A PM10 of 0 is falsy, so `||` falls through to `+d.pm10`; with no
   * `pm10` column that is NaN and the row is dropped. A truthy PM10 is kept as it is.
   */
  lemma Pm10Fallback(d: CsvRow)
    ensures Plus(Field(d, "PM10")) == Real(0.0) && "pm10" !in d ==> Normalize(d) == None
    ensures Truthy(Plus(Field(d, "PM10"))) ==> Pm10OfRow(d) == Plus(Field(d, "PM10"))
  {
  }

  // ---------------------------------------------------------------------
  // The year × season grid

  function YearKey(r: Rec): real { r.year }
  /** `seasonMap[d.month]`: undefined (None) for a month that is not an integer 1–12. */
  function SeasonKey(r: Rec): Option<Season> { MonthSeason(r.month) }
  function Pm10Of(r: Rec): real { r.pm10 }

  /** One entry of `out`. */
  datatype Bar = Bar(year: real, season: Season, value: real)

  /** The rows of one year that `seasonMap` puts in season `s`. */
  function SeasonRows(yr: seq<Rec>, s: Season): seq<Rec> {
    Where(yr, SeasonKey, Some(s))
  }

  /** `seasons.get(season) || 0`: the d3.mean of the season's PM10, or 0 without rows. */
  function CellValue(yr: seq<Rec>, s: Season): real {
    match Mean(MapSeq(SeasonRows(yr, s), Pm10Of))
    case None => 0.0
    case Some(m) => m
  }

  /** The bars of year `y` for the seasons `ss`, in that order. */
  function SeasonBars(yr: seq<Rec>, y: real, ss: seq<Season>): (bars: seq<Bar>)
    ensures |bars| == |ss|
  {
    if ss == [] then [] else [Bar(y, ss[0], CellValue(yr, ss[0]))] + SeasonBars(yr, y, ss[1..])
  }

  /** Four bars for each of the years `ys`, year after year. */
  function YearBars(rows: seq<Rec>, ys: seq<real>): (bars: seq<Bar>)
    ensures |bars| == 4 * |ys|
  {
    if ys == [] then []
    else SeasonBars(Where(rows, YearKey, ys[0]), ys[0], Order) + YearBars(rows, ys[1..])
  }

  /** `out`: the years in order of first appearance (the rollup's key order). */
  function Grid(rows: seq<Rec>): seq<Bar> {
    YearBars(rows, Keys(rows, YearKey))
  }

  lemma SeasonBarsStep(yr: seq<Rec>, y: real, ss: seq<Season>, j: nat)
    requires j < |ss|
    ensures SeasonBars(yr, y, ss[j..]) == [Bar(y, ss[j], CellValue(yr, ss[j]))] + SeasonBars(yr, y, ss[j + 1..])
  {
    assert ss[j..][1..] == ss[j + 1..];
  }

  lemma YearBarsStep(rows: seq<Rec>, ys: seq<real>, i: nat)
    requires i < |ys|
    ensures YearBars(rows, ys[i..]) == SeasonBars(Where(rows, YearKey, ys[i]), ys[i], Order) + YearBars(rows, ys[i + 1..])
  {
    assert ys[i..][1..] == ys[i + 1..];
  }

  lemma Regroup(out: seq<Bar>, before: seq<Bar>, bars: seq<Bar>, rest: seq<Bar>, whole: seq<Bar>)
    requires out == before + bars && whole == bars + rest
    ensures out + rest == before + whole
  {
  }

  /** The inner loop: push one bar per season of SEASONS for year `y` onto `out`. */
  method PushSeasons(out0: seq<Bar>, yr: seq<Rec>, y: real) returns (out: seq<Bar>)
    ensures out == out0 + SeasonBars(yr, y, Order)
  {
    out := out0;
    var j := 0;
    while j < |Order|
      invariant 0 <= j <= |Order|
      invariant out + SeasonBars(yr, y, Order[j..]) == out0 + SeasonBars(yr, y, Order)
    {
      SeasonBarsStep(yr, y, Order, j);
      out := out + [Bar(y, Order[j], CellValue(yr, Order[j]))];
      j := j + 1;
    }
    assert Order[4..] == [];
  }

  /** The nested loops of the `useMemo`: for each year, one bar per season of SEASONS. */
  method BuildBars(rows: seq<Rec>) returns (out: seq<Bar>)
    ensures out == Grid(rows)
  {
    var years := Keys(rows, YearKey);
    out := [];
    var i := 0;
    while i < |years|
      invariant 0 <= i <= |years|
      invariant out + YearBars(rows, years[i..]) == Grid(rows)
    {
      var y := years[i];
      var yr := Where(rows, YearKey, y);
      ghost var before := out;
      out := PushSeasons(out, yr, y);
      YearBarsStep(rows, years, i);
      Regroup(out, before, SeasonBars(yr, y, Order), YearBars(rows, years[i + 1..]), YearBars(rows, years[i..]));
      i := i + 1;
    }
    assert years[i..] == [];
  }

  lemma {:induction false} SeasonBarsAt(yr: seq<Rec>, y: real, ss: seq<Season>, j: nat)
    requires j < |ss|
    ensures SeasonBars(yr, y, ss)[j] == Bar(y, ss[j], CellValue(yr, ss[j]))
  {
    if j > 0 {
      SeasonBarsAt(yr, y, ss[1..], j - 1);
    }
  }

  /** Entry 4i + j of the bars is entry j of year i's four. */
  lemma {:induction false} YearChunkAt(rows: seq<Rec>, ys: seq<real>, i: nat, j: nat)
    requires i < |ys| && j < 4
    ensures YearBars(rows, ys)[4 * i + j] == SeasonBars(Where(rows, YearKey, ys[i]), ys[i], Order)[j]
  {
    var sb := SeasonBars(Where(rows, YearKey, ys[0]), ys[0], Order);
    var rest := YearBars(rows, ys[1..]);
    assert YearBars(rows, ys) == sb + rest;
    if i == 0 {
      ConcatAt(sb, rest, j);
    } else {
      YearChunkAt(rows, ys[1..], i - 1, j);
      ConcatAt(sb, rest, 4 * i + j);
      assert ys[1..][i - 1] == ys[i];
    }
  }

  lemma ConcatAt<T>(a: seq<T>, b: seq<T>, k: nat)
    requires |a| == 4 && k < |a| + |b|
    ensures (a + b)[k] == if k < 4 then a[k] else b[k - 4]
  {
  }

  lemma YearBarsAt(rows: seq<Rec>, ys: seq<real>, i: nat, j: nat)
    requires i < |ys| && j < 4
    ensures YearBars(rows, ys)[4 * i + j] == Bar(ys[i], Order[j], CellValue(Where(rows, YearKey, ys[i]), Order[j]))
  {
    YearChunkAt(rows, ys, i, j);
    SeasonBarsAt(Where(rows, YearKey, ys[i]), ys[i], Order, j);
  }

  /**
   * `out` has four entries per distinct year, year-major with the seasons
   * in the order 봄, 여름, 가을, 겨울; entry 4i + j is year i's value for
   * season j: the mean PM10 of the rows of that year whose month
   * `seasonMap` puts in that season, or 0 when there are none.
   */
  lemma GridEntry(rows: seq<Rec>, i: nat, j: nat)
    requires i < |Keys(rows, YearKey)| && j < 4
    ensures var ys := Keys(rows, YearKey);
      var group := Where(Where(rows, YearKey, ys[i]), SeasonKey, Some(Order[j]));
      && |Grid(rows)| == 4 * |ys|
      && Grid(rows)[4 * i + j].year == ys[i] && Grid(rows)[4 * i + j].season == Order[j]
      && (group == [] ==> Grid(rows)[4 * i + j].value == 0.0)
      && (group != [] ==> Grid(rows)[4 * i + j].value == Sum(MapSeq(group, Pm10Of)) / |group| as real)
  {
    YearBarsAt(rows, Keys(rows, YearKey), i, j);
  }

  /** A season with rows is drawn at a value between the least and the largest PM10 of those rows. */
  lemma CellValueBetween(yr: seq<Rec>, s: Season)
    requires SeasonRows(yr, s) != []
    ensures var pm := MapSeq(SeasonRows(yr, s), Pm10Of);
      Scales.Min(pm) <= CellValue(yr, s) <= Scales.Max(pm)
  {
    MeanBetween(MapSeq(SeasonRows(yr, s), Pm10Of));
  }

  /** Every year of the rows has exactly the four bars of its seasons. */
  lemma GridYears(rows: seq<Rec>, b: Bar)
    requires b in Grid(rows)
    ensures b.year in MapSeq(rows, YearKey)
    ensures b.value == CellValue(Where(rows, YearKey, b.year), b.season)
  {
    var ys := Keys(rows, YearKey);
    var n :| 0 <= n < |Grid(rows)| && Grid(rows)[n] == b;
    var i, j := n / 4, n % 4;
    assert n == 4 * i + j;
    YearBarsAt(rows, ys, i, j);
  }

  // ---------------------------------------------------------------------
  // Layout

  const BarWidth := 10
  const SeasonGap := 2
  const GroupGap := 64

  /** `getBarX(yearIdx, seasonIdx)` with margin.left 220 and groupOffset 100. */
  function BarX(yearIdx: int, seasonIdx: int): int {
    220 + 100 + yearIdx * (|Order| * (BarWidth + SeasonGap) + GroupGap - SeasonGap)
      + seasonIdx * (BarWidth + SeasonGap)
  }

  /**
   * Bars of one year sit 2 apart without overlapping, consecutive year
   * groups are 64 apart, and the year label is centred on its group.
   */
  lemma BarLayout(y: int, s: int)
    ensures BarX(y, s) == 320 + 110 * y + 12 * s
    ensures BarX(y, s) + BarWidth + SeasonGap == BarX(y, s + 1)
    ensures BarX(y + 1, 0) - (BarX(y, 3) + BarWidth) == GroupGap
    ensures 2 * (BarX(y, 0) + (|Order| * (BarWidth + SeasonGap) - SeasonGap) / 2) == BarX(y, 0) + BarX(y, 3) + BarWidth
  {
  }

  /** Two distinct (year, season) slots get disjoint bars. */
  lemma BarsDisjoint(y1: int, s1: int, y2: int, s2: int)
    requires 0 <= s1 < 4 && 0 <= s2 < 4
    requires (y1, s1) != (y2, s2)
    ensures BarX(y1, s1) + BarWidth <= BarX(y2, s2) || BarX(y2, s2) + BarWidth <= BarX(y1, s1)
  {
    if y1 < y2 {
      assert BarX(y2, s2) - BarX(y1, s1) >= 110 - 36;
    } else if y2 < y1 {
      assert BarX(y1, s1) - BarX(y2, s2) >= 110 - 36;
    }
  }

  // ---------------------------------------------------------------------
  // Colour buckets and the legend

  /** `PM10_BINS`. */
  const Bins: seq<real> := [10.0, 20.0, 30.0, 40.0, 50.0, 60.0, 70.0, 80.0]
  const BinsInt: seq<nat> := [10, 20, 30, 40, 50, 60, 70, 80]

  /** The legend text of colour i: "<10", "≥80", or "BINS[i-1]-(BINS[i]-1)". */
  function LegendLabel(i: nat): string
    requires i < |Bins| + 1
  {
    if i == 0 then "<" + Decimal(BinsInt[0])
    else if i == |Bins| then "≥" + Decimal(BinsInt[|BinsInt| - 1])
    else Decimal(BinsInt[i - 1]) + "-" + Decimal(BinsInt[i] - 1)
  }

  lemma BinsAscending()
    ensures Scales.Ascending(Bins)
  {
  }

  /**
   * The nine colours cover the nine buckets of the eight thresholds, and
   * colour i is labelled with the bucket it paints: "<10" below 10, "≥80"
   * from 80, else "10i-(10i+9)" for the values from 10i up to 10i + 10.
   */
  lemma LegendDescribesBucket(i: nat, v: real)
    requires i < |Bins| + 1
    ensures Scales.ThresholdIndex(Bins, v) <= 8
    ensures i == 0 ==> LegendLabel(i) == "<10" && (Scales.ThresholdIndex(Bins, v) == i <==> v < 10.0)
    ensures i == 8 ==> LegendLabel(i) == "≥80" && (Scales.ThresholdIndex(Bins, v) == i <==> 80.0 <= v)
    ensures 0 < i < 8 ==>
              && LegendLabel(i) == Decimal(10 * i) + "-" + Decimal(10 * i + 9)
              && (Scales.ThresholdIndex(Bins, v) == i <==> (10 * i) as real <= v < (10 * i + 10) as real)
  {
    BinsAscending();
    Scales.ThresholdIndexBrackets(Bins, v, i);
    assert Decimal(10) == "10" && Decimal(80) == "80";
    if 0 < i < 8 {
      assert BinsInt[i - 1] == 10 * i && BinsInt[i] == 10 * i + 10;
      assert Bins[i - 1] == (10 * i) as real && Bins[i] == (10 * i + 10) as real;
    }
  }
}
