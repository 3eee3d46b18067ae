/**
 * The data behind the 서울 중구 heatmap and sunburst: the day-precise
 * season of a date, the year × season grid of PM10 means, the values
 * that set the colour range, and the year → season tree of rounded means.
 */
module SeoulSeasonHeatmap {
  import opened Js
  import opened Aggregate
  import opened Seasons
  import Scales

  /**
   * `getSeason(date)`: spring from Mar 1, summer from May 31, autumn from
   * Sep 26, winter from Dec 4. An invalid date fails every comparison.
   */
  function GetSeason(date: JsDate): Season {
    match date
    case InvalidDate => Winter
    case Date(_, m, d) =>
      if (m == 3 && d >= 1) || (3 < m < 5) || (m == 5 && d <= 30) then Spring
      else if (m == 5 && d >= 31) || (5 < m < 9) || (m == 9 && d <= 25) then Summer
      else if (m == 9 && d >= 26) || (9 < m < 12) || (m == 12 && d <= 3) then Autumn
      else Winter
  }

  /** A calendar position month·100 + day, ordered like the calendar. */
  function MonthDay(m: int, d: int): int {
    100 * m + d
  }

  /**
   * On every calendar date, the seasons are the four intervals
   * Mar 1–May 30, May 31–Sep 25, Sep 26–Dec 3 and Dec 4–Feb 29.
   */
  lemma SeasonIntervals(y: int, m: int, d: int)
    requires 1 <= m <= 12 && 1 <= d <= 31
    ensures GetSeason(Date(y, m, d)) == Spring <==> MonthDay(3, 1) <= MonthDay(m, d) <= MonthDay(5, 30)
    ensures GetSeason(Date(y, m, d)) == Summer <==> MonthDay(5, 31) <= MonthDay(m, d) <= MonthDay(9, 25)
    ensures GetSeason(Date(y, m, d)) == Autumn <==> MonthDay(9, 26) <= MonthDay(m, d) <= MonthDay(12, 3)
    ensures GetSeason(Date(y, m, d)) == Winter <==> MonthDay(m, d) >= MonthDay(12, 4) || MonthDay(m, d) < MonthDay(3, 1)
  {
  }

  // ---------------------------------------------------------------------
  // Rows

  /** A loaded row: `지역`, the date parsed from `일시`, and `+PM10`. */
  datatype Reading = Reading(region: Option<string>, date: JsDate, pm10: Num)

  /** A row of 서울 중구 after tagging: getFullYear() (None for NaN), season, PM10. */
  datatype Tagged = Tagged(year: Option<int>, season: Season, pm10: Num)

  const Station := "서울 중구"

  function FullYear(d: JsDate): Option<int> {
    match d
    case InvalidDate => None
    case Date(y, _, _) => Some(y)
  }

  function RegionOf(r: Reading): Option<string> { r.region }

  function Tag(r: Reading): Tagged {
    Tagged(FullYear(r.date), GetSeason(r.date), r.pm10)
  }

  /** `raw.filter(d => d.지역 === "서울 중구").map(…)`. */
  function Filtered(raw: seq<Reading>): (f: seq<Tagged>)
    ensures |f| <= |raw|
    ensures forall t :: t in f <==> exists r :: r in raw && r.region == Some(Station) && Tag(r) == t
  {
    var kept := Where(raw, RegionOf, Some(Station));
    var f := MapSeq(kept, Tag);
    assert forall t :: t in f <==> exists r :: r in kept && Tag(r) == t by {
      forall t | t in f ensures exists r :: r in kept && Tag(r) == t {
        var i :| 0 <= i < |f| && f[i] == t;
        assert kept[i] in kept;
      }
    }
    f
  }

  function YearOf(t: Tagged): Option<int> { t.year }
  function SeasonOf(t: Tagged): Season { t.season }
  function Pm10Of(t: Tagged): Num { t.pm10 }

  // ---------------------------------------------------------------------
  // The year × season grid

  /** One element of `grouped`: a year and the season means of its rows. */
  datatype YearRow = YearRow(year: Option<int>, means: map<Season, Option<real>>)

  /** The rows of one year in one season. */
  function Cohort(f: seq<Tagged>, y: Option<int>, s: Season): (c: seq<Tagged>)
    ensures forall t :: t in c <==> t in f && t.year == y && t.season == s
  {
    Where(Where(f, YearOf, y), SeasonOf, s)
  }

  /** `grouped`: per distinct year, in order of first appearance, its season means. */
  function Grouped(f: seq<Tagged>): (g: seq<YearRow>)
    ensures |g| == |Keys(f, YearOf)|
    ensures forall i :: 0 <= i < |g| ==> g[i].year == Keys(f, YearOf)[i]
  {
    var ys := Keys(f, YearOf);
    seq(|ys|, i requires 0 <= i < |ys| => YearRow(ys[i], GroupMean(Where(f, YearOf, ys[i]), SeasonOf, Pm10Of)))
  }

  /**
   * Each year appears once, every year of the rows appears, and a
   * season key of a year holds the d3.mean of exactly that year's rows
   * in that season.
   */
  lemma GroupedMeans(f: seq<Tagged>, i: nat, s: Season)
    requires i < |Grouped(f)|
    ensures forall j :: 0 <= j < |Grouped(f)| && j != i ==> Grouped(f)[j].year != Grouped(f)[i].year
    ensures s in Grouped(f)[i].means <==> exists t :: t in f && t.year == Grouped(f)[i].year && t.season == s
    ensures s in Grouped(f)[i].means ==>
              Grouped(f)[i].means[s] == MeanNum(MapSeq(Cohort(f, Grouped(f)[i].year, s), Pm10Of))
  {
    var ys := Keys(f, YearOf);
    var y := ys[i];
    var w := Where(f, YearOf, y);
    assert Grouped(f)[i].means == GroupMean(w, SeasonOf, Pm10Of);
    InMapSeq(w, SeasonOf, s);
  }

  lemma GroupedCoversYears(f: seq<Tagged>, t: Tagged)
    requires t in f
    ensures exists i :: 0 <= i < |Grouped(f)| && Grouped(f)[i].year == t.year
  {
    InMapSeq(f, YearOf, t.year);
    var ys := Keys(f, YearOf);
    assert t.year in ys;
    var i :| 0 <= i < |ys| && ys[i] == t.year;
    assert Grouped(f)[i].year == t.year;
  }

  /** `d[s]` on the spread year object: undefined for an absent season. */
  function Lookup(means: map<Season, Option<real>>, s: Season): Option<real> {
    if s in means then means[s] else None
  }

  /** One cell of `flat`. */
  datatype Cell = Cell(year: Option<int>, season: Season, pm10: Option<real>)

  function YearCells(y: YearRow): seq<Cell> {
    seq(4, j requires 0 <= j < 4 => Cell(y.year, Order[j], Lookup(y.means, Order[j])))
  }

  /** `grouped.flatMap(d => seasons.map(s => …))`. */
  function Flat(g: seq<YearRow>): (cells: seq<Cell>)
    ensures |cells| == 4 * |g|
    ensures forall i, j :: 0 <= i < |g| && 0 <= j < 4 ==>
              cells[4 * i + j] == Cell(g[i].year, Order[j], Lookup(g[i].means, Order[j]))
  {
    if g == [] then []
    else
      var rest := Flat(g[1..]);
      var cells := YearCells(g[0]) + rest;
      forall i, j | 0 <= i < |g| && 0 <= j < 4
        ensures cells[4 * i + j] == Cell(g[i].year, Order[j], Lookup(g[i].means, Order[j]))
      {
        if i > 0 {
          assert g[i] == g[1..][i - 1];
          assert cells[4 * i + j] == rest[4 * (i - 1) + j];
        }
      }
      cells
  }

  /**
   * A cell is empty (undefined) exactly when its year has no row in that
   * season with a numeric PM10; otherwise it holds the season mean.
   */
  lemma FlatCellEmpty(f: seq<Tagged>, i: nat, j: nat)
    requires i < |Grouped(f)| && j < 4
    ensures var c := Flat(Grouped(f))[4 * i + j];
      c.pm10 == MeanNum(MapSeq(Cohort(f, Grouped(f)[i].year, Order[j]), Pm10Of))
  {
    var ys := Keys(f, YearOf);
    var w := Where(f, YearOf, ys[i]);
    assert Grouped(f)[i].means == GroupMean(w, SeasonOf, Pm10Of);
    assert Cohort(f, ys[i], Order[j]) == Where(w, SeasonOf, Order[j]);
  }

  // ---------------------------------------------------------------------
  // Colour range

  /** The yearly value: the mean of the season means that exist, or null. */
  function YearlyValue(y: YearRow): Option<real> {
    Mean(Defined(MapSeq(YearCells(y), CellValue)))
  }

  /** The defined members of a list, in order (what d3.min and d3.max look at). */
  function Defined(xs: seq<Option<real>>): (r: seq<real>)
    ensures forall v :: v in r <==> Some(v) in xs
  {
    if xs == [] then []
    else
      var rest := Defined(xs[1..]);
      assert forall o :: o in xs <==> o == xs[0] || o in xs[1..];
      if xs[0].Some? then [xs[0].value] + rest else rest
  }

  function CellValue(c: Cell): Option<real> { c.pm10 }

  function Wrap(xs: seq<real>): (r: seq<Option<real>>)
    ensures |r| == |xs| && forall i :: 0 <= i < |xs| ==> r[i] == Some(xs[i])
    ensures forall v :: Some(v) in r <==> v in xs
  {
    var r := seq(|xs|, i requires 0 <= i < |xs| => Some(xs[i]));
    assert forall v :: v in xs ==> Some(v) in r by {
      forall v | v in xs ensures Some(v) in r {
        var i :| 0 <= i < |xs| && xs[i] == v;
        assert r[i] == Some(v);
      }
    }
    r
  }

  /** `allValues`: every cell value, then the yearly value of each year that has one. */
  function AllValues(g: seq<YearRow>): seq<Option<real>> {
    MapSeq(Flat(g), CellValue) + Wrap(Defined(MapSeq(g, YearlyValue)))
  }

  /** `d3.min(allValues)` and `d3.max(allValues)`, None when nothing is defined. */
  function Range(xs: seq<Option<real>>): Option<(real, real)> {
    var d := Defined(xs);
    if d == [] then None else Some((Scales.Min(d), Scales.Max(d)))
  }

  lemma CellInFlat(g: seq<YearRow>, i: nat, c: Cell)
    requires i < |g| && c in YearCells(g[i])
    ensures c in Flat(g)
  {
    var j :| 0 <= j < 4 && YearCells(g[i])[j] == c;
    var f := Flat(g);
    assert f[4 * i + j] == c;
  }

  /** The defined values of one year's cells are defined values of the grid. */
  lemma YearValuesInGrid(g: seq<YearRow>, i: nat)
    requires i < |g|
    ensures forall v :: v in Defined(MapSeq(YearCells(g[i]), CellValue)) ==> v in Defined(MapSeq(Flat(g), CellValue))
  {
    forall v | v in Defined(MapSeq(YearCells(g[i]), CellValue)) ensures v in Defined(MapSeq(Flat(g), CellValue)) {
      InMapSeq(YearCells(g[i]), CellValue, Some(v));
      var c :| c in YearCells(g[i]) && c.pm10 == Some(v);
      CellInFlat(g, i, c);
      InMapSeq(Flat(g), CellValue, Some(v));
    }
  }

  /** A yearly value lies between two of the defined cell values. */
  lemma YearlyValueBetweenCells(g: seq<YearRow>, i: nat)
    requires i < |g| && YearlyValue(g[i]).Some?
    ensures Scales.Inside(Defined(MapSeq(Flat(g), CellValue)), YearlyValue(g[i]).value)
  {
    var vals := Defined(MapSeq(YearCells(g[i]), CellValue));
    YearValuesInGrid(g, i);
    MeanBetween(vals);
    var lo, hi := Scales.Min(vals), Scales.Max(vals);
    assert lo in vals && hi in vals;
  }

  /**
   * The yearly values never widen the colour range: the smallest and the
   * largest of `allValues` are those of the grid cells alone.
   */
  lemma YearlyValuesInsideRange(g: seq<YearRow>)
    ensures Range(AllValues(g)) == Range(MapSeq(Flat(g), CellValue))
  {
    var cells := MapSeq(Flat(g), CellValue);
    var yearly := Defined(MapSeq(g, YearlyValue));
    var dc := Defined(cells);
    var da := Defined(AllValues(g));
    assert AllValues(g) == cells + Wrap(yearly);
    forall v | v in yearly ensures Scales.Inside(dc, v) {
      InMapSeq(g, YearlyValue, Some(v));
      var y :| y in g && YearlyValue(y) == Some(v);
      var i :| 0 <= i < |g| && g[i] == y;
      YearlyValueBetweenCells(g, i);
    }
    forall v | v in da ensures v in dc || v in yearly {
    }
    Scales.ExtentKept(dc, da);
  }

  // ---------------------------------------------------------------------
  // Heatmap cells

  /** `d.PM10 ? color(d.PM10) : "#eee"`: None is the neutral fill (also for a mean of 0). */
  function CellShade(c: Cell): (v: Option<real>)
    ensures v.None? <==> c.pm10.None? || c.pm10.value == 0.0
    ensures v.Some? ==> v == c.pm10
  {
    if c.pm10.Some? && c.pm10.value != 0.0 then c.pm10 else None
  }

  /**
   * Heatmap cell (i, j) is left neutral exactly when year i has no numeric
   * PM10 in season j or the mean of those is 0; otherwise it is coloured
   * by that mean.
   */
  lemma GridShade(f: seq<Tagged>, i: nat, j: nat)
    requires i < |Grouped(f)| && j < 4
    ensures var m := MeanNum(MapSeq(Cohort(f, Grouped(f)[i].year, Order[j]), Pm10Of));
      && (CellShade(Flat(Grouped(f))[4 * i + j]).None? <==> m.None? || m.value == 0.0)
      && (m.Some? && m.value != 0.0 ==> CellShade(Flat(Grouped(f))[4 * i + j]) == m)
  {
    FlatCellEmpty(f, i, j);
  }

  // ---------------------------------------------------------------------
  // Sunburst data

  /** Math.round, which rounds halves up; None stands for NaN. */
  function Round(x: Option<real>): (r: Option<int>)
    ensures r.Some? <==> x.Some?
    ensures r.Some? ==> x.value - 0.5 < r.value as real <= x.value + 0.5
  {
    match x
    case None => None
    case Some(v) => Some((v + 0.5).Floor)
  }

  datatype SeasonNode = SeasonNode(season: Season, value: Option<int>)
  datatype YearNode = YearNode(year: Option<int>, value: Option<int>, children: seq<SeasonNode>)

  /** The sunburst node of one year's rows. */
  function YearNodeOf(rows: seq<Tagged>, y: Option<int>): YearNode {
    var w := Where(rows, YearOf, y);
    var ss := Keys(w, SeasonOf);
    var means := GroupMean(w, SeasonOf, Pm10Of);
    YearNode(y, Round(MeanNum(MapSeq(w, Pm10Of))),
             seq(|ss|, k requires 0 <= k < |ss| => SeasonNode(ss[k], Round(means[ss[k]]))))
  }

  /** `buildHierarchy(filtered).children`: one node per distinct year. */
  function Sunburst(rows: seq<Tagged>): (ns: seq<YearNode>)
    ensures |ns| == |Keys(rows, YearOf)|
  {
    var ys := Keys(rows, YearOf);
    seq(|ys|, i requires 0 <= i < |ys| => YearNodeOf(rows, ys[i]))
  }

  function NodeSeason(c: SeasonNode): Season { c.season }

  /**
   * A year node is valued at the rounded mean of all of that year's rows
   * (not at the mean of its season means), and has one child per season
   * present in that year, in order of first appearance, valued at the
   * rounded mean of that year's rows in that season.
   */
  lemma SunburstNodes(rows: seq<Tagged>, i: nat)
    requires i < |Sunburst(rows)|
    ensures var n := Sunburst(rows)[i];
      && n.year == Keys(rows, YearOf)[i]
      && n.value == Round(MeanNum(MapSeq(Where(rows, YearOf, n.year), Pm10Of)))
      && MapSeq(n.children, NodeSeason) == Keys(Where(rows, YearOf, n.year), SeasonOf)
      && (forall k :: 0 <= k < |n.children| ==>
            n.children[k].value == Round(MeanNum(MapSeq(Cohort(rows, n.year, n.children[k].season), Pm10Of))))
  {
    var y := Keys(rows, YearOf)[i];
    var w := Where(rows, YearOf, y);
    var ss := Keys(w, SeasonOf);
    var n := YearNodeOf(rows, y);
    assert Sunburst(rows)[i] == n;
    assert MapSeq(n.children, NodeSeason) == ss;
    forall k | 0 <= k < |n.children|
      ensures n.children[k].value == Round(MeanNum(MapSeq(Cohort(rows, y, n.children[k].season), Pm10Of)))
    {
      InMapSeq(w, SeasonOf, ss[k]);
    }
  }

  /** A season appears under a year exactly when that year has a row in that season. */
  lemma SunburstSeasonsPresent(rows: seq<Tagged>, i: nat, s: Season)
    requires i < |Sunburst(rows)|
    ensures s in MapSeq(Sunburst(rows)[i].children, NodeSeason)
        <==> exists t :: t in rows && t.year == Sunburst(rows)[i].year && t.season == s
  {
    SunburstNodes(rows, i);
    var y := Sunburst(rows)[i].year;
    InMapSeq(Where(rows, YearOf, y), SeasonOf, s);
  }
}
