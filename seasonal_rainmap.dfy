/**
 * The seasonal rainfall choropleth: the season buttons and the month
 * filter they apply, the per-province mean daily rainfall, and the
 * sequential blue scale over the extent of those means.
 */
module SeasonalRainmap {
  import opened Js
  import opened Aggregate
  import opened Seasons
  import opened Provinces
  import Scales

  /**
   * `seasonMap[season].includes(date.getMonth() + 1)`: an invalid date's
   * month is NaN, which no list includes.
   */
  predicate SeasonPasses(s: Season, date: JsDate) {
    date.Date? && date.month in Months(s)
  }

  /** Every valid date passes the filter of exactly one season button; an invalid date passes none. */
  lemma SeasonFiltersPartition(date: JsDate)
    requires ValidDate(date)
    ensures date.Date? ==> exists s :: SeasonPasses(s, date)
    ensures forall s, t :: SeasonPasses(s, date) && SeasonPasses(t, date) ==> s == t
    ensures date.InvalidDate? ==> forall s :: !SeasonPasses(s, date)
  {
    if date.Date? {
      MonthsPartitionYear(date.month);
      var s :| date.month in Months(s);
      assert SeasonPasses(s, date);
    }
  }

  /** `rowsRaw[i]` after the filter: null for another season, else `{province, value: +d["일강수량(mm)"]}`. */
  function Prepare(s: Season, d: MapRow): Option<Sample> {
    if SeasonPasses(s, d.date) then SampleOf(d.region, Plus(Field(d.cells, "일강수량(mm)"))) else None
  }

  /** `rows`. */
  function Rows(s: Season, data: seq<MapRow>): seq<Sample> {
    Collect(data, (d: MapRow) => Prepare(s, d))
  }

  /**
   * A sample is averaged exactly when some row falls in one of the
   * season's months, resolves to a non-empty province and has a numeric
   * rainfall.
   */
  lemma RowsKept(s: Season, data: seq<MapRow>, x: Sample)
    ensures x in Rows(s, data) <==>
              exists d :: d in data && d.date.Date? && d.date.month in Months(s) && FirstToken(d.region) != ""
                && Plus(Field(d.cells, "일강수량(mm)")).Real?
                && x == Sample(Province(d.region), Plus(Field(d.cells, "일강수량(mm)")).r)
  {
    if x in Rows(s, data) {
      var d :| d in data && Prepare(s, d) == Some(x);
      assert SeasonPasses(s, d.date);
    }
  }

  /** `provinceAvg`. */
  function Averages(s: Season, data: seq<MapRow>): map<string, real> {
    ProvinceMeans(Rows(s, data))
  }

  /** `values.length ? d3.extent(values) : [0, 30]`. */
  function Domain(rows: seq<Sample>): (real, real) {
    Scales.ExtentOr(AvgValues(rows), (0.0, 30.0))
  }

  /**
   * The interpolator's argument in `d3.scaleSequential().domain([lo, hi])`
   * (not clamped): the position of `v` along the domain, and 0.5 when the
   * domain is a single point.
   */
  function Position(dom: (real, real), v: real): real {
    if dom.0 == dom.1 then 0.5 else (v - dom.0) / (dom.1 - dom.0)
  }

  /** A value inside a domain sits in [0, 1] along it, the lower end at 0 and the upper at 1. */
  lemma PositionInRange(dom: (real, real), v: real)
    requires dom.0 <= v <= dom.1
    ensures 0.0 <= Position(dom, v) <= 1.0
    ensures dom.0 < dom.1 && v == dom.0 ==> Position(dom, v) == 0.0
    ensures dom.0 < dom.1 && v == dom.1 ==> Position(dom, v) == 1.0
  {
    if dom.0 < dom.1 {
      DivBetween(v - dom.0, dom.1 - dom.0, 0.0, 1.0);
    }
  }

  /**
   * Every province mean sits inside the domain, so its colour is taken
   * from the blue ramp between its ends.
   */
  lemma MeansOnRamp(s: Season, data: seq<MapRow>, p: string)
    requires p in Averages(s, data)
    ensures Domain(Rows(s, data)).0 <= Averages(s, data)[p] <= Domain(Rows(s, data)).1
    ensures 0.0 <= Position(Domain(Rows(s, data)), Averages(s, data)[p]) <= 1.0
  {
    DomainCoversMeans(Rows(s, data), (0.0, 30.0), p);
    PositionInRange(Domain(Rows(s, data)), Averages(s, data)[p]);
  }

  /** The fill and the label: "#eee" and "" without a mean, else the blue at the mean's position. */
  datatype Fill = Neutral | Blue(position: real)

  function FillOf(avg: map<string, real>, dom: (real, real), pf: ProvinceFeature): (f: Fill)
    ensures f.Neutral? <==> pf.province.None? || pf.province.value !in avg
    ensures f.Blue? ==> f.position == Position(dom, avg[pf.province.value])
  {
    match Shown(avg, pf)
    case None => Neutral
    case Some(v) => Blue(Position(dom, v))
  }
}
