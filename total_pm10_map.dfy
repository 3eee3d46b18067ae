/**
 * The yearly PM10 choropleth: the year buttons and their filter, the
 * per-province mean of the kept rows, and the seven-step quantized
 * orange fill over the extent of those means.
 */
module TotalPm10Map {
  import opened Js
  import opened Aggregate
  import opened Provinces
  import Scales

  /** The buttons "전체", "21년", "22년", "23년". */
  datatype YearChoice = AllYears | Y21 | Y22 | Y23

  /** `yearMap[year]`. */
  function Years(c: YearChoice): seq<int> {
    match c
    case AllYears => []
    case Y21 => [2021]
    case Y22 => [2022]
    case Y23 => [2023]
  }

  /**
   * A row survives `year !== "전체" && !yearMap[year].includes(year of
   * date)`; an invalid date's year is NaN, which no list includes.
   */
  predicate YearPasses(c: YearChoice, date: JsDate) {
    c == AllYears || (date.Date? && date.year in Years(c))
  }

  /** Under "전체" every row passes; under a year button only rows dated in that year. */
  lemma YearFilter(c: YearChoice, date: JsDate)
    ensures c == AllYears ==> YearPasses(c, date)
    ensures c == Y21 ==> (YearPasses(c, date) <==> date.Date? && date.year == 2021)
    ensures c == Y22 ==> (YearPasses(c, date) <==> date.Date? && date.year == 2022)
    ensures c == Y23 ==> (YearPasses(c, date) <==> date.Date? && date.year == 2023)
  {
  }

  /** `rowsRaw[i]` after the filter: null for another year, else `{province, value: +d["PM10"]}`. */
  function Prepare(c: YearChoice, d: MapRow): Option<Sample> {
    if YearPasses(c, d.date) then SampleOf(d.region, Plus(Field(d.cells, "PM10"))) else None
  }

  /** `rows`. */
  function Rows(c: YearChoice, data: seq<MapRow>): seq<Sample> {
    Collect(data, (d: MapRow) => Prepare(c, d))
  }

  /** `rows` with no year filter at all. */
  function Unfiltered(data: seq<MapRow>): seq<Sample> {
    Collect(data, (d: MapRow) => SampleOf(d.region, Plus(Field(d.cells, "PM10"))))
  }

  /**
   * A sample is drawn on exactly when some row passes the year filter,
   * resolves to a non-empty province and has a numeric PM10.
   */
  lemma RowsKept(c: YearChoice, data: seq<MapRow>, s: Sample)
    ensures s in Rows(c, data) <==>
              exists d :: d in data && YearPasses(c, d.date) && FirstToken(d.region) != ""
                && Plus(Field(d.cells, "PM10")).Real? && s == Sample(Province(d.region), Plus(Field(d.cells, "PM10")).r)
  {
    if s in Rows(c, data) {
      var d :| d in data && Prepare(c, d) == Some(s);
      assert YearPasses(c, d.date);
    }
  }

  /** Under "전체" the year filter drops no row. */
  lemma {:induction false} AllYearsDropsNothing(data: seq<MapRow>)
    ensures Rows(AllYears, data) == Unfiltered(data)
  {
    if data != [] {
      AllYearsDropsNothing(data[1..]);
    }
  }

  /** `provinceAvg`. */
  function Averages(c: YearChoice, data: seq<MapRow>): map<string, real> {
    ProvinceMeans(Rows(c, data))
  }

  // ---------------------------------------------------------------------
  // Fill

  /** `values.length ? d3.extent(values) : [0, 100]`. */
  function Domain(avg: seq<Sample>): (real, real) {
    Scales.ExtentOr(AvgValues(avg), (0.0, 100.0))
  }

  /**
   * The thresholds of `d3.scaleQuantize().domain([lo, hi])` over the seven
   * colours of `schemeOranges[7]`: `((i + 1)·hi − (i − 6)·lo) / 7` for i = 0..5.
   */
  function QuantizeThresholds(lo: real, hi: real): (ts: seq<real>)
    ensures |ts| == 6
  {
    seq(6, i requires 0 <= i < 6 => ((i + 1) as real * hi - (i - 6) as real * lo) / 7.0)
  }

  /** The thresholds are lo + k·(hi − lo)/7 for k = 1..6, strictly rising over a proper domain. */
  lemma QuantizeSteps(lo: real, hi: real)
    ensures forall i :: 0 <= i < 6 ==> QuantizeThresholds(lo, hi)[i] == lo + (i + 1) as real * (hi - lo) / 7.0
    ensures lo < hi ==> Scales.Ascending(QuantizeThresholds(lo, hi))
  {
    var ts := QuantizeThresholds(lo, hi);
    forall i | 0 <= i < 6 ensures ts[i] == lo + (i + 1) as real * (hi - lo) / 7.0 {
      assert ts[i] == ((i + 1) as real * hi - (i - 6) as real * lo) / 7.0;
    }
    if lo < hi {
      forall a, b | 0 <= a < b < 6 ensures ts[a] < ts[b] {
        StepRises(lo, hi, a, b);
      }
    }
  }

  lemma StepRises(lo: real, hi: real, a: nat, b: nat)
    requires lo < hi && a < b < 6
    ensures QuantizeThresholds(lo, hi)[a] < QuantizeThresholds(lo, hi)[b]
  {
    var ts := QuantizeThresholds(lo, hi);
    var w := hi - lo;
    assert ts[a] == ((a + 1) as real * hi - (a - 6) as real * lo) / 7.0;
    assert ts[b] == ((b + 1) as real * hi - (b - 6) as real * lo) / 7.0;
    assert ((b + 1) as real * hi - (b - 6) as real * lo) - ((a + 1) as real * hi - (a - 6) as real * lo)
        == (b - a) as real * w;
  }

  /** `color(v)`: the index of the shade among the seven, 0 the lightest. */
  function Shade(dom: (real, real), v: real): nat {
    Scales.ThresholdIndex(QuantizeThresholds(dom.0, dom.1), v)
  }

  /**
   * The shade is one of seven, a larger value is never lighter, and over
   * a proper domain its lower end gets the lightest shade and its upper
   * end the darkest.
   */
  lemma ShadeRange(dom: (real, real), v: real, w: real)
    ensures Shade(dom, v) < 7
    ensures v <= w ==> Shade(dom, v) <= Shade(dom, w)
    ensures dom.0 < dom.1 && v == dom.0 ==> Shade(dom, v) == 0
    ensures dom.0 < dom.1 && v == dom.1 ==> Shade(dom, v) == 6
  {
    var ts := QuantizeThresholds(dom.0, dom.1);
    if v <= w {
      Scales.ThresholdIndexMonotone(ts, v, w);
    }
    if dom.0 < dom.1 {
      QuantizeSteps(dom.0, dom.1);
      if v == dom.0 {
        Scales.ThresholdIndexBrackets(ts, v, 0);
      }
      if v == dom.1 {
        assert ts[5] == dom.0 + 6.0 * (dom.1 - dom.0) / 7.0;
        Scales.ThresholdIndexBrackets(ts, v, 6);
      }
    }
  }

  /** A province's fill: "#eee" without a mean, else shade `color(v)` of `schemeOranges[7]`. */
  datatype Fill = Neutral | Orange(shade: nat)

  function FillOf(avg: map<string, real>, dom: (real, real), pf: ProvinceFeature): (f: Fill)
    ensures f.Neutral? <==> pf.province.None? || pf.province.value !in avg
    ensures f.Orange? ==> f.shade == Shade(dom, avg[pf.province.value]) && f.shade < 7
  {
    match Shown(avg, pf)
    case None => Neutral
    case Some(v) => ShadeRange(dom, v, v); Orange(Shade(dom, v))
  }

  /** Every province mean lies inside the colour domain, which falls back to [0, 100] only without rows. */
  lemma DomainOfMeans(c: YearChoice, data: seq<MapRow>, p: string)
    ensures Rows(c, data) == [] ==> Domain(Rows(c, data)) == (0.0, 100.0)
    ensures p in Averages(c, data) ==> Domain(Rows(c, data)).0 <= Averages(c, data)[p] <= Domain(Rows(c, data)).1
  {
    DomainCoversMeans(Rows(c, data), (0.0, 100.0), p);
  }
}
