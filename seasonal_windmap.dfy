/**
 * The seasonal wind choropleth: the season filter, the rows kept only
 * with a numeric speed and direction, the per-province mean of the daily
 * maximum wind speed, the guarded weight of the direction average, and
 * the six-colour threshold scale over the mean speed.
 */
module SeasonalWindmap {
  import opened Js
  import opened Aggregate
  import opened Seasons
  import opened Provinces
  import Scales
  import Rain = SeasonalRainmap

  /** `{province, windSpeed: +d["최대 풍속(m/s)"], windDir: +d["최대 풍속 풍향(16방위)"]}`. */
  datatype WindSample = WindSample(province: string, speed: real, dir: real)

  /** `rowsRaw[i]` and the filter: a non-empty province and a numeric speed and direction. */
  function Prepare(s: Season, d: MapRow): (w: Option<WindSample>)
    ensures w.Some? <==> Rain.SeasonPasses(s, d.date) && FirstToken(d.region) != ""
                         && Plus(Field(d.cells, "최대 풍속(m/s)")).Real?
                         && Plus(Field(d.cells, "최대 풍속 풍향(16방위)")).Real?
    ensures w.Some? ==> w.value.province == Province(d.region) && w.value.speed == Plus(Field(d.cells, "최대 풍속(m/s)")).r
  {
    var speed, dir := Plus(Field(d.cells, "최대 풍속(m/s)")), Plus(Field(d.cells, "최대 풍속 풍향(16방위)"));
    var p := Province(d.region);
    if Rain.SeasonPasses(s, d.date) && p != "" && speed.Real? && dir.Real? then Some(WindSample(p, speed.r, dir.r))
    else None
  }

  /** `rows`. */
  function Rows(s: Season, data: seq<MapRow>): seq<WindSample> {
    Collect(data, (d: MapRow) => Prepare(s, d))
  }

  function SpeedSample(w: WindSample): Sample { Sample(w.province, w.speed) }

  /** The `avgSpeed` of each province of `windMap`: `d3.mean(v, d => d.windSpeed)`. */
  function AvgSpeeds(rows: seq<WindSample>): map<string, real> {
    ProvinceMeans(MapSeq(rows, SpeedSample))
  }

  /** The speeds of one province's kept rows, in row order. */
  function Speeds(rows: seq<WindSample>, p: string): seq<real> {
    ValuesIn(MapSeq(rows, SpeedSample), p)
  }

  /**
   * `windMap` has an entry for exactly the provinces with a kept row, and
   * its speed is the mean of their speeds, between the slowest and the fastest.
   */
  lemma AvgSpeedsOfRows(rows: seq<WindSample>, p: string, i: nat)
    requires i < |rows| && rows[i].province == p
    ensures p in AvgSpeeds(rows)
    ensures Speeds(rows, p) != [] && Mean(Speeds(rows, p)) == Some(AvgSpeeds(rows)[p])
    ensures Scales.Min(Speeds(rows, p)) <= AvgSpeeds(rows)[p] <= Scales.Max(Speeds(rows, p))
  {
    var samples := MapSeq(rows, SpeedSample);
    assert samples[i].province == p;
    ProvinceMeanBetween(samples, p, i);
  }

  /**
   * `d3.sum(v, d => d.windSpeed) || 1`: a zero sum (0 is falsy) becomes
   * 1, so the direction average never divides by zero.
   */
  function WeightSum(speeds: seq<real>): (w: real)
    ensures w != 0.0
    ensures Sum(speeds) != 0.0 ==> w == Sum(speeds)
  {
    if Sum(speeds) == 0.0 then 1.0 else Sum(speeds)
  }

  /** Calm provinces, where every speed is 0, are weighted by 1. */
  lemma {:induction false} CalmWeight(speeds: seq<real>)
    requires forall i :: 0 <= i < |speeds| ==> speeds[i] == 0.0
    ensures WeightSum(speeds) == 1.0
  {
    CalmSum(speeds);
  }

  lemma {:induction false} CalmSum(speeds: seq<real>)
    requires forall i :: 0 <= i < |speeds| ==> speeds[i] == 0.0
    ensures Sum(speeds) == 0.0
  {
    if speeds != [] {
      CalmSum(speeds[1..]);
    }
  }

  // ---------------------------------------------------------------------
  // Colour

  /** `scaleThreshold().domain([5, 10, 15, 20, 30])`. */
  const Thresholds: seq<real> := [5.0, 10.0, 15.0, 20.0, 30.0]

  /** The six colours of the range, slowest first. */
  const Colours: seq<string> := ["#cceeff", "#3399ff", "#ffcc00", "#ff9933", "#ff3300", "#9900cc"]

  /** `color(speed)`. */
  function Colour(speed: real): string {
    Colours[Scales.ThresholdIndex(Thresholds, speed)]
  }

  /**
   * The buckets are [.., 5), [5, 10), [10, 15), [15, 20), [20, 30) and
   * [30, ..): a speed gets colour k exactly when it is in the k-th.
   */
  lemma WindBuckets(speed: real)
    ensures Colour(speed) == "#cceeff" <==> speed < 5.0
    ensures Colour(speed) == "#3399ff" <==> 5.0 <= speed < 10.0
    ensures Colour(speed) == "#ffcc00" <==> 10.0 <= speed < 15.0
    ensures Colour(speed) == "#ff9933" <==> 15.0 <= speed < 20.0
    ensures Colour(speed) == "#ff3300" <==> 20.0 <= speed < 30.0
    ensures Colour(speed) == "#9900cc" <==> 30.0 <= speed
  {
    assert Scales.Ascending(Thresholds);
    var k := Scales.ThresholdIndex(Thresholds, speed);
    Scales.ThresholdIndexBrackets(Thresholds, speed, k);
  }

  /** The fill and the label: "#eee" and "" without a `windMap` entry, else the colour of the mean speed. */
  function FillOf(wind: map<string, real>, pf: ProvinceFeature): (f: string)
    ensures pf.province.None? || pf.province.value !in wind ==> f == "#eee"
    ensures pf.province.Some? && pf.province.value in wind ==> f == Colour(wind[pf.province.value])
  {
    match Shown(wind, pf)
    case None => "#eee"
    case Some(v) => Colour(v)
  }

  /** A province is coloured exactly when one of its rows of the season was kept. */
  lemma ColouredProvinces(s: Season, data: seq<MapRow>, pf: ProvinceFeature)
    requires pf.province.Some?
    ensures pf.province.value in AvgSpeeds(Rows(s, data)) <==>
              exists d :: d in data && Prepare(s, d).Some? && Prepare(s, d).value.province == pf.province.value
  {
    var rows := Rows(s, data);
    var p := pf.province.value;
    if p in AvgSpeeds(rows) {
      var samples := MapSeq(rows, SpeedSample);
      var i :| 0 <= i < |samples| && samples[i].province == p;
      assert rows[i] in rows;
    } else {
      forall d | d in data && Prepare(s, d).Some? ensures Prepare(s, d).value.province != p {
        var w := Prepare(s, d).value;
        assert w in rows;
        var i :| 0 <= i < |rows| && rows[i] == w;
        assert MapSeq(rows, SpeedSample)[i].province == w.province;
      }
    }
  }
}
