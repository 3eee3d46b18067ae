/**
 * The yearly wind choropleth: the year filter, the per-province mean of
 * the daily maximum wind speed, and the `windMap` the fill and the label
 * read, which as written averages a property the rows do not have.
 */
module TotalWindmap {
  import opened Js
  import opened Aggregate
  import opened Provinces
  import Pm10 = TotalPm10Map
  import Wind = SeasonalWindmap

  /** `rowsRaw[i]` and the filter: `{province, value: +d["최대 풍속(m/s)"]}` for a row of the year. */
  function Prepare(c: Pm10.YearChoice, d: MapRow): Option<Sample> {
    if Pm10.YearPasses(c, d.date) then SampleOf(d.region, Plus(Field(d.cells, "최대 풍속(m/s)"))) else None
  }

  /** `rows`. */
  function Rows(c: Pm10.YearChoice, data: seq<MapRow>): seq<Sample> {
    Collect(data, (d: MapRow) => Prepare(c, d))
  }

  /** `provinceAvg`: the mean maximum wind speed of each province. */
  function Averages(c: Pm10.YearChoice, data: seq<MapRow>): map<string, real> {
    ProvinceMeans(Rows(c, data))
  }

  /**
   * A sample is averaged exactly when some row passes the year filter,
   * resolves to a non-empty province and has a numeric maximum wind speed.
   */
  lemma RowsKept(c: Pm10.YearChoice, data: seq<MapRow>, s: Sample)
    ensures s in Rows(c, data) <==>
              exists d :: d in data && Pm10.YearPasses(c, d.date) && FirstToken(d.region) != ""
                && Plus(Field(d.cells, "최대 풍속(m/s)")).Real?
                && s == Sample(Province(d.region), Plus(Field(d.cells, "최대 풍속(m/s)")).r)
  {
    if s in Rows(c, data) {
      var d :| d in data && Prepare(c, d) == Some(s);
      assert Pm10.YearPasses(c, d.date);
    }
  }

  // ---------------------------------------------------------------------
  // windMap as written

  /** `d.windSpeed` of a row object that has only `province` and `value`: undefined, which d3.mean skips. */
  function MissingSpeed(s: Sample): Num { NaN }

  /** `windMap`: province to `avgSpeed = d3.mean(v, d => d.windSpeed)`, None for undefined. */
  function WindMapAsWritten(rows: seq<Sample>): map<string, Option<real>> {
    GroupMean(rows, ProvinceOf, MissingSpeed)
  }

  /** What the label shows: nothing, a speed, or a TypeError thrown. */
  datatype LabelText = Blank | Speed(v: real) | TypeError

  /** The label as written: `wind ? wind.avgSpeed.toFixed(1) + " m/s" : ""`. */
  function LabelAsWritten(wind: map<string, Option<real>>, pf: ProvinceFeature): LabelText {
    match pf.province
    case None => Blank
    case Some(p) =>
      if p !in wind then Blank
      else if wind[p].None? then TypeError
      else Speed(wind[p].value)
  }

  /**
   * `windMap` has an entry for every province with a kept row, but no
   * entry has a speed: for each such province the label throws (and the
   * fill is `color(undefined)`, the scale's unknown value).
   */
  lemma WindMapHasNoSpeed(rows: seq<Sample>, pf: ProvinceFeature)
    ensures forall p :: p in WindMapAsWritten(rows) <==> p in ProvinceMeans(rows)
    ensures forall p :: p in WindMapAsWritten(rows) ==> WindMapAsWritten(rows)[p] == None
    ensures pf.province.Some? && pf.province.value in ProvinceMeans(rows) ==>
              LabelAsWritten(WindMapAsWritten(rows), pf) == TypeError
  {
    var wind := WindMapAsWritten(rows);
    forall p | p in wind ensures wind[p] == None {
      AllMissing(MapSeq(Where(rows, ProvinceOf, p), MissingSpeed));
    }
    forall p ensures p in wind <==> p in ProvinceMeans(rows) {
      SameKeys(rows, p);
    }
  }

  lemma SameKeys(rows: seq<Sample>, p: string)
    ensures p in MapSeq(rows, ProvinceOf) <==> p in ProvinceMeans(rows)
  {
    if p in ProvinceMeans(rows) {
      var i :| 0 <= i < |rows| && rows[i].province == p;
      assert MapSeq(rows, ProvinceOf)[i] == p;
    }
    if p in MapSeq(rows, ProvinceOf) {
      var i :| 0 <= i < |rows| && MapSeq(rows, ProvinceOf)[i] == p;
      assert rows[i].province == p;
    }
  }

  lemma {:induction false} AllMissing(xs: seq<Num>)
    requires forall i :: 0 <= i < |xs| ==> xs[i] == NaN
    ensures MeanNum(xs) == None
  {
    NumbersEmpty(xs);
  }

  /** Any kept row makes the label of its province throw. */
  lemma KeptRowThrows(c: Pm10.YearChoice, data: seq<MapRow>, d: MapRow, pf: ProvinceFeature)
    requires d in data && Prepare(c, d).Some?
    requires pf.province == Some(Prepare(c, d).value.province)
    ensures LabelAsWritten(WindMapAsWritten(Rows(c, data)), pf) == TypeError
  {
    var rows := Rows(c, data);
    var s := Prepare(c, d).value;
    assert s in rows;
    var i :| 0 <= i < |rows| && rows[i] == s;
    assert rows[i].province == s.province;
    WindMapHasNoSpeed(rows, pf);
  }

  /** A single kept Seoul sample of 7 m/s: Seoul's label throws instead of showing 7.0 m/s. */
  lemma LabelCounterexample()
    ensures var rows := [Sample("서울특별시", 7.0)];
      && "서울특별시" in ProvinceMeans(rows) && ProvinceMeans(rows)["서울특별시"] == 7.0
      && LabelAsWritten(WindMapAsWritten(rows), ProvinceFeature("11", Some("서울특별시"), [])) == TypeError
  {
    var rows := [Sample("서울특별시", 7.0)];
    assert rows[0].province == "서울특별시";
    assert "서울특별시" in ProvinceMeans(rows);
    assert Where(rows, ProvinceOf, "서울특별시") == rows by {
      assert rows[1..] == [];
    }
    assert ValuesIn(rows, "서울특별시") == [7.0];
    assert Sum([7.0]) == 7.0;
    WindMapHasNoSpeed(rows, ProvinceFeature("11", Some("서울특별시"), []));
  }

  // ---------------------------------------------------------------------
  // windMap as intended

  /** The wind entry the chart means to read: the province mean of `value`, the column the rows carry. */
  function WindMap(rows: seq<Sample>): map<string, real> {
    ProvinceMeans(rows)
  }

  function Label(wind: map<string, real>, pf: ProvinceFeature): LabelText {
    match Shown(wind, pf)
    case None => Blank
    case Some(v) => Speed(v)
  }

  /**
   * With `windMap` built from `value`, every province with a kept row
   * shows its mean maximum wind speed, coloured by its bucket, and the
   * others stay blank and "#eee"; nothing throws.
   */
  lemma LabelsShowMeans(c: Pm10.YearChoice, data: seq<MapRow>, pf: ProvinceFeature)
    ensures var wind := WindMap(Rows(c, data));
      && Label(wind, pf) != TypeError
      && (pf.province.Some? && pf.province.value in Averages(c, data) ==>
            Label(wind, pf) == Speed(Averages(c, data)[pf.province.value])
            && Wind.FillOf(wind, pf) == Wind.Colour(Averages(c, data)[pf.province.value]))
      && (pf.province.None? || pf.province.value !in Averages(c, data) ==>
            Label(wind, pf) == Blank && Wind.FillOf(wind, pf) == "#eee")
  {
  }
}
