/**
 * The two lookup tables every map component carries, identical in each:
 * administrative-code prefix to province name, and the abbreviation
 * used in the measurement files to province name.
 */
module ProvinceTables {
  import opened Aggregate

  /** `codePrefixToProvince`: the first two digits of an administrative code. */
  const CodePrefixToProvince: map<string, string> := map[
    "11" := "서울특별시", "21" := "부산광역시", "22" := "대구광역시", "23" := "인천광역시",
    "24" := "광주광역시", "25" := "대전광역시", "26" := "울산광역시", "29" := "세종특별자치시",
    "31" := "경기도", "32" := "강원특별자치도", "33" := "충청북도", "34" := "충청남도",
    "35" := "전라북도", "36" := "전라남도", "37" := "경상북도", "38" := "경상남도",
    "39" := "제주특별자치도"
  ]

  /** `shortToLong`: the abbreviation used in the measurement files. */
  const ShortToLong: map<string, string> := map[
    "서울" := "서울특별시", "부산" := "부산광역시", "대구" := "대구광역시", "인천" := "인천광역시",
    "광주" := "광주광역시", "대전" := "대전광역시", "울산" := "울산광역시", "세종" := "세종특별자치시",
    "경기" := "경기도", "강원" := "강원특별자치도", "충북" := "충청북도", "충남" := "충청남도",
    "전북" := "전라북도", "전남" := "전라남도", "경북" := "경상북도", "경남" := "경상남도",
    "제주" := "제주특별자치도"
  ]

  predicate Injective(m: map<string, string>) {
    forall a, b :: a in m && b in m && a != b ==> m[a] != m[b]
  }

  /** The 17 official province names, in ascending order of their tags. */
  const ProvinceNameList: seq<string> := [
    "강원특별자치도", "경기도", "경상남도", "경상북도", "광주광역시", "대구광역시",
    "대전광역시", "부산광역시", "서울특별시", "세종특별자치시", "울산광역시", "인천광역시",
    "전라남도", "전라북도", "제주특별자치도", "충청남도", "충청북도"
  ]

  /** The 17 code prefixes. */
  const CodePrefixList: seq<string> := [
    "11", "21", "22", "23", "24", "25", "26", "29", "31",
    "32", "33", "34", "35", "36", "37", "38", "39"
  ]

  /** The 17 abbreviations, in ascending order of their tags. */
  const AbbreviationList: seq<string> := [
    "강원", "경기", "경남", "경북", "광주", "대구", "대전", "부산", "서울",
    "세종", "울산", "인천", "전남", "전북", "제주", "충남", "충북"
  ]

  function CharCode(s: string, i: nat): int {
    if i < |s| then s[i] as int else 0
  }

  /**
   * The codes of a string's first three characters packed into one
   * number: no two strings of the three lists share one, which is how
   * the proofs below tell the table strings apart.
   */
  function Tag(s: string): int {
    CharCode(s, 0) * 4294967296 + CharCode(s, 1) * 65536 + CharCode(s, 2)
  }

  lemma PrefixTags()
    ensures Tag("11") == 210456608768 && Tag("21") == 214751576064 && Tag("22") == 214751641600
    ensures Tag("23") == 214751707136 && Tag("24") == 214751772672 && Tag("25") == 214751838208
    ensures Tag("26") == 214751903744 && Tag("29") == 214752100352 && Tag("31") == 219046543360
    ensures Tag("32") == 219046608896 && Tag("33") == 219046674432 && Tag("34") == 219046739968
    ensures Tag("35") == 219046805504 && Tag("36") == 219046871040 && Tag("37") == 219046936576
    ensures Tag("38") == 219047002112 && Tag("39") == 219047067648
  {
  }

  lemma AbbreviationTags()
    ensures Tag("강원") == 189209529810944 && Tag("경기") == 189930671177728 && Tag("경남") == 189930712596480
    ensures Tag("경북") == 189930928144384 && Tag("광주") == 190291898007552 && Tag("대구") == 196815490908160
    ensures Tag("대전") == 196815937077248 && Tag("부산") == 208360686223360 && Tag("서울") == 212329337192448
    ensures Tag("세종") == 212449626488832 && Tag("울산") == 218496809041920 && Tag("인천") == 219321642778624
    ensures Tag("전남") == 219922469224448 && Tag("전북") == 219922684772352 && Tag("제주") == 220025956597760
    ensures Tag("충남") == 226128696967168 && Tag("충북") == 226128912515072
  {
  }

  lemma NameTags()
    ensures Tag("강원특별자치도") == 189209529864889 && Tag("경기도") == 189930671223748 && Tag("경상남도") == 189930982715560
    ensures Tag("경상북도") == 189930982718849 && Tag("광주광역시") == 190291898051857 && Tag("대구광역시") == 196815490952465
    ensures Tag("대전광역시") == 196815937121553 && Tag("부산광역시") == 208360686267665 && Tag("서울특별시") == 212329337246393
    ensures Tag("세종특별자치시") == 212449626542777 && Tag("울산광역시") == 218496809086225 && Tag("인천광역시") == 219321642822929
    ensures Tag("전라남도") == 219922583826600 && Tag("전라북도") == 219922583829889 && Tag("제주특별자치도") == 220025956651705
    ensures Tag("충청남도") == 226129167102120 && Tag("충청북도") == 226129167105409
  {
  }

  predicate TagsAscend(l: seq<string>) {
    forall i :: 0 <= i < |l| - 1 ==> Tag(l[i]) < Tag(l[i + 1])
  }

  /** Strings whose tags ascend are pairwise distinct. */
  lemma {:induction false} AscendingDistinct(l: seq<string>)
    requires TagsAscend(l)
    ensures NoDuplicates(l)
  {
    forall i, j | 0 <= i < j < |l| ensures l[i] != l[j] {
      AscendingBetween(l, i, j);
    }
  }

  lemma {:induction false} AscendingBetween(l: seq<string>, i: nat, j: nat)
    requires TagsAscend(l) && i < j < |l|
    ensures Tag(l[i]) < Tag(l[j])
    decreases j - i
  {
    if i + 1 < j {
      AscendingBetween(l, i + 1, j);
    }
  }

  /** Each list holds 17 distinct strings. */
  lemma ListsDistinct()
    ensures |ProvinceNameList| == 17 && NoDuplicates(ProvinceNameList)
    ensures |CodePrefixList| == 17 && NoDuplicates(CodePrefixList)
    ensures |AbbreviationList| == 17 && NoDuplicates(AbbreviationList)
  {
    NamesAscend();
    PrefixesAscend();
    AbbreviationsAscend();
    AscendingDistinct(ProvinceNameList);
    AscendingDistinct(CodePrefixList);
    AscendingDistinct(AbbreviationList);
  }

  lemma NamesAscend()
    ensures TagsAscend(ProvinceNameList)
  {
    NameTags();
  }

  lemma PrefixesAscend()
    ensures TagsAscend(CodePrefixList)
  {
    PrefixTags();
  }

  lemma AbbreviationsAscend()
    ensures TagsAscend(AbbreviationList)
  {
    AbbreviationTags();
  }

  /** The keys of the two tables are exactly the listed code prefixes and abbreviations. */
  lemma TableKeys()
    ensures forall k :: k in CodePrefixToProvince <==> k in CodePrefixList
    ensures forall k :: k in ShortToLong <==> k in AbbreviationList
  {
  }

  /** Each table has 17 keys. */
  lemma TableSizes()
    ensures |CodePrefixToProvince| == 17 && |ShortToLong| == 17
  {
    TableKeys();
    ListsDistinct();
    DistinctCard(CodePrefixList, CodePrefixToProvince.Keys);
    DistinctCard(AbbreviationList, ShortToLong.Keys);
  }

  /** Neither table sends two keys to the same name. */
  lemma CodeTableInjective()
    ensures Injective(CodePrefixToProvince)
  {
  }

  lemma AbbreviationTableInjective()
    ensures Injective(ShortToLong)
  {
  }

  /** Every value of either table is one of the 17 province names. */
  lemma CodeTableWithin()
    ensures forall k :: k in CodePrefixToProvince ==> CodePrefixToProvince[k] in ProvinceNameList
  {
  }

  lemma AbbreviationTableWithin()
    ensures forall k :: k in ShortToLong ==> ShortToLong[k] in ProvinceNameList
  {
  }

  /** The code prefix of the province each abbreviation stands for. */
  ghost const CodeOfAbbreviation: map<string, string> := map[
    "서울" := "11", "부산" := "21", "대구" := "22", "인천" := "23",
    "광주" := "24", "대전" := "25", "울산" := "26", "세종" := "29",
    "경기" := "31", "강원" := "32", "충북" := "33", "충남" := "34",
    "전북" := "35", "전남" := "36", "경북" := "37", "경남" := "38",
    "제주" := "39"
  ]

  /** Each abbreviation names the same province as its code prefix. */
  lemma AbbreviationsMatchCodes()
    ensures forall a :: a in ShortToLong ==>
              a in CodeOfAbbreviation && CodeOfAbbreviation[a] in CodePrefixToProvince
              && CodePrefixToProvince[CodeOfAbbreviation[a]] == ShortToLong[a]
  {
  }

  /** Every province name has at least three characters and begins with a Hangul syllable. */
  lemma NameShape(n: string)
    requires n in ProvinceNameList
    ensures |n| >= 3 && '가' <= n[0] <= '힣'
  {
  }

  /** So does every long name the abbreviation table gives. */
  lemma LongNamesShape()
    ensures forall k :: k in ShortToLong ==> |ShortToLong[k]| >= 3 && '가' <= ShortToLong[k][0] <= '힣'
  {
    AbbreviationTableWithin();
    forall k | k in ShortToLong ensures |ShortToLong[k]| >= 3 && '가' <= ShortToLong[k][0] <= '힣' {
      NameShape(ShortToLong[k]);
    }
  }

  /** The empty text is no abbreviation. */
  lemma EmptyNotAbbreviation()
    ensures "" !in ShortToLong
  {
    TableKeys();
  }

  /** The two tables name the same 17 provinces. */
  lemma TablesAgree()
    ensures CodePrefixToProvince.Values == ShortToLong.Values
    ensures |CodePrefixToProvince.Values| == 17
  {
    AbbreviationsMatchCodes();
    forall n | n in ShortToLong.Values ensures n in CodePrefixToProvince.Values {
      var a :| a in ShortToLong && ShortToLong[a] == n;
      assert CodePrefixToProvince[CodeOfAbbreviation[a]] == n;
    }
    TableSizes();
    CodeTableInjective();
    AbbreviationTableInjective();
    InjectiveValuesCard(CodePrefixToProvince);
    InjectiveValuesCard(ShortToLong);
    SubsetSameCard(ShortToLong.Values, CodePrefixToProvince.Values);
  }

  /** An injective table has as many distinct values as keys. */
  lemma InjectiveValuesCard(m: map<string, string>)
    requires Injective(m)
    ensures |m.Values| == |m.Keys|
    decreases |m.Keys|
  {
    if m.Keys != {} {
      var k :| k in m;
      var rest := m - {k};
      assert Injective(rest);
      assert rest.Keys == m.Keys - {k};
      forall v ensures v in rest.Values <==> v in m.Values - {m[k]} {
        if v in m.Values - {m[k]} {
          var j :| j in m && m[j] == v;
          assert j != k && j in rest;
        }
      }
      assert rest.Values == m.Values - {m[k]};
      InjectiveValuesCard(rest);
    }
  }

  lemma SubsetSameCard(a: set<string>, b: set<string>)
    requires a <= b && |a| == |b|
    ensures a == b
  {
    assert |b - a| == |b| - |a|;
  }

}

/**
 * What the four choropleth maps share: the two province tables, the
 * resolution of a row's `지역` text to a province name, the per-province
 * mean, the merge of sub-region map features into one feature per
 * province, and the join of the means onto those features.
 */
module Provinces {
  import opened Js
  import opened Aggregate
  import Scales
  import opened ProvinceTables

  /**
   * `shortToLong[abbr] || abbr` for the first token of the trimmed
   * region text: a known abbreviation gives the long name, any other
   * token is kept as it is.
   */
  function Province(region: string): (p: string)
    ensures FirstToken(region) in ShortToLong ==> p == ShortToLong[FirstToken(region)]
    ensures FirstToken(region) !in ShortToLong ==> p == FirstToken(region)
    ensures p == "" <==> FirstToken(region) == ""
  {
    var abbr := FirstToken(region);
    LongNamesShape();
    EmptyNotAbbreviation();
    if abbr in ShortToLong then ShortToLong[abbr] else abbr
  }

  // ---------------------------------------------------------------------
  // Per-province mean

  /** A row that survived the filters: a non-empty province and a number. */
  datatype Sample = Sample(province: string, value: real)

  function ProvinceOf(s: Sample): string { s.province }
  function ValueOf(s: Sample): real { s.value }

  /** The values of the samples of one province. */
  function ValuesIn(rows: seq<Sample>, p: string): seq<real> {
    MapSeq(Where(rows, ProvinceOf, p), ValueOf)
  }

  /**
   * `d3.rollup(rows, v => d3.mean(v, d => d.value), d => d.province)`:
   * every province with a sample, mapped to the mean of its values.
   */
  function ProvinceMeans(rows: seq<Sample>): (avg: map<string, real>)
    ensures forall p :: p in avg <==> exists i :: 0 <= i < |rows| && rows[i].province == p
    ensures forall p :: p in avg ==> Mean(ValuesIn(rows, p)) == Some(avg[p])
  {
    ProvincesPresent(rows);
    map p | p in MapSeq(rows, ProvinceOf) :: Mean(ValuesIn(rows, p)).value
  }

  lemma ProvincesPresent(rows: seq<Sample>)
    ensures forall p :: p in MapSeq(rows, ProvinceOf) <==> exists i :: 0 <= i < |rows| && rows[i].province == p
  {
    forall p ensures p in MapSeq(rows, ProvinceOf) <==> exists i :: 0 <= i < |rows| && rows[i].province == p {
      if p in MapSeq(rows, ProvinceOf) {
        var i :| 0 <= i < |rows| && MapSeq(rows, ProvinceOf)[i] == p;
        assert rows[i].province == p;
      }
    }
  }

  /** A province mean lies between the smallest and the largest of its values. */
  lemma ProvinceMeanBetween(rows: seq<Sample>, p: string, i: nat)
    requires i < |rows| && rows[i].province == p
    ensures ValuesIn(rows, p) != [] && p in ProvinceMeans(rows)
    ensures Scales.Min(ValuesIn(rows, p)) <= ProvinceMeans(rows)[p] <= Scales.Max(ValuesIn(rows, p))
  {
    var avg := ProvinceMeans(rows);
    var xs := ValuesIn(rows, p);
    assert rows[i] in Where(rows, ProvinceOf, p);
    assert xs != [];
    MeanBetween(xs);
  }

  // ---------------------------------------------------------------------
  // Map features

  type Point = (real, real)
  /** The rings of one polygon, as GeoJSON lists them. */
  type PolygonCoords = seq<seq<Point>>

  datatype Geometry =
    | Polygon(coordinates: PolygonCoords)
    | MultiPolygon(parts: seq<PolygonCoords>)
    | OtherGeometry

  /** A sub-region feature of the topology: its code, its name and its shape. */
  datatype Feature = Feature(code: string, name: string, geometry: Geometry)

  /** The merged feature of one province. */
  datatype ProvinceFeature = ProvinceFeature(codePrefix: string, province: Option<string>, coords: seq<PolygonCoords>)

  /** `f.properties.code.slice(0, 2)`. */
  function CodePrefix(f: Feature): string {
    Slice(f.code, 0, 2)
  }

  /** What one feature adds to its province: a Polygon one polygon, a MultiPolygon all its parts. */
  function Contribution(g: Geometry): seq<PolygonCoords> {
    match g
    case Polygon(c) => [c]
    case MultiPolygon(ps) => ps
    case OtherGeometry => []
  }

  /** The polygons of a list of features, in feature order. */
  function Merged(feats: seq<Feature>): seq<PolygonCoords> {
    if feats == [] then [] else Contribution(feats[0].geometry) + Merged(feats[1..])
  }

  function PolygonCount(f: Feature): real {
    |Contribution(f.geometry)| as real
  }

  /** `codePrefixToProvince[codePrefix]`, None for undefined. */
  function ProvinceName(prefix: string): Option<string> {
    if prefix in CodePrefixToProvince then Some(CodePrefixToProvince[prefix]) else None
  }

  /** The merged feature of the features whose code starts with `prefix`. */
  function MergedProvince(features: seq<Feature>, prefix: string): ProvinceFeature {
    ProvinceFeature(prefix, ProvinceName(prefix), Merged(Where(features, CodePrefix, prefix)))
  }

  /** The merged feature of each code prefix, in order of first appearance. */
  function ProvinceFeatures(features: seq<Feature>): (ps: seq<ProvinceFeature>)
    ensures |ps| == |Keys(features, CodePrefix)|
    ensures forall i :: 0 <= i < |ps| ==> ps[i] == MergedProvince(features, Keys(features, CodePrefix)[i])
  {
    var ks := Keys(features, CodePrefix);
    seq(|ks|, i requires 0 <= i < |ks| => MergedProvince(features, ks[i]))
  }

  lemma {:induction false} MergedAppend(a: seq<Feature>, f: Feature)
    ensures Merged(a + [f]) == Merged(a) + Contribution(f.geometry)
  {
    if a == [] {
      assert [f][1..] == [];
    } else {
      assert (a + [f])[1..] == a[1..] + [f];
      MergedAppend(a[1..], f);
    }
  }

  /** The `coords` array of one province, filled by the `forEach` push loop. */
  method MergeGroup(feats: seq<Feature>) returns (coords: seq<PolygonCoords>)
    ensures coords == Merged(feats)
  {
    coords := [];
    var i := 0;
    while i < |feats|
      invariant 0 <= i <= |feats|
      invariant coords == Merged(feats[..i])
    {
      var g := feats[i].geometry;
      if g.Polygon? {
        coords := coords + [g.coordinates];
      } else if g.MultiPolygon? {
        coords := coords + g.parts;
      }
      assert feats[..i + 1] == feats[..i] + [feats[i]];
      MergedAppend(feats[..i], feats[i]);
      i := i + 1;
    }
    assert feats[..i] == feats;
  }

  /** The merged feature of one group: its prefix, its province name and its polygons. */
  method MergeProvince(features: seq<Feature>, prefix: string) returns (pf: ProvinceFeature)
    ensures pf == MergedProvince(features, prefix)
  {
    var coords := MergeGroup(Where(features, CodePrefix, prefix));
    pf := ProvinceFeature(prefix, ProvinceName(prefix), coords);
  }

  /** `Array.from(d3.group(features, codePrefix), …)`: one merged feature per group. */
  method MergeFeatures(features: seq<Feature>) returns (provinces: seq<ProvinceFeature>)
    ensures provinces == ProvinceFeatures(features)
  {
    var ks := Keys(features, CodePrefix);
    ghost var ps := ProvinceFeatures(features);
    provinces := [];
    var i := 0;
    while i < |ks|
      invariant 0 <= i <= |ks| == |ps|
      invariant provinces == ps[..i]
    {
      var pf := MergeProvince(features, ks[i]);
      assert ps[..i + 1] == ps[..i] + [pf];
      provinces := provinces + [pf];
      i := i + 1;
    }
    assert ps[..i] == ps;
  }

  function PrefixOf(pf: ProvinceFeature): string { pf.codePrefix }

  /**
   * The merged features carry, in order, exactly the distinct code
   * prefixes of the input: one feature per prefix present, none twice.
   */
  lemma ProvinceFeaturesByPrefix(features: seq<Feature>)
    ensures MapSeq(ProvinceFeatures(features), PrefixOf) == Keys(features, CodePrefix)
  {
  }

  lemma {:induction false} MergedCount(feats: seq<Feature>)
    ensures |Merged(feats)| as real == Sum(MapSeq(feats, PolygonCount))
  {
    if feats != [] {
      MergedCount(feats[1..]);
      assert MapSeq(feats, PolygonCount) == [PolygonCount(feats[0])] + MapSeq(feats[1..], PolygonCount);
    }
  }

  /** The number of polygons drawn, over all provinces. */
  function TotalPolygons(ps: seq<ProvinceFeature>): nat {
    if ps == [] then 0 else |ps[0].coords| + TotalPolygons(ps[1..])
  }

  /** The polygons of features grouped by the prefixes `ks` add up to the groups' contributions. */
  lemma {:induction false} TotalPolygonsGroups(features: seq<Feature>, ps: seq<ProvinceFeature>, ks: seq<string>)
    requires |ps| == |ks|
    requires forall i :: 0 <= i < |ks| ==> ps[i].coords == Merged(Where(features, CodePrefix, ks[i]))
    ensures TotalPolygons(ps) as real == SumGroups(features, CodePrefix, PolygonCount, ks)
  {
    if ks != [] {
      forall i | 0 <= i < |ks[1..]|
        ensures ps[1..][i].coords == Merged(Where(features, CodePrefix, ks[1..][i]))
      {
        assert ps[1..][i] == ps[i + 1] && ks[1..][i] == ks[i + 1];
      }
      TotalPolygonsGroups(features, ps[1..], ks[1..]);
      MergedCount(Where(features, CodePrefix, ks[0]));
    }
  }

  /**
   * Merging loses and duplicates nothing: the provinces hold, between
   * them, exactly as many polygons as the features contribute.
   */
  lemma MergeKeepsEveryPolygon(features: seq<Feature>)
    ensures TotalPolygons(ProvinceFeatures(features)) as real == Sum(MapSeq(features, PolygonCount))
  {
    var ks := Keys(features, CodePrefix);
    TotalPolygonsGroups(features, ProvinceFeatures(features), ks);
    forall i | 0 <= i < |features| ensures CodePrefix(features[i]) in ks {
      assert MapSeq(features, CodePrefix)[i] == CodePrefix(features[i]);
    }
    SumPartition(features, CodePrefix, PolygonCount, ks);
  }

  // ---------------------------------------------------------------------
  // Join

  /**
   * The value a province shows, fill and label alike: None means the
   * neutral fill "#eee" and an empty label.
   */
  function Shown(avg: map<string, real>, pf: ProvinceFeature): (v: Option<real>)
    ensures v.None? <==> pf.province.None? || pf.province.value !in avg
    ensures v.Some? ==> v.value == avg[pf.province.value]
  {
    match pf.province
    case None => None
    case Some(p) => if p in avg then Some(avg[p]) else None
  }

  /**
   * Over the province means, a feature shows a value exactly when some
   * sample carries its province, and that value is the mean of the
   * province's samples.
   */
  lemma ShownMeans(rows: seq<Sample>, pf: ProvinceFeature)
    ensures Shown(ProvinceMeans(rows), pf).Some? <==>
              pf.province.Some? && exists i :: 0 <= i < |rows| && rows[i].province == pf.province.value
    ensures Shown(ProvinceMeans(rows), pf).Some? ==> Mean(ValuesIn(rows, pf.province.value)) == Shown(ProvinceMeans(rows), pf)
  {
  }

  // ---------------------------------------------------------------------
  // Rows of the measurement files

  /** A measurement row as the maps read it: the parsed `일시`, the `지역` text and the other cells. */
  datatype MapRow = MapRow(date: JsDate, region: string, cells: CsvRow)

  /**
   * `{province, value}` and the filter `d && d.province && !isNaN(d.value)`:
   * a sample exactly when the region resolves to a non-empty name and the
   * value is a number.
   */
  function SampleOf(region: string, value: Num): (s: Option<Sample>)
    ensures s.Some? <==> FirstToken(region) != "" && value.Real?
    ensures s.Some? ==> s.value == Sample(Province(region), value.r)
  {
    var p := Province(region);
    if p != "" && value.Real? then Some(Sample(p, value.r)) else None
  }

  /** `Array.from(provinceAvg.values())`, in the rollup's key order. */
  function AvgValues(rows: seq<Sample>): (vs: seq<real>)
    ensures |vs| == |Keys(rows, ProvinceOf)|
  {
    var avg := ProvinceMeans(rows);
    MapSeq(Keys(rows, ProvinceOf), (p: string) => if p in avg then avg[p] else 0.0)
  }

  /** The values are the province means, one per province with a sample. */
  lemma AvgValuesAreMeans(rows: seq<Sample>)
    ensures |AvgValues(rows)| == |ProvinceMeans(rows).Keys|
    ensures forall p :: p in ProvinceMeans(rows) ==> ProvinceMeans(rows)[p] in AvgValues(rows)
    ensures forall v :: v in AvgValues(rows) ==> exists p :: p in ProvinceMeans(rows) && ProvinceMeans(rows)[p] == v
  {
    var avg := ProvinceMeans(rows);
    var ks := Keys(rows, ProvinceOf);
    var vs := AvgValues(rows);
    forall j | 0 <= j < |ks| ensures ks[j] in avg && vs[j] == avg[ks[j]] {
      InMapSeq(rows, ProvinceOf, ks[j]);
      var i :| 0 <= i < |rows| && MapSeq(rows, ProvinceOf)[i] == ks[j];
      assert rows[i].province == ks[j];
    }
    forall p | p in avg ensures avg[p] in vs {
      var i :| 0 <= i < |rows| && rows[i].province == p;
      assert MapSeq(rows, ProvinceOf)[i] == p;
      var j :| 0 <= j < |ks| && ks[j] == p;
      assert vs[j] == avg[p];
    }
    forall v | v in vs ensures exists p :: p in avg && avg[p] == v {
      var j :| 0 <= j < |vs| && vs[j] == v;
      assert ks[j] in avg && avg[ks[j]] == v;
    }
    KeysCount(rows, avg.Keys);
  }

  /** The distinct provinces of the samples are exactly the keys of the means. */
  lemma KeysCount(rows: seq<Sample>, ps: set<string>)
    requires ps == ProvinceMeans(rows).Keys
    ensures |Keys(rows, ProvinceOf)| == |ps|
  {
    var ks := Keys(rows, ProvinceOf);
    forall k ensures k in ks <==> k in ps {
      InMapSeq(rows, ProvinceOf, k);
      if k in MapSeq(rows, ProvinceOf) {
        var i :| 0 <= i < |rows| && MapSeq(rows, ProvinceOf)[i] == k;
        assert rows[i].province == k;
      }
    }
    DistinctCard(ks, ps);
  }



  /**
   * `values.length ? d3.extent(values) : fallback` covers every province
   * mean, and the fallback is used exactly when there is no mean at all.
   */
  lemma DomainCoversMeans(rows: seq<Sample>, fallback: (real, real), p: string)
    ensures AvgValues(rows) == [] <==> rows == []
    ensures rows == [] ==> Scales.ExtentOr(AvgValues(rows), fallback) == fallback
    ensures p in ProvinceMeans(rows) ==>
              var d := Scales.ExtentOr(AvgValues(rows), fallback);
              d.0 <= ProvinceMeans(rows)[p] <= d.1
  {
    AvgValuesAreMeans(rows);
    if rows != [] {
      assert rows[0].province in ProvinceMeans(rows);
    }
  }
}
