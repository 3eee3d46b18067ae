/**
 * The power-plant bubble map: the 2021 rows, the strict resolution of
 * `지역` to "province sigungu", the per-region presence flag, and the
 * features that get a bubble.
 */
module KoreaMapPower {
  import opened Js
  import opened Aggregate
  import opened ProvinceTables
  import Provinces

  /** A row of the power-plant file: its `지역` text and its other cells. */
  datatype Row = Row(region: string, cells: CsvRow)

  /**
   * `const [shortProvince, sigungu] = d["지역"].trim().split(" ")`, the
   * strict lookup `shortToLongProvince[shortProvince]` (undefined, here
   * "", for an unknown abbreviation) and `province && sigungu ?
   * \`${province} ${sigungu}\` : null`.
   */
  function FullRegion(region: string): (r: Option<string>)
    ensures var ts := Split(Trim(region));
      r.Some? <==> ts[0] in ShortToLong && |ts| > 1 && ts[1] != ""
    ensures var ts := Split(Trim(region));
      r.Some? ==> r.value == ShortToLong[ts[0]] + " " + ts[1]
  {
    var ts := Split(Trim(region));
    var province := if ts[0] in ShortToLong then ShortToLong[ts[0]] else "";
    var sigungu := if |ts| > 1 then ts[1] else "";
    LongNamesShape();
    if province != "" && sigungu != "" then Some(province + " " + sigungu) else None
  }

  /** A row after the `map`: its full region and `+d["발전소"]`. */
  datatype PowerRow = PowerRow(fullRegion: string, plant: Num)

  /** `d["연"] === "2021"`, the `map` and the filter `d?.fullRegion`. */
  function Prepare(d: Row): (p: Option<PowerRow>)
    ensures p.Some? <==> Field(d.cells, "연") == Some("2021") && FullRegion(d.region).Some?
    ensures p.Some? ==> p.value == PowerRow(FullRegion(d.region).value, Plus(Field(d.cells, "발전소")))
  {
    if Field(d.cells, "연") != Some("2021") then None
    else
      match FullRegion(d.region)
      case None => None
      case Some(r) => Some(PowerRow(r, Plus(Field(d.cells, "발전소"))))
  }

  /** `rows`. */
  function Rows(data: seq<Row>): seq<PowerRow> {
    Collect(data, Prepare)
  }

  function RegionOf(r: PowerRow): string { r.fullRegion }

  /** `d.발전소 > 0 ? 1 : 0`: NaN compares false. */
  function Flag(r: PowerRow): int {
    if r.plant.Real? && r.plant.r > 0.0 then 1 else 0
  }

  /** d3.max of a list of numbers; the groups of a rollup are never empty. */
  function MaxOf(xs: seq<int>): int {
    if xs == [] then 0
    else if |xs| == 1 then xs[0]
    else var m := MaxOf(xs[1..]); if xs[0] >= m then xs[0] else m
  }

  /** The maximum of 0/1 flags is 1 exactly when some flag is 1, and 0 otherwise. */
  lemma {:induction false} MaxOfFlags(xs: seq<int>)
    requires xs != []
    requires forall i :: 0 <= i < |xs| ==> xs[i] == 0 || xs[i] == 1
    ensures MaxOf(xs) == 0 || MaxOf(xs) == 1
    ensures MaxOf(xs) == 1 <==> 1 in xs
  {
    if |xs| > 1 {
      MaxOfFlags(xs[1..]);
      assert xs == [xs[0]] + xs[1..];
    }
  }

  /** `presence`: each full region to the d3.max of its rows' flags. */
  function Presence(rows: seq<PowerRow>): map<string, int> {
    map k | k in MapSeq(rows, RegionOf) :: MaxOf(MapSeq(Where(rows, RegionOf, k), Flag))
  }

  /**
   * Presence is defined for exactly the regions with a row, is 0 or 1,
   * and is 1 exactly when one of the region's rows has a positive `발전소`.
   */
  lemma PresenceFlags(rows: seq<PowerRow>, region: string)
    ensures region in Presence(rows) <==> exists i :: 0 <= i < |rows| && rows[i].fullRegion == region
    ensures region in Presence(rows) ==> Presence(rows)[region] == 0 || Presence(rows)[region] == 1
    ensures region in Presence(rows) ==>
              (Presence(rows)[region] == 1 <==>
                 exists i :: 0 <= i < |rows| && rows[i].fullRegion == region && rows[i].plant.Real? && rows[i].plant.r > 0.0)
  {
    if region in MapSeq(rows, RegionOf) {
      var i :| 0 <= i < |rows| && MapSeq(rows, RegionOf)[i] == region;
      assert rows[i].fullRegion == region;
    }
    if exists i :: 0 <= i < |rows| && rows[i].fullRegion == region {
      var i :| 0 <= i < |rows| && rows[i].fullRegion == region;
      assert MapSeq(rows, RegionOf)[i] == region;
      var group := Where(rows, RegionOf, region);
      var flags := MapSeq(group, Flag);
      assert rows[i] in group;
      MaxOfFlags(flags);
      if 1 in flags {
        var j :| 0 <= j < |flags| && flags[j] == 1;
        assert group[j] in rows;
        var k :| 0 <= k < |rows| && rows[k] == group[j];
        assert rows[k].fullRegion == region && rows[k].plant.Real? && rows[k].plant.r > 0.0;
      }
      if exists k :: 0 <= k < |rows| && rows[k].fullRegion == region && rows[k].plant.Real? && rows[k].plant.r > 0.0 {
        var k :| 0 <= k < |rows| && rows[k].fullRegion == region && rows[k].plant.Real? && rows[k].plant.r > 0.0;
        assert rows[k] in group;
        var j :| 0 <= j < |group| && group[j] == rows[k];
        assert flags[j] == 1;
      }
    }
  }

  /** Every kept row's full region begins with a long province name, never with "undefined". */
  lemma RegionsStartWithProvince(data: seq<Row>, i: nat)
    requires i < |Rows(data)|
    ensures Rows(data)[i].fullRegion != "" && Rows(data)[i].fullRegion[0] != 'u'
  {
    var r := Rows(data)[i];
    assert r in Rows(data);
    var d :| d in data && Prepare(d) == Some(r);
    var ts := Split(Trim(d.region));
    LongNamesShape();
    assert r.fullRegion == ShortToLong[ts[0]] + " " + ts[1];
    assert r.fullRegion[0] == ShortToLong[ts[0]][0];
  }

  // ---------------------------------------------------------------------
  // Bubbles

  /** `${codePrefixToProvince[prefix]} ${name}`: an unknown prefix prints "undefined". */
  function FeatureRegion(f: Provinces.Feature): string {
    var prefix := Provinces.CodePrefix(f);
    (if prefix in CodePrefixToProvince then CodePrefixToProvince[prefix] else "undefined") + " " + f.name
  }

  /** `presence.get(full) === 1`. */
  predicate HasBubble(presence: map<string, int>, f: Provinces.Feature) {
    FeatureRegion(f) in presence && presence[FeatureRegion(f)] == 1
  }

  /** The features that get a circle, in feature order. */
  function Bubbles(data: seq<Row>, features: seq<Provinces.Feature>): seq<Provinces.Feature> {
    var presence := Presence(Rows(data));
    Filter(features, (f: Provinces.Feature) => HasBubble(presence, f))
  }

  /**
   * A feature gets a bubble exactly when its code prefix names a province
   * and some 2021 row of "province name" has a positive `발전소`; a
   * feature of an unknown prefix never gets one.
   */
  lemma BubblesMarkPlants(data: seq<Row>, features: seq<Provinces.Feature>, f: Provinces.Feature)
    ensures f in Bubbles(data, features) <==>
              f in features && Provinces.CodePrefix(f) in CodePrefixToProvince
              && exists i :: 0 <= i < |Rows(data)|
                   && Rows(data)[i].fullRegion == CodePrefixToProvince[Provinces.CodePrefix(f)] + " " + f.name
                   && Rows(data)[i].plant.Real? && Rows(data)[i].plant.r > 0.0
  {
    var rows := Rows(data);
    PresenceFlags(rows, FeatureRegion(f));
    if Provinces.CodePrefix(f) !in CodePrefixToProvince && FeatureRegion(f) in Presence(rows) {
      var i :| 0 <= i < |rows| && rows[i].fullRegion == FeatureRegion(f);
      RegionsStartWithProvince(data, i);
      assert false;
    }
  }
}
