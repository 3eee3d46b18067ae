/**
 * The data behind the non-summer scatter-plot matrix: every loaded row is
 * tagged in place with its season (the heatmap's day-precise rule, whose
 * body this chart repeats), summer rows are dropped, and each kept row is
 * given its year-month and the mean PM10 of its region in that month.
 */
module NonSummerScatterPlot {
  import opened Js
  import opened Aggregate
  import opened Seasons
  import Heatmap = SeoulSeasonHeatmap

  /**
   * A row object. `season`, `yearMonth` and `pm10Month` are the
   * properties the loader adds later: None while a property is not set.
   * In `pm10Month`, Some(None) is the value null.
   */
  datatype Row = Row(region: Option<string>, date: JsDate, pm10: Num,
                     season: Option<Season>, yearMonth: Option<string>,
                     pm10Month: Option<Option<real>>)

  /** `d.계절 = getSeason(d.일자)`. */
  function Tag(r: Row): Row {
    r.(season := Some(Heatmap.GetSeason(r.date)))
  }

  /** `raw.forEach(d => { d.계절 = getSeason(d.일자); })`. */
  method TagSeasons(rows: array<Row>)
    modifies rows
    ensures forall i :: 0 <= i < rows.Length ==> rows[i] == Tag(old(rows[i]))
  {
    for i := 0 to rows.Length
      invariant forall j :: 0 <= j < i ==> rows[j] == Tag(old(rows[j]))
      invariant forall j :: i <= j < rows.Length ==> rows[j] == old(rows[j])
    {
      rows[i] := Tag(rows[i]);
    }
  }

  /** `["봄", "가을", "겨울"].includes(d.계절)`. */
  predicate NotSummer(r: Row) {
    r.season == Some(Spring) || r.season == Some(Autumn) || r.season == Some(Winter)
  }

  function Kept(rows: seq<Row>): seq<Row> {
    Filter(rows, NotSummer)
  }

  // ---------------------------------------------------------------------
  // d3.timeFormat("%Y-%m")

  /** `%Y`: getFullYear() % 10000 (truncating), zero-padded to four digits. */
  function YearText(y: int): string {
    if y >= 0 then PadStart(Decimal(y % 10000), 4)
    else "-" + PadStart(Decimal((-y) % 10000), 4)
  }

  /** `%m`: the month, zero-padded to two digits. */
  function MonthText(m: nat): string {
    PadStart(Decimal(m), 2)
  }

  /**
   * The year-month text of a date. getFullYear() of an invalid date is
   * NaN, which pads to "0NaN"; its month is "NaN".
   */
  function YearMonth(date: JsDate): string
    requires ValidDate(date)
  {
    match date
    case InvalidDate => "0NaN-NaN"
    case Date(y, m, _) => YearText(y) + "-" + MonthText(m)
  }

  /**
   * For years 0–9999 the text identifies the year and the month, and no
   * valid date shares the invalid date's text: grouping on it groups by
   * calendar month.
   */
  lemma YearMonthIdentifies(a: JsDate, b: JsDate)
    requires ValidDate(a) && ValidDate(b)
    requires a.Date? ==> 0 <= a.year < 10000
    requires b.Date? ==> 0 <= b.year < 10000
    ensures YearMonth(a) == YearMonth(b) <==>
              (a.InvalidDate? && b.InvalidDate?) || (a.Date? && b.Date? && a.year == b.year && a.month == b.month)
  {
    if a.Date? {
      YearMonthDigits(a);
    }
    if b.Date? {
      YearMonthDigits(b);
    }
    if a.Date? && b.Date? && YearMonth(a) == YearMonth(b) {
      var s, t := YearMonth(a), YearMonth(b);
      assert s[..4] == YearText(a.year) && t[..4] == YearText(b.year);
      assert s[5..] == MonthText(a.month) && t[5..] == MonthText(b.month);
    }
    if a.InvalidDate? && b.Date? {
      assert YearMonth(a)[1] == 'N';
    }
    if a.Date? && b.InvalidDate? {
      assert YearMonth(b)[1] == 'N';
    }
  }

  /** The text of a year 0–9999 is its four digits, "-", then the month's two digits. */
  lemma YearMonthDigits(a: JsDate)
    requires ValidDate(a) && a.Date? && 0 <= a.year < 10000
    ensures var s := YearMonth(a);
      && |s| == 7 && s[4] == '-' && s[..4] == YearText(a.year) && s[5..] == MonthText(a.month)
      && AllDigits(s[..4]) && DigitsValue(s[..4]) == a.year
      && AllDigits(s[5..]) && DigitsValue(s[5..]) == a.month
  {
    var yt, mt := YearText(a.year), MonthText(a.month);
    YearTextDigits(a.year);
    MonthTextDigits(a.month);
    assert YearMonth(a) == yt + "-" + mt;
    JoinedParts(yt, mt);
  }

  lemma YearTextDigits(y: int)
    requires 0 <= y < 10000
    ensures |YearText(y)| == 4 && AllDigits(YearText(y)) && DigitsValue(YearText(y)) == y
  {
    assert Pow10(4) == 10000;
    assert y % 10000 == y;
    PaddedValue(y, 4);
  }

  lemma MonthTextDigits(m: nat)
    requires m < 100
    ensures |MonthText(m)| == 2 && AllDigits(MonthText(m)) && DigitsValue(MonthText(m)) == m
  {
    assert Pow10(2) == 100;
    PaddedValue(m, 2);
  }

  lemma JoinedParts(yt: string, mt: string)
    requires |yt| == 4 && |mt| == 2
    ensures var s := yt + "-" + mt;
      |s| == 7 && s[4] == '-' && s[..4] == yt && s[5..] == mt
  {
  }

  // ---------------------------------------------------------------------
  // Month means per region

  /** The key of the nested rollup: region, then year-month. */
  function GroupKey(r: Row): (Option<string>, string)
    requires ValidDate(r.date)
  {
    (r.region, YearMonth(r.date))
  }

  predicate Dated(rows: seq<Row>) {
    forall i :: 0 <= i < |rows| ==> ValidDate(rows[i].date)
  }

  function Pm10Of(r: Row): Num { r.pm10 }

  function KeyOf(r: Row): (Option<string>, string) {
    if ValidDate(r.date) then GroupKey(r) else (r.region, "")
  }

  /** `grouped`: (region, year-month) to the d3.mean of PM10 over the kept rows. */
  function Grouped(kept: seq<Row>): map<(Option<string>, string), Option<real>> {
    GroupMean(kept, KeyOf, Pm10Of)
  }

  /** `d.년월 = …; d.PM10_month = grouped.get(d.지역)?.get(d.년월) ?? null`. */
  function Attach(r: Row, g: map<(Option<string>, string), Option<real>>): Row {
    var k := KeyOf(r);
    r.(yearMonth := Some(k.1), pm10Month := Some(if k in g then g[k] else None))
  }

  method AttachMonthMeans(rows: array<Row>, g: map<(Option<string>, string), Option<real>>)
    modifies rows
    ensures forall i :: 0 <= i < rows.Length ==> rows[i] == Attach(old(rows[i]), g)
  {
    for i := 0 to rows.Length
      invariant forall j :: 0 <= j < i ==> rows[j] == Attach(old(rows[j]), g)
      invariant forall j :: i <= j < rows.Length ==> rows[j] == old(rows[j])
    {
      rows[i] := Attach(rows[i], g);
    }
  }

  /** The rows the chart is given: tagged, non-summer, with their month means. */
  function Prepared(raw: seq<Row>): (p: seq<Row>)
    ensures |p| == |Kept(MapSeq(raw, Tag))|
  {
    var kept := Kept(MapSeq(raw, Tag));
    var g := Grouped(kept);
    seq(|kept|, i requires 0 <= i < |kept| => Attach(kept[i], g))
  }

  /** The loader's continuation: tag `raw` in place, filter it, attach the month means. */
  method Prepare(raw: array<Row>) returns (filtered: array<Row>)
    modifies raw
    ensures raw[..] == MapSeq(old(raw[..]), Tag)
    ensures fresh(filtered) && filtered[..] == Prepared(old(raw[..]))
  {
    TagSeasons(raw);
    assert raw[..] == MapSeq(old(raw[..]), Tag);
    var kept := Kept(raw[..]);
    var g := Grouped(kept);
    filtered := new Row[|kept|](i requires 0 <= i < |kept| => kept[i]);
    AttachMonthMeans(filtered, g);
  }

  // ---------------------------------------------------------------------
  // Properties

  /**
   * A tagged row is kept exactly when its date is not in summer; its PM10
   * plays no part, so rows with a NaN PM10 are kept.
   */
  lemma KeptRows(raw: seq<Row>, r: Row)
    ensures r in Kept(MapSeq(raw, Tag)) <==>
              exists x :: x in raw && Tag(x) == r && Heatmap.GetSeason(x.date) != Summer
  {
    InMapSeq(raw, Tag, r);
  }

  /**
   * Every prepared row is a non-summer row carrying its own year-month and
   * the mean PM10 of the kept rows of its region and year-month; that mean
   * is null exactly when none of those rows has a numeric PM10.
   */
  lemma PreparedRow(raw: seq<Row>, i: nat)
    requires Dated(raw)
    requires i < |Prepared(raw)|
    ensures var kept := Kept(MapSeq(raw, Tag));
      var p := Prepared(raw)[i];
      var group := Where(kept, KeyOf, KeyOf(p));
      && p.season != Some(Summer) && p.season.Some?
      && p.date == kept[i].date && p.region == kept[i].region && p.pm10 == kept[i].pm10
      && p.yearMonth == Some(YearMonth(p.date))
      && p.pm10Month == Some(MeanNum(MapSeq(group, Pm10Of)))
      && (p.pm10Month == Some(None) <==> forall j :: 0 <= j < |group| ==> group[j].pm10.NaN?)
  {
    var kept := Kept(MapSeq(raw, Tag));
    var g := Grouped(kept);
    var r := kept[i];
    PreparedAt(raw, i);
    AttachFields(r, g);
    KeptDated(raw, r);
    var k := KeyOf(r);
    assert k == (r.region, YearMonth(r.date));
    GroupedMean(kept, r);
  }

  lemma PreparedAt(raw: seq<Row>, i: nat)
    requires i < |Prepared(raw)|
    ensures var kept := Kept(MapSeq(raw, Tag));
      i < |kept| && Prepared(raw)[i] == Attach(kept[i], Grouped(kept))
  {
  }

  /** Attaching the month mean changes only the two added properties. */
  lemma AttachFields(r: Row, g: map<(Option<string>, string), Option<real>>)
    ensures var p := Attach(r, g);
      && p.date == r.date && p.region == r.region && p.pm10 == r.pm10 && p.season == r.season
      && p.yearMonth == Some(KeyOf(r).1) && KeyOf(p) == KeyOf(r)
      && p.pm10Month == Some(if KeyOf(r) in g then g[KeyOf(r)] else None)
  {
  }

  /** A kept row of dated rows is dated, and its season is one of the three. */
  lemma KeptDated(raw: seq<Row>, r: Row)
    requires Dated(raw)
    requires r in Kept(MapSeq(raw, Tag))
    ensures ValidDate(r.date) && NotSummer(r)
  {
    var tagged := MapSeq(raw, Tag);
    var j :| 0 <= j < |tagged| && tagged[j] == r;
    assert r.date == raw[j].date;
  }

  /** The month mean of a kept row's group, and when it is null. */
  lemma GroupedMean(kept: seq<Row>, r: Row)
    requires r in kept
    ensures var k := KeyOf(r);
      var group := Where(kept, KeyOf, k);
      && k in Grouped(kept)
      && Grouped(kept)[k] == MeanNum(MapSeq(group, Pm10Of))
      && (Grouped(kept)[k] == None <==> forall j :: 0 <= j < |group| ==> group[j].pm10.NaN?)
  {
    var k := KeyOf(r);
    InMapSeq(kept, KeyOf, k);
    var group := Where(kept, KeyOf, k);
    var vs := MapSeq(group, Pm10Of);
    NumbersEmpty(vs);
    assert (forall j :: 0 <= j < |group| ==> group[j].pm10.NaN?) <==> (forall j :: 0 <= j < |vs| ==> vs[j].NaN?);
  }

  // ---------------------------------------------------------------------
  // Scatter cells

  /** The two plotted variables, `PM10` and `PM10_month`. */
  datatype Var = Pm10Var | Pm10MonthVar

  /** `isNaN(d[key])`: null coerces to 0, so only an unset `PM10_month` is NaN. */
  predicate IsNaNField(r: Row, v: Var) {
    match v
    case Pm10Var => r.pm10.NaN?
    case Pm10MonthVar => r.pm10Month.None?
  }

  /** The rows drawn in cell (x, y): `data.filter(d => !isNaN(d[x]) && !isNaN(d[y]))`. */
  function CellRows(rows: seq<Row>, x: Var, y: Var): seq<Row> {
    Filter(rows, (r: Row) => Drawn(r, x, y))
  }

  predicate Drawn(r: Row, x: Var, y: Var) {
    !IsNaNField(r, x) && !IsNaNField(r, y)
  }

  /**
   * A row with a NaN PM10 is left out of exactly the cells that plot
   * PM10; the month-mean cell keeps every row (a null mean is drawn at 0).
   */
  lemma CellRowsPrepared(raw: seq<Row>, x: Var, y: Var, r: Row)
    requires r in Prepared(raw)
    ensures r in CellRows(Prepared(raw), x, y) <==> ((x == Pm10Var || y == Pm10Var) ==> r.pm10.Real?)
  {
    PreparedHasMonth(raw, r);
    assert Drawn(r, x, y) <==> ((x == Pm10Var || y == Pm10Var) ==> r.pm10.Real?);
  }

  /** Every prepared row has its `PM10_month` set, if only to null. */
  lemma PreparedHasMonth(raw: seq<Row>, r: Row)
    requires r in Prepared(raw)
    ensures r.pm10Month.Some?
  {
    var p := Prepared(raw);
    var i :| 0 <= i < |p| && p[i] == r;
    var kept := Kept(MapSeq(raw, Tag));
    PreparedAt(raw, i);
    AttachFields(kept[i], Grouped(kept));
  }
}
