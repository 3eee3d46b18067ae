/**
 * The data behind the year → season → month hierarchical bar chart: row
 * normalisation, the sum tree that `buildHierarchy` builds with nested
 * loops, the running offsets at which child bars are drawn, the largest
 * child count that sets the chart height, and the node values that
 * d3's `hierarchy().sum` derives from the tree.
 */
module YearHierarchicalBar {
  import opened Js
  import opened Aggregate
  import opened Seasons

  // ---------------------------------------------------------------------
  // Normalisation

  /** A normalised row: `연도`, `월` and `PM10`, all numeric. */
  datatype Rec = Rec(year: real, month: real, pm10: real)

  /**
   * The mapping and filter of the `data` prop: each field is the first
   * truthy of its `||` chain, and a row is kept when year and month are
   * truthy and PM10 is a number.
   */
  function Normalize(d: CsvRow): (r: Option<Rec>)
    ensures var year := Or(Or(Plus(Field(d, "연도")), Plus(Field(d, "연도"))), DatePart(Field(d, "일시"), 0, 4));
            var month := Or(Or(Plus(Field(d, "월")), Plus(Field(d, "월"))), DatePart(Field(d, "일시"), 5, 7));
            var pm10 := Or(Or(Plus(Field(d, "PM10")), Plus(Field(d, "PM10"))), Plus(Field(d, "pm10")));
            && (r.Some? <==> Truthy(year) && Truthy(month) && pm10.Real?)
            && (r.Some? ==> r.value == Rec(year.r, month.r, pm10.r))
  {
    var year := Or(Or(Plus(Field(d, "연도")), Plus(Field(d, "연도"))), DatePart(Field(d, "일시"), 0, 4));
    var month := Or(Or(Plus(Field(d, "월")), Plus(Field(d, "월"))), DatePart(Field(d, "일시"), 5, 7));
    var pm10 := Or(Or(Plus(Field(d, "PM10")), Plus(Field(d, "PM10"))), Plus(Field(d, "pm10")));
    if Truthy(year) && Truthy(month) && pm10.Real? then Some(Rec(year.r, month.r, pm10.r)) else None
  }

  /**
   * A PM10 of 0 is falsy, so the chain falls through to `+d.pm10`; with
   * no `pm10` column that is NaN and the row is dropped.
   */
  lemma ZeroPm10Dropped(d: CsvRow)
    requires Plus(Field(d, "PM10")) == Real(0.0) && "pm10" !in d
    ensures Normalize(d) == None
  {
  }

  /** The fallback CSV loader's row: it throws when `일시` is missing. */
  datatype Loaded = Throws | LoadedRow(year: Num, month: Num, pm10: Num)

  function FallbackRow(d: CsvRow): (l: Loaded)
    ensures l.Throws? <==> "일시" !in d
  {
    if "일시" !in d then Throws
    else LoadedRow(ToNumber(Slice(d["일시"], 0, 4)), ToNumber(Slice(d["일시"], 5, 7)), Plus(Field(d, "PM10")))
  }

  /** The fallback filter `r.연도 && r.월 && !isNaN(r.PM10)`. */
  function FallbackKeep(l: Loaded): (r: Option<Rec>)
    requires l.LoadedRow?
    ensures r.Some? <==> Truthy(l.year) && Truthy(l.month) && l.pm10.Real?
  {
    if Truthy(l.year) && Truthy(l.month) && l.pm10.Real? then Some(Rec(l.year.r, l.month.r, l.pm10.r)) else None
  }

  /**
   * On a CSV row with only `일시` and `PM10`, the two loading paths agree
   * except on a PM10 of 0, which the fallback keeps and the prop path drops.
   */
  lemma FallbackAgreesExceptZero(d: CsvRow)
    requires "일시" in d && "연도" !in d && "월" !in d && "pm10" !in d
    ensures Plus(Field(d, "PM10")) != Real(0.0) ==> FallbackKeep(FallbackRow(d)) == Normalize(d)
    ensures Plus(Field(d, "PM10")) == Real(0.0) ==>
              && Normalize(d) == None
              && (FallbackKeep(FallbackRow(d)).Some? <==> Truthy(FallbackRow(d).year) && Truthy(FallbackRow(d).month))
  {
    var l := FallbackRow(d);
    var date := Field(d, "일시");
    assert Plus(Field(d, "연도")) == NaN && Plus(Field(d, "월")) == NaN && Plus(Field(d, "pm10")) == NaN;
    assert Or(Or(Plus(Field(d, "연도")), Plus(Field(d, "연도"))), DatePart(date, 0, 4)) == l.year;
    assert Or(Or(Plus(Field(d, "월")), Plus(Field(d, "월"))), DatePart(date, 5, 7)) == l.month;
    var pm10 := Or(Or(Plus(Field(d, "PM10")), Plus(Field(d, "PM10"))), Plus(Field(d, "pm10")));
    assert Plus(Field(d, "PM10")) != Real(0.0) ==> pm10 == l.pm10;
  }

  // ---------------------------------------------------------------------
  // The sum tree

  function YearKey(r: Rec): real { r.year }
  /** `seasonMap[d.월]`: undefined (None) for a month that is not an integer 1–12. */
  function SeasonKey(r: Rec): Option<Season> { MonthSeason(r.month) }
  function MonthKey(r: Rec): real { r.month }
  function Pm10Of(r: Rec): real { r.pm10 }

  datatype MonthNode = MonthNode(month: real, value: real)
  datatype SeasonNode = SeasonNode(season: Option<Season>, children: seq<MonthNode>, value: real)
  datatype YearNode = YearNode(year: real, children: seq<SeasonNode>, value: real)
  datatype Tree = Tree(children: seq<YearNode>, value: real)

  function MonthValue(n: MonthNode): real { n.value }
  function SeasonValue(n: SeasonNode): real { n.value }
  function YearValue(n: YearNode): real { n.value }

  /** The leaves for the months `ms` of one season's rows: the d3.sum of PM10 per month. */
  function MonthList(sr: seq<Rec>, ms: seq<real>): (kids: seq<MonthNode>)
    ensures |kids| == |ms|
  {
    if ms == [] then []
    else [MonthNode(ms[0], Sum(MapSeq(Where(sr, MonthKey, ms[0]), Pm10Of)))] + MonthList(sr, ms[1..])
  }

  function MonthNodes(sr: seq<Rec>): seq<MonthNode> {
    MonthList(sr, Keys(sr, MonthKey))
  }

  function SeasonNodeOf(s: Option<Season>, sr: seq<Rec>): SeasonNode {
    var kids := MonthNodes(sr);
    SeasonNode(s, kids, Sum(MapSeq(kids, MonthValue)))
  }

  /** The season nodes for the seasons `ss` of one year's rows. */
  function SeasonList(yr: seq<Rec>, ss: seq<Option<Season>>): (kids: seq<SeasonNode>)
    ensures |kids| == |ss|
  {
    if ss == [] then []
    else [SeasonNodeOf(ss[0], Where(yr, SeasonKey, ss[0]))] + SeasonList(yr, ss[1..])
  }

  function SeasonNodes(yr: seq<Rec>): seq<SeasonNode> {
    SeasonList(yr, Keys(yr, SeasonKey))
  }

  function YearNodeOf(y: real, yr: seq<Rec>): YearNode {
    var kids := SeasonNodes(yr);
    YearNode(y, kids, Sum(MapSeq(kids, SeasonValue)))
  }

  /** The year nodes for the years `ys` of the rows. */
  function YearList(rows: seq<Rec>, ys: seq<real>): (kids: seq<YearNode>)
    ensures |kids| == |ys|
  {
    if ys == [] then []
    else [YearNodeOf(ys[0], Where(rows, YearKey, ys[0]))] + YearList(rows, ys[1..])
  }

  function YearNodes(rows: seq<Rec>): seq<YearNode> {
    YearList(rows, Keys(rows, YearKey))
  }

  /** The tree `buildHierarchy` returns. */
  function Hierarchy(rows: seq<Rec>): Tree {
    var kids := YearNodes(rows);
    Tree(kids, Sum(MapSeq(kids, YearValue)))
  }

  lemma {:induction false} MonthListAt(sr: seq<Rec>, ms: seq<real>, k: nat)
    requires k < |ms|
    ensures MonthList(sr, ms)[k] == MonthNode(ms[k], Sum(MapSeq(Where(sr, MonthKey, ms[k]), Pm10Of)))
  {
    if k > 0 {
      MonthListAt(sr, ms[1..], k - 1);
    }
  }

  lemma {:induction false} SeasonListAt(yr: seq<Rec>, ss: seq<Option<Season>>, j: nat)
    requires j < |ss|
    ensures SeasonList(yr, ss)[j] == SeasonNodeOf(ss[j], Where(yr, SeasonKey, ss[j]))
  {
    if j > 0 {
      SeasonListAt(yr, ss[1..], j - 1);
    }
  }

  lemma {:induction false} YearListAt(rows: seq<Rec>, ys: seq<real>, i: nat)
    requires i < |ys|
    ensures YearList(rows, ys)[i] == YearNodeOf(ys[i], Where(rows, YearKey, ys[i]))
  {
    if i > 0 {
      YearListAt(rows, ys[1..], i - 1);
    }
  }

  /** One more built node extends the prefix of the spec list by one. */
  lemma AppendOne<T>(a: seq<T>, x: T, b: seq<T>)
    ensures (a + [x]) + b == a + ([x] + b)
  {
  }

  lemma MonthListStep(sr: seq<Rec>, ms: seq<real>, k: nat, children: seq<MonthNode>, node: MonthNode)
    requires k < |ms|
    requires children + MonthList(sr, ms[k..]) == MonthList(sr, ms)
    requires node == MonthNode(ms[k], Sum(MapSeq(Where(sr, MonthKey, ms[k]), Pm10Of)))
    ensures (children + [node]) + MonthList(sr, ms[k + 1..]) == MonthList(sr, ms)
  {
    assert ms[k..][0] == ms[k] && ms[k..][1..] == ms[k + 1..];
    AppendOne(children, node, MonthList(sr, ms[k + 1..]));
  }

  lemma SeasonListStep(yr: seq<Rec>, ss: seq<Option<Season>>, j: nat, children: seq<SeasonNode>, node: SeasonNode)
    requires j < |ss|
    requires children + SeasonList(yr, ss[j..]) == SeasonList(yr, ss)
    requires node == SeasonNodeOf(ss[j], Where(yr, SeasonKey, ss[j]))
    ensures (children + [node]) + SeasonList(yr, ss[j + 1..]) == SeasonList(yr, ss)
  {
    SeasonListCons(yr, ss, j);
    AppendOne(children, node, SeasonList(yr, ss[j + 1..]));
  }

  lemma SeasonListCons(yr: seq<Rec>, ss: seq<Option<Season>>, j: nat)
    requires j < |ss|
    ensures SeasonList(yr, ss[j..]) == [SeasonNodeOf(ss[j], Where(yr, SeasonKey, ss[j]))] + SeasonList(yr, ss[j + 1..])
  {
    assert ss[j..][0] == ss[j] && ss[j..][1..] == ss[j + 1..];
  }

  lemma YearListStep(rows: seq<Rec>, ys: seq<real>, i: nat, children: seq<YearNode>, node: YearNode)
    requires i < |ys|
    requires children + YearList(rows, ys[i..]) == YearList(rows, ys)
    requires node == YearNodeOf(ys[i], Where(rows, YearKey, ys[i]))
    ensures (children + [node]) + YearList(rows, ys[i + 1..]) == YearList(rows, ys)
  {
    YearListCons(rows, ys, i);
    AppendOne(children, node, YearList(rows, ys[i + 1..]));
  }

  lemma YearListCons(rows: seq<Rec>, ys: seq<real>, i: nat)
    requires i < |ys|
    ensures YearList(rows, ys[i..]) == [YearNodeOf(ys[i], Where(rows, YearKey, ys[i]))] + YearList(rows, ys[i + 1..])
  {
    assert ys[i..][0] == ys[i] && ys[i..][1..] == ys[i + 1..];
  }

  /** The innermost loop: one leaf per distinct month of the season's rows. */
  method BuildSeason(s: Option<Season>, seasonRows: seq<Rec>) returns (node: SeasonNode)
    ensures node == SeasonNodeOf(s, seasonRows)
  {
    var months := Keys(seasonRows, MonthKey);
    var children: seq<MonthNode> := [];
    var k := 0;
    while k < |months|
      invariant 0 <= k <= |months|
      invariant children + MonthList(seasonRows, months[k..]) == MonthList(seasonRows, months)
    {
      var leaf := MonthNode(months[k], Sum(MapSeq(Where(seasonRows, MonthKey, months[k]), Pm10Of)));
      MonthListStep(seasonRows, months, k, children, leaf);
      children := children + [leaf];
      k := k + 1;
    }
    assert children == MonthNodes(seasonRows);
    node := SeasonNode(s, children, Sum(MapSeq(children, MonthValue)));
  }

  /** The middle loop: one season node per distinct season of the year's rows. */
  method BuildYear(y: real, yearRows: seq<Rec>) returns (node: YearNode)
    ensures node == YearNodeOf(y, yearRows)
  {
    var seasons := Keys(yearRows, SeasonKey);
    var children: seq<SeasonNode> := [];
    var j := 0;
    while j < |seasons|
      invariant 0 <= j <= |seasons|
      invariant children + SeasonList(yearRows, seasons[j..]) == SeasonList(yearRows, seasons)
    {
      var seasonNode := BuildSeason(seasons[j], Where(yearRows, SeasonKey, seasons[j]));
      SeasonListStep(yearRows, seasons, j, children, seasonNode);
      children := children + [seasonNode];
      j := j + 1;
    }
    assert children == SeasonNodes(yearRows);
    node := YearNode(y, children, Sum(MapSeq(children, SeasonValue)));
  }

  /** `buildHierarchy(rows)`: the outer loop over the distinct years. */
  method BuildHierarchy(rows: seq<Rec>) returns (root: Tree)
    ensures root == Hierarchy(rows)
  {
    var years := Keys(rows, YearKey);
    var children: seq<YearNode> := [];
    var i := 0;
    while i < |years|
      invariant 0 <= i <= |years|
      invariant children + YearList(rows, years[i..]) == YearList(rows, years)
    {
      var yearNode := BuildYear(years[i], Where(rows, YearKey, years[i]));
      YearListStep(rows, years, i, children, yearNode);
      children := children + [yearNode];
      i := i + 1;
    }
    assert children == YearNodes(rows);
    root := Tree(children, Sum(MapSeq(children, YearValue)));
  }

  // ---------------------------------------------------------------------
  // What the values mean

  /** The rows of a month within one season's rows are all that month's rows: a month fixes its season. */
  lemma MonthRowsInSeason(yr: seq<Rec>, s: Option<Season>, m: real)
    requires m in MapSeq(Where(yr, SeasonKey, s), MonthKey)
    ensures Where(Where(yr, SeasonKey, s), MonthKey, m) == Where(yr, MonthKey, m)
  {
    var sr := Where(yr, SeasonKey, s);
    var u :| 0 <= u < |sr| && MapSeq(sr, MonthKey)[u] == m;
    assert sr[u] in sr;
    forall t | 0 <= t < |yr| && MonthKey(yr[t]) == m ensures SeasonKey(yr[t]) == s {
    }
    WhereDetermined(yr, SeasonKey, s, MonthKey, m);
  }

  /** A leaf of a year node holds the sum of PM10 over that year's rows of its month. */
  lemma LeafValueInYear(y: real, yr: seq<Rec>, j: nat, k: nat)
    requires j < |YearNodeOf(y, yr).children|
    requires k < |YearNodeOf(y, yr).children[j].children|
    ensures var leaf := YearNodeOf(y, yr).children[j].children[k];
      leaf.value == Sum(MapSeq(Where(yr, MonthKey, leaf.month), Pm10Of))
  {
    var ss := Keys(yr, SeasonKey);
    var sr := Where(yr, SeasonKey, ss[j]);
    var ms := Keys(sr, MonthKey);
    SeasonListAt(yr, ss, j);
    MonthListAt(sr, ms, k);
    assert ms[k] in MapSeq(sr, MonthKey);
    MonthRowsInSeason(yr, ss[j], ms[k]);
  }

  /**
   * A leaf holds the sum of PM10 over the rows of its year and month (its
   * season is fixed by its month).
   */
  lemma LeafValue(rows: seq<Rec>, i: nat, j: nat, k: nat)
    requires i < |Hierarchy(rows).children|
    requires j < |Hierarchy(rows).children[i].children|
    requires k < |Hierarchy(rows).children[i].children[j].children|
    ensures var y := Hierarchy(rows).children[i];
      var leaf := y.children[j].children[k];
      leaf.value == Sum(MapSeq(Where(Where(rows, YearKey, y.year), MonthKey, leaf.month), Pm10Of))
  {
    var ys := Keys(rows, YearKey);
    YearListAt(rows, ys, i);
    LeafValueInYear(ys[i], Where(rows, YearKey, ys[i]), j, k);
  }

  /** A season node holds the sum of PM10 over the rows it groups. */
  lemma SeasonValueIsSum(s: Option<Season>, sr: seq<Rec>)
    ensures SeasonNodeOf(s, sr).value == Sum(MapSeq(sr, Pm10Of))
  {
    var ms := Keys(sr, MonthKey);
    var kids := MonthNodes(sr);
    forall k | 0 <= k < |ms|
      ensures MapSeq(kids, MonthValue)[k] == GroupSums(sr, MonthKey, Pm10Of, ms)[k]
    {
      MonthListAt(sr, ms, k);
    }
    assert MapSeq(kids, MonthValue) == GroupSums(sr, MonthKey, Pm10Of, ms);
    GroupSumsTotal(sr, MonthKey, Pm10Of);
  }

  /** A year node holds the sum of PM10 over the rows of that year. */
  lemma YearValueIsSum(y: real, yr: seq<Rec>)
    ensures YearNodeOf(y, yr).value == Sum(MapSeq(yr, Pm10Of))
  {
    var ss := Keys(yr, SeasonKey);
    var kids := SeasonNodes(yr);
    forall j | 0 <= j < |ss|
      ensures MapSeq(kids, SeasonValue)[j] == GroupSums(yr, SeasonKey, Pm10Of, ss)[j]
    {
      SeasonListAt(yr, ss, j);
      SeasonValueIsSum(ss[j], Where(yr, SeasonKey, ss[j]));
    }
    assert MapSeq(kids, SeasonValue) == GroupSums(yr, SeasonKey, Pm10Of, ss);
    GroupSumsTotal(yr, SeasonKey, Pm10Of);
  }

  /**
   * The root holds the sum of PM10 over all rows: every row is counted in
   * exactly one leaf.
   */
  lemma RootValueIsSum(rows: seq<Rec>)
    ensures Hierarchy(rows).value == Sum(MapSeq(rows, Pm10Of))
  {
    var ys := Keys(rows, YearKey);
    var kids := YearNodes(rows);
    forall i | 0 <= i < |ys|
      ensures MapSeq(kids, YearValue)[i] == GroupSums(rows, YearKey, Pm10Of, ys)[i]
    {
      YearListAt(rows, ys, i);
      YearValueIsSum(ys[i], Where(rows, YearKey, ys[i]));
    }
    assert MapSeq(kids, YearValue) == GroupSums(rows, YearKey, Pm10Of, ys);
    GroupSumsTotal(rows, YearKey, Pm10Of);
  }

  function NodeYear(n: YearNode): real { n.year }
  function NodeSeason(n: SeasonNode): Option<Season> { n.season }
  function NodeMonth(n: MonthNode): real { n.month }

  lemma {:induction false} YearListYears(rows: seq<Rec>, ys: seq<real>)
    ensures MapSeq(YearList(rows, ys), NodeYear) == ys
  {
    if ys != [] {
      YearListYears(rows, ys[1..]);
      var n := YearNodeOf(ys[0], Where(rows, YearKey, ys[0]));
      assert YearList(rows, ys) == [n] + YearList(rows, ys[1..]);
      MapSeqCons(n, YearList(rows, ys[1..]), NodeYear);
      assert ys == [ys[0]] + ys[1..];
    }
  }

  lemma {:induction false} SeasonListSeasons(yr: seq<Rec>, ss: seq<Option<Season>>)
    ensures MapSeq(SeasonList(yr, ss), NodeSeason) == ss
  {
    if ss != [] {
      SeasonListSeasons(yr, ss[1..]);
      var n := SeasonNodeOf(ss[0], Where(yr, SeasonKey, ss[0]));
      assert SeasonList(yr, ss) == [n] + SeasonList(yr, ss[1..]);
      MapSeqCons(n, SeasonList(yr, ss[1..]), NodeSeason);
      assert ss == [ss[0]] + ss[1..];
    }
  }

  lemma {:induction false} MonthListMonths(sr: seq<Rec>, ms: seq<real>)
    ensures MapSeq(MonthList(sr, ms), NodeMonth) == ms
  {
    if ms != [] {
      MonthListMonths(sr, ms[1..]);
      var n := MonthNode(ms[0], Sum(MapSeq(Where(sr, MonthKey, ms[0]), Pm10Of)));
      assert MonthList(sr, ms) == [n] + MonthList(sr, ms[1..]);
      MapSeqCons(n, MonthList(sr, ms[1..]), NodeMonth);
      assert ms == [ms[0]] + ms[1..];
    }
  }

  /** A year node has one child per distinct season of its rows, a season one per distinct month. */
  lemma YearNodeShape(y: real, yr: seq<Rec>, j: nat)
    requires j < |YearNodeOf(y, yr).children|
    ensures var n := YearNodeOf(y, yr);
      && MapSeq(n.children, NodeSeason) == Keys(yr, SeasonKey)
      && MapSeq(n.children[j].children, NodeMonth) == Keys(Where(yr, SeasonKey, n.children[j].season), MonthKey)
  {
    var ss := Keys(yr, SeasonKey);
    var sr := Where(yr, SeasonKey, ss[j]);
    SeasonListAt(yr, ss, j);
    SeasonListSeasons(yr, ss);
    MonthListMonths(sr, Keys(sr, MonthKey));
  }

  /**
   * The root has one child per distinct year, in order of first
   * appearance; a year has one child per distinct season of its rows, and
   * a season one child per distinct month of its rows.
   */
  lemma HierarchyShape(rows: seq<Rec>, i: nat, j: nat)
    requires i < |Hierarchy(rows).children|
    requires j < |Hierarchy(rows).children[i].children|
    ensures MapSeq(Hierarchy(rows).children, NodeYear) == Keys(rows, YearKey)
    ensures var y := Hierarchy(rows).children[i];
      var yr := Where(rows, YearKey, y.year);
      && MapSeq(y.children, NodeSeason) == Keys(yr, SeasonKey)
      && MapSeq(y.children[j].children, NodeMonth) == Keys(Where(yr, SeasonKey, y.children[j].season), MonthKey)
  {
    var ys := Keys(rows, YearKey);
    YearListAt(rows, ys, i);
    YearListYears(rows, ys);
    YearNodeShape(ys[i], Where(rows, YearKey, ys[i]), j);
  }

  // ---------------------------------------------------------------------
  // Bar offsets

  /**
   * `stack`/`stagger` and the `d3.sum(node.children.slice(0, i))` offsets:
   * child i starts where the values of the children before it end.
   */
  method Offsets(values: seq<real>) returns (offsets: seq<real>, total: real)
    ensures |offsets| == |values|
    ensures forall i :: 0 <= i < |values| ==> offsets[i] == Sum(values[..i])
    ensures total == Sum(values)
  {
    var v := 0.0;
    offsets := [];
    var i := 0;
    while i < |values|
      invariant 0 <= i <= |values|
      invariant |offsets| == i && v == Sum(values[..i])
      invariant forall k :: 0 <= k < i ==> offsets[k] == Sum(values[..k])
    {
      offsets := offsets + [v];
      SumConcat(values[..i], [values[i]]);
      assert values[..i + 1] == values[..i] + [values[i]];
      v := v + values[i];
      i := i + 1;
    }
    assert values[..i] == values;
    total := v;
  }

  // ---------------------------------------------------------------------
  // The height of the chart

  /**
   * `maxRows` from `root.each`: the largest number of children of any
   * node that has children (never below 1), and the height `H`.
   */
  method MaxRows(t: Tree) returns (maxRows: int, h: int)
    ensures maxRows >= 1 && maxRows >= |t.children|
    ensures forall i :: 0 <= i < |t.children| ==> maxRows >= |t.children[i].children|
    ensures forall i, j :: 0 <= i < |t.children| && 0 <= j < |t.children[i].children| ==>
              maxRows >= |t.children[i].children[j].children|
    ensures maxRows == 1 || maxRows == |t.children|
         || (exists i :: 0 <= i < |t.children| && maxRows == |t.children[i].children|)
         || (exists i, j :: 0 <= i < |t.children| && 0 <= j < |t.children[i].children| &&
               maxRows == |t.children[i].children[j].children|)
    ensures h == maxRows * 27 + 30
  {
    maxRows := 1;
    if |t.children| > maxRows {
      maxRows := |t.children|;
    }
    var i := 0;
    while i < |t.children|
      invariant 0 <= i <= |t.children|
      invariant maxRows >= 1 && maxRows >= |t.children|
      invariant forall a :: 0 <= a < i ==> maxRows >= |t.children[a].children|
      invariant forall a, b :: 0 <= a < i && 0 <= b < |t.children[a].children| ==>
                  maxRows >= |t.children[a].children[b].children|
      invariant maxRows == 1 || maxRows == |t.children|
             || (exists a :: 0 <= a < i && maxRows == |t.children[a].children|)
             || (exists a, b :: 0 <= a < i && 0 <= b < |t.children[a].children| &&
                   maxRows == |t.children[a].children[b].children|)
    {
      var y := t.children[i];
      if |y.children| > maxRows {
        maxRows := |y.children|;
      }
      var j := 0;
      while j < |y.children|
        invariant 0 <= j <= |y.children|
        invariant maxRows >= 1 && maxRows >= |t.children| && maxRows >= |y.children|
        invariant forall a :: 0 <= a < i ==> maxRows >= |t.children[a].children|
        invariant forall a, b :: 0 <= a < i && 0 <= b < |t.children[a].children| ==>
                    maxRows >= |t.children[a].children[b].children|
        invariant forall b :: 0 <= b < j ==> maxRows >= |y.children[b].children|
        invariant maxRows == 1 || maxRows == |t.children|
               || (exists a :: 0 <= a <= i && maxRows == |t.children[a].children|)
               || (exists a, b :: 0 <= a < i && 0 <= b < |t.children[a].children| &&
                     maxRows == |t.children[a].children[b].children|)
               || (exists b :: 0 <= b < j && maxRows == |y.children[b].children|)
      {
        if |y.children[j].children| > maxRows {
          maxRows := |y.children[j].children|;
        }
        j := j + 1;
      }
      i := i + 1;
    }
    h := maxRows * 27 + 30;
  }

  // ---------------------------------------------------------------------
  // d3.hierarchy(tree).sum(accessor)

  /**
   * The value `hierarchy().sum(d => d.value)` gives each node: its own
   * `value` plus the summed values of its children.
   */
  function SummedSeason(n: SeasonNode): real { n.value + Sum(MapSeq(n.children, MonthValue)) }

  function SummedYear(n: YearNode): real { n.value + Sum(MapSeq(n.children, SummedSeason)) }

  function SummedRoot(t: Tree): real { t.value + Sum(MapSeq(t.children, SummedYear)) }

  /**
   * With the leaf-only accessor `d => d.children ? 0 : d.value` an inner
   * node counts only its children.
   */
  function LeafSummedSeason(n: SeasonNode): real { Sum(MapSeq(n.children, MonthValue)) }

  function LeafSummedYear(n: YearNode): real { Sum(MapSeq(n.children, LeafSummedSeason)) }

  function LeafSummedRoot(t: Tree): real { Sum(MapSeq(t.children, LeafSummedYear)) }

  lemma {:induction false} SumScaled(xs: seq<real>, ys: seq<real>, c: real)
    requires |xs| == |ys| && forall i :: 0 <= i < |xs| ==> ys[i] == c * xs[i]
    ensures Sum(ys) == c * Sum(xs)
  {
    if xs != [] {
      SumScaled(xs[1..], ys[1..], c);
    }
  }

  /** Every inner node holds the sum of its children's values. */
  predicate SeasonSummed(n: SeasonNode) {
    n.value == Sum(MapSeq(n.children, MonthValue))
  }

  predicate YearSummed(n: YearNode) {
    && (forall j :: 0 <= j < |n.children| ==> SeasonSummed(n.children[j]))
    && n.value == Sum(MapSeq(n.children, SeasonValue))
  }

  predicate WellSummed(t: Tree) {
    && (forall i :: 0 <= i < |t.children| ==> YearSummed(t.children[i]))
    && t.value == Sum(MapSeq(t.children, YearValue))
  }

  /** The tree `buildHierarchy` returns is summed level by level. */
  lemma HierarchyWellSummed(rows: seq<Rec>)
    ensures WellSummed(Hierarchy(rows))
  {
    var t := Hierarchy(rows);
    var ys := Keys(rows, YearKey);
    forall i | 0 <= i < |t.children| ensures YearSummed(t.children[i]) {
      var yr := Where(rows, YearKey, ys[i]);
      var ss := Keys(yr, SeasonKey);
      YearListAt(rows, ys, i);
      forall j | 0 <= j < |t.children[i].children| ensures SeasonSummed(t.children[i].children[j]) {
        SeasonListAt(yr, ss, j);
      }
    }
  }

  lemma YearLevel(n: YearNode)
    requires YearSummed(n)
    ensures SummedYear(n) == 3.0 * n.value
    ensures LeafSummedYear(n) == n.value
  {
    var values := MapSeq(n.children, SeasonValue);
    SumScaled(values, MapSeq(n.children, SummedSeason), 2.0);
    SumScaled(values, MapSeq(n.children, LeafSummedSeason), 1.0);
  }

  /**
   * As written, the accessor counts every level again: on a summed tree a
   * season node gets twice its value, a year three times and the root
   * four times, so in `down` the children of the root fill three quarters
   * of its range (two thirds for a year, half for a season).
   */
  lemma SummedValuesAsWritten(t: Tree)
    requires WellSummed(t)
    ensures forall i, j :: 0 <= i < |t.children| && 0 <= j < |t.children[i].children| ==>
              SummedSeason(t.children[i].children[j]) == 2.0 * t.children[i].children[j].value
    ensures forall i :: 0 <= i < |t.children| ==> SummedYear(t.children[i]) == 3.0 * t.children[i].value
    ensures Sum(MapSeq(t.children, SummedYear)) == 3.0 * t.value
    ensures SummedRoot(t) == 4.0 * t.value
  {
    forall i | 0 <= i < |t.children| ensures SummedYear(t.children[i]) == 3.0 * t.children[i].value {
      YearLevel(t.children[i]);
    }
    SumScaled(MapSeq(t.children, YearValue), MapSeq(t.children, SummedYear), 3.0);
  }

  /** One row with PM10 10: the root is drawn with value 40 and its only child with 30. */
  lemma SummedValuesCounterexample()
    ensures var t := Hierarchy([Rec(2021.0, 3.0, 10.0)]);
      SummedRoot(t) == 40.0 && Sum(MapSeq(t.children, SummedYear)) == 30.0
  {
    var rows := [Rec(2021.0, 3.0, 10.0)];
    RootValueIsSum(rows);
    assert MapSeq(rows, Pm10Of) == [10.0];
    HierarchyWellSummed(rows);
    SummedValuesAsWritten(Hierarchy(rows));
  }

  /**
   * With the leaf-only accessor every node's summed value is its own
   * value, so the children of any node exactly fill its range.
   */
  lemma LeafSummedValues(t: Tree)
    requires WellSummed(t)
    ensures forall i, j :: 0 <= i < |t.children| && 0 <= j < |t.children[i].children| ==>
              LeafSummedSeason(t.children[i].children[j]) == t.children[i].children[j].value
    ensures forall i :: 0 <= i < |t.children| ==> LeafSummedYear(t.children[i]) == t.children[i].value
    ensures LeafSummedRoot(t) == t.value
  {
    forall i | 0 <= i < |t.children| ensures LeafSummedYear(t.children[i]) == t.children[i].value {
      YearLevel(t.children[i]);
    }
    SumScaled(MapSeq(t.children, YearValue), MapSeq(t.children, LeafSummedYear), 1.0);
  }
}
