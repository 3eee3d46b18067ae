/**
 * The dot plot of multinomial-logit coefficients: one marker trace per
 * grade, in order of first appearance, holding that grade's
 * (coefficient, feature, p) triples.
 */
module LogitDotPlot {
  import opened Js
  import opened Aggregate

  /** One row of `mnlogit_params.json`. */
  datatype Param = Param(grade: string, feature: string, coef: real, p: real)

  /** A Plotly marker trace: `x`, `y`, `text` (the p value before formatting), `name`, the marker colour. */
  datatype Trace = Trace(name: string, x: seq<real>, y: seq<string>, text: seq<real>, colour: string)

  /** The plot: the traces and the feature list the zero line spans (`y1: features.length`). */
  datatype Plot = Plot(traces: seq<Trace>, features: seq<string>)

  function GradeOf(r: Param): string { r.grade }
  function FeatureOf(r: Param): string { r.feature }
  function CoefOf(r: Param): real { r.coef }
  function POf(r: Param): real { r.p }

  /** `g === "매우나쁨" ? "#e15759" : g === "나쁨" ? "#f28e2b" : "#4e79a7"`. */
  function GradeColour(g: string): string {
    if g == "매우나쁨" then "#e15759" else if g == "나쁨" then "#f28e2b" else "#4e79a7"
  }

  /** The two bad grades get colours of their own; every other grade shares the third. */
  lemma GradeColoursApart(g: string, h: string)
    ensures GradeColour(g) == GradeColour(h) <==>
              g == h || (g != "매우나쁨" && g != "나쁨" && h != "매우나쁨" && h != "나쁨")
  {
  }

  /** The trace of grade `g`: built from `rows.filter(r => r.grade === g)`. */
  function TraceOf(rows: seq<Param>, g: string): (t: Trace)
    ensures t.name == g && t.colour == GradeColour(g)
    ensures |t.x| == |t.y| == |t.text| == |Where(rows, GradeOf, g)|
  {
    var sub := Where(rows, GradeOf, g);
    Trace(g, MapSeq(sub, CoefOf), MapSeq(sub, FeatureOf), MapSeq(sub, POf), GradeColour(g))
  }

  /** `if (!rows.length) return null`, else the traces over `[...new Set(rows.map(d => d.grade))]`. */
  function Chart(rows: seq<Param>): (c: Option<Plot>)
    ensures c.None? <==> rows == []
  {
    if rows == [] then None
    else Some(Plot(MapSeq(Keys(rows, GradeOf), (g: string) => TraceOf(rows, g)), Keys(rows, FeatureOf)))
  }

  /**
   * The markers of a grade's trace are exactly the rows of that grade:
   * a (coefficient, feature, p) triple is plotted for `g` iff such a row exists.
   */
  lemma TracePoints(rows: seq<Param>, g: string, feature: string, coef: real, p: real)
    ensures var t := TraceOf(rows, g);
      (exists j :: 0 <= j < |t.x| && t.x[j] == coef && t.y[j] == feature && t.text[j] == p)
        <==> Param(g, feature, coef, p) in rows
  {
    var sub := Where(rows, GradeOf, g);
    var t := TraceOf(rows, g);
    if exists j :: 0 <= j < |t.x| && t.x[j] == coef && t.y[j] == feature && t.text[j] == p {
      var j :| 0 <= j < |t.x| && t.x[j] == coef && t.y[j] == feature && t.text[j] == p;
      assert sub[j] in sub;
      assert sub[j] == Param(g, feature, coef, p);
    }
    if Param(g, feature, coef, p) in rows {
      var r := Param(g, feature, coef, p);
      assert r in sub;
      var j :| 0 <= j < |sub| && sub[j] == r;
      assert t.x[j] == coef && t.y[j] == feature && t.text[j] == p;
    }
  }

  /**
   * A non-empty parameter file gives one trace per distinct grade, no two
   * named alike, and the features listed once each.
   */
  lemma ChartTraces(rows: seq<Param>, g: string, f: string)
    requires rows != []
    ensures var plot := Chart(rows).value;
      && (forall i, j :: 0 <= i < j < |plot.traces| ==> plot.traces[i].name != plot.traces[j].name)
      && ((exists i :: 0 <= i < |plot.traces| && plot.traces[i].name == g) <==> exists r :: r in rows && r.grade == g)
      && NoDuplicates(plot.features)
      && (f in plot.features <==> exists r :: r in rows && r.feature == f)
  {
    TraceNamesDistinct(rows);
    TraceNamed(rows, g);
    InMapSeq(rows, FeatureOf, f);
    ChartShape(rows);
  }

  lemma TraceNamesDistinct(rows: seq<Param>)
    requires rows != []
    ensures var traces := Chart(rows).value.traces;
      forall i, j :: 0 <= i < j < |traces| ==> traces[i].name != traces[j].name
  {
    var ks := Keys(rows, GradeOf);
    ChartShape(rows);
    assert NoDuplicates(ks);
  }

  lemma TraceNamed(rows: seq<Param>, g: string)
    requires rows != []
    ensures var traces := Chart(rows).value.traces;
      (exists i :: 0 <= i < |traces| && traces[i].name == g) <==> exists r :: r in rows && r.grade == g
  {
    var ks := Keys(rows, GradeOf);
    var traces := Chart(rows).value.traces;
    ChartShape(rows);
    InMapSeq(rows, GradeOf, g);
    if exists i :: 0 <= i < |traces| && traces[i].name == g {
      var i :| 0 <= i < |traces| && traces[i].name == g;
      assert ks[i] == g;
    }
    if g in ks {
      var i :| 0 <= i < |ks| && ks[i] == g;
      assert traces[i].name == g;
    }
  }

  /** The traces follow the distinct grades, in order. */
  lemma ChartShape(rows: seq<Param>)
    requires rows != []
    ensures var plot := Chart(rows).value;
      && |plot.traces| == |Keys(rows, GradeOf)|
      && (forall i :: 0 <= i < |plot.traces| ==> plot.traces[i].name == Keys(rows, GradeOf)[i])
      && plot.features == Keys(rows, FeatureOf)
  {
    var ks := Keys(rows, GradeOf);
    var traces := Chart(rows).value.traces;
    forall i | 0 <= i < |traces| ensures traces[i].name == ks[i] {
      assert traces[i] == TraceOf(rows, ks[i]);
    }
  }

  // ---------------------------------------------------------------------
  // Every row is plotted once

  function One(r: Param): real { 1.0 }

  function Markers(t: Trace): real { |t.x| as real }

  lemma {:induction false} SumOfOnes(xs: seq<Param>)
    ensures Sum(MapSeq(xs, One)) == |xs| as real
  {
    if xs != [] {
      assert MapSeq(xs, One)[1..] == MapSeq(xs[1..], One);
      SumOfOnes(xs[1..]);
    }
  }

  /** The traces hold, between them, one marker per row of the file. */
  lemma EveryRowPlotted(rows: seq<Param>)
    requires rows != []
    ensures Sum(MapSeq(Chart(rows).value.traces, Markers)) == |rows| as real
  {
    var ks := Keys(rows, GradeOf);
    var traces := Chart(rows).value.traces;
    var sums := GroupSums(rows, GradeOf, One, ks);
    forall i | 0 <= i < |ks| ensures MapSeq(traces, Markers)[i] == sums[i] {
      SumOfOnes(Where(rows, GradeOf, ks[i]));
    }
    assert MapSeq(traces, Markers) == sums;
    GroupSumsTotal(rows, GradeOf, One);
    SumOfOnes(rows);
  }
}
