/**
 * The month-by-month bar chart of PM10 in regions with and without a
 * power plant: the preprocessing into one entry per year-month sorted by
 * date, the incremental reveal that keeps a set of drawn dates and the
 * last drawn index, the play step, and how each bar is stacked and coloured.
 */
module RegionMonthMap {
  import opened Js
  import opened Aggregate
  import opened Sorting
  import Scales

  // ---------------------------------------------------------------------
  // Preprocessing

  /** The `key` of a row: "plant" or "nplant". */
  datatype Class = Plant | NonPlant

  /** A processed row: `yyyymm`, `pm10` and `key`. */
  datatype Rec = Rec(yyyymm: string, pm10: real, key: Class)

  /**
   * `d["일시"]?.slice(0, 7) ?? d["date"]?.slice(0, 7) ?? ""`: `??` only
   * skips a missing column, so an empty `일시` gives "" without looking at `date`.
   */
  function MonthText(d: CsvRow): string {
    if "일시" in d then Slice(d["일시"], 0, 7)
    else if "date" in d then Slice(d["date"], 0, 7)
    else ""
  }

  /**
   * `+d["PM10"] ?? +d["pm10"]`: unary plus always gives a number, never
   * null or undefined, so the `pm10` column is never read.
   */
  function Pm10Value(d: CsvRow): Num {
    Plus(Field(d, "PM10"))
  }

  /** `(+d["발전소"] === 1 || d["plant"] === "1") ? "plant" : "nplant"`. */
  function ClassOf(d: CsvRow): Class {
    if Plus(Field(d, "발전소")) == Real(1.0) || Field(d, "plant") == Some("1") then Plant else NonPlant
  }

  /** The `map` and the filter `d.yyyymm && !isNaN(d.pm10)`. */
  function Process(d: CsvRow): (r: Option<Rec>)
    ensures r.Some? <==> MonthText(d) != "" && Pm10Value(d).Real?
    ensures r.Some? ==> r.value == Rec(MonthText(d), Pm10Value(d).r, ClassOf(d))
  {
    var ym, pm10 := MonthText(d), Pm10Value(d);
    if ym != "" && pm10.Real? then Some(Rec(ym, pm10.r, ClassOf(d))) else None
  }

  /** A row's class is "plant" exactly when `발전소` is the number 1 or `plant` is the text "1". */
  lemma ClassOfRow(d: CsvRow)
    ensures ClassOf(d) == Plant <==>
              ("발전소" in d && ToNumber(d["발전소"]) == Real(1.0)) || ("plant" in d && d["plant"] == "1")
  {
  }

  function MonthOf(r: Rec): string { r.yyyymm }
  function ClassKey(r: Rec): Class { r.key }
  function Pm10Of(r: Rec): real { r.pm10 }

  /** One entry of `arr`: the month and the two class means. */
  datatype Entry = Entry(date: string, plant: real, nplant: real)

  function EntryDate(e: Entry): string { e.date }

  /** `inner.get(c) ?? 0`: the d3.mean of the class's PM10 in the month, or 0 without rows. */
  function ClassMean(monthRows: seq<Rec>, c: Class): real {
    match Mean(MapSeq(Where(monthRows, ClassKey, c), Pm10Of))
    case None => 0.0
    case Some(m) => m
  }

  function EntryOf(rows: seq<Rec>, ym: string): Entry {
    var monthRows := Where(rows, MonthOf, ym);
    Entry(ym, ClassMean(monthRows, Plant), ClassMean(monthRows, NonPlant))
  }

  /** `arr` before the sort: one entry per month, in the rollup's key order. */
  function Unsorted(rows: seq<Rec>): (arr: seq<Entry>)
    ensures |arr| == |Keys(rows, MonthOf)|
  {
    MapSeq(Keys(rows, MonthOf), (ym: string) => EntryOf(rows, ym))
  }

  /** `arr.sort((a, b) => d3.ascending(a.date, b.date))`. */
  function Data(rows: seq<Rec>): seq<Entry> {
    SortBy(Unsorted(rows), EntryDate, LexLess)
  }

  lemma UnsortedDistinct(rows: seq<Rec>)
    ensures DistinctKeys(Unsorted(rows), EntryDate)
  {
    var ks := Keys(rows, MonthOf);
    forall i, j | 0 <= i < j < |ks| ensures EntryDate(Unsorted(rows)[i]) != EntryDate(Unsorted(rows)[j]) {
      assert Unsorted(rows)[i].date == ks[i] && Unsorted(rows)[j].date == ks[j];
    }
  }

  /**
   * The chart's data holds one entry per distinct year-month of the kept
   * rows, strictly ascending by date; each entry holds the mean PM10 of
   * that month's plant rows and of its other rows, 0 for a class without rows.
   */
  lemma DataEntries(rows: seq<Rec>, e: Entry)
    ensures |Data(rows)| == |Keys(rows, MonthOf)|
    ensures StrictlySorted(Data(rows), EntryDate, LexLess)
    ensures e in Data(rows) <==> e.date in MapSeq(rows, MonthOf) && e == EntryOf(rows, e.date)
  {
    LexLessIsStrictOrder();
    UnsortedDistinct(rows);
    SortBySorted(Unsorted(rows), EntryDate, LexLess);
    var arr := Unsorted(rows);
    assert e in Data(rows) <==> e in multiset(arr);
    if e.date in MapSeq(rows, MonthOf) && e == EntryOf(rows, e.date) {
      var ks := Keys(rows, MonthOf);
      var i :| 0 <= i < |ks| && ks[i] == e.date;
      assert arr[i] == e;
    }
  }

  /** An entry's date is a non-empty year-month text: no entry is keyed by "". */
  lemma EntryDateNonEmpty(data: seq<CsvRow>, e: Entry)
    requires e in Data(Collect(data, Process))
    ensures e.date != ""
  {
    var rows := Collect(data, Process);
    DataEntries(rows, e);
    InMapSeq(rows, MonthOf, e.date);
  }

  // ---------------------------------------------------------------------
  // One bar

  /** `Math.min(plant, nplant)`, the height of the grey base. */
  function Base(e: Entry): real { if e.plant <= e.nplant then e.plant else e.nplant }

  /** `Math.max(plant, nplant)`, the top of the coloured part. */
  function Top(e: Entry): real { if e.plant >= e.nplant then e.plant else e.nplant }

  /** `entry.plant > entry.nplant ? "발전소" : "비발전소"`. */
  function Winner(e: Entry): Class { if e.plant > e.nplant then Plant else NonPlant }

  /**
   * The grey base reaches the smaller mean and the coloured part runs on
   * to the larger; the plant class wins only when its mean is strictly
   * larger, so a tie goes to the other class.
   */
  lemma BarStack(e: Entry)
    ensures Base(e) <= Top(e)
    ensures multiset{Base(e), Top(e)} == multiset{e.plant, e.nplant}
    ensures Winner(e) == Plant <==> e.plant > e.nplant
    ensures Top(e) == (if Winner(e) == Plant then e.plant else e.nplant)
  {
  }

  /** The label the chart uses for a class. */
  function ClassLabel(c: Class): string {
    match c
    case Plant => "발전소 지역 평균"
    case NonPlant => "비발전소 지역 평균"
  }

  const Blue := "#4e79a7"
  const Red := "#e15759"

  /** `winner === "비발전소" ? "#4e79a7" : "#e15759"`. */
  function Fill(e: Entry): string {
    if Winner(e) == NonPlant then Blue else Red
  }

  /** The legend as written: a blue swatch labelled 발전소, a red one labelled 비발전소. */
  function LegendAsWritten(colour: string): Option<string> {
    if colour == Blue then Some(ClassLabel(Plant))
    else if colour == Red then Some(ClassLabel(NonPlant))
    else None
  }

  /** On every entry the legend names the losing class for the bar's colour. */
  lemma LegendNamesLoser(e: Entry)
    ensures LegendAsWritten(Fill(e)) == Some(ClassLabel(if Winner(e) == Plant then NonPlant else Plant))
  {
  }

  /** A month where plant regions average 60 and the others 40 is drawn red, which the legend calls 비발전소. */
  lemma LegendCounterexample()
    ensures Winner(Entry("2021-01", 60.0, 40.0)) == Plant
    ensures LegendAsWritten(Fill(Entry("2021-01", 60.0, 40.0))) == Some("비발전소 지역 평균")
  {
  }

  /** The legend with the swatch colours swapped. */
  function Legend(colour: string): Option<string> {
    if colour == Red then Some(ClassLabel(Plant))
    else if colour == Blue then Some(ClassLabel(NonPlant))
    else None
  }

  /** With the swapped swatches the legend names the winning class of every bar. */
  lemma LegendNamesWinner(e: Entry)
    ensures Legend(Fill(e)) == Some(ClassLabel(Winner(e)))
  {
  }

  // ---------------------------------------------------------------------
  // Reveal state

  /** The dates of entries 1 through k: what is drawn after revealing up to index k. */
  function DrawnUpTo(data: seq<Entry>, k: int): set<string> {
    set i | 1 <= i <= k && i < |data| :: data[i].date
  }

  /**
   * `drawnSet` and `lastIndex` of one mounted chart. The effects only run
   * when `data` is non-empty; the slider and the play step keep the month
   * index within the data.
   */
  class Reveal {
    const data: seq<Entry>
    var drawn: set<string>
    var lastIndex: int

    ghost predicate Valid()
      reads this
    {
      && data != [] && DistinctKeys(data, EntryDate)
      && 0 <= lastIndex < |data|
      && drawn == DrawnUpTo(data, lastIndex)
    }

    /** The first effect: `drawnSet.current = new Set(); lastIndex.current = 0`. */
    constructor(entries: seq<Entry>)
      requires entries != [] && DistinctKeys(entries, EntryDate)
      ensures Valid() && data == entries && drawn == {} && lastIndex == 0
    {
      data := entries;
      drawn := {};
      lastIndex := 0;
    }

    /** `drawBar(i)`: nothing for a date already drawn, else the date joins the set. */
    method DrawBar(i: nat)
      requires i < |data|
      modifies this
      ensures drawn == old(drawn) + {data[i].date}
      ensures old(data[i].date in drawn) ==> drawn == old(drawn)
      ensures lastIndex == old(lastIndex)
    {
      var date := data[i].date;
      if date in drawn {
        return;
      }
      drawn := drawn + {date};
    }

    /** `removeBar(i)`: the date leaves the set. */
    method RemoveBar(i: nat)
      requires i < |data|
      modifies this
      ensures drawn == old(drawn) - {data[i].date}
      ensures lastIndex == old(lastIndex)
    {
      drawn := drawn - {data[i].date};
    }

    /**
     * The second effect on a new month index: draw forward from
     * `lastIndex + 1` or remove backward down to `monthIndex + 1`, then
     * record the index. Entry 0 is never drawn.
     */
    method Update(monthIndex: int)
      requires Valid() && 0 <= monthIndex < |data|
      modifies this
      ensures Valid()
      ensures lastIndex == monthIndex
      ensures drawn == DrawnUpTo(data, monthIndex)
      ensures data[0].date !in drawn
    {
      if monthIndex > lastIndex {
        var i := lastIndex + 1;
        while i <= monthIndex
          invariant lastIndex + 1 <= i <= monthIndex + 1
          invariant drawn == DrawnUpTo(data, i - 1)
          invariant lastIndex == old(lastIndex)
        {
          DrawBar(i);
          assert DrawnUpTo(data, i) == DrawnUpTo(data, i - 1) + {data[i].date};
          i := i + 1;
        }
      } else if monthIndex < lastIndex {
        var i := lastIndex;
        while i > monthIndex
          invariant monthIndex <= i <= lastIndex
          invariant drawn == DrawnUpTo(data, i)
          invariant lastIndex == old(lastIndex)
        {
          RemoveBar(i);
          DropLast(i);
          i := i - 1;
        }
      }
      lastIndex := monthIndex;
      FirstNeverDrawn(monthIndex);
    }

    /** With distinct dates, removing entry k's date from the first k leaves the first k - 1. */
    lemma DropLast(k: int)
      requires DistinctKeys(data, EntryDate) && 1 <= k < |data|
      ensures DrawnUpTo(data, k) - {data[k].date} == DrawnUpTo(data, k - 1)
    {
      forall i | 1 <= i < k ensures data[i].date != data[k].date {
        assert EntryDate(data[i]) != EntryDate(data[k]);
      }
    }

    lemma FirstNeverDrawn(k: int)
      requires DistinctKeys(data, EntryDate) && data != []
      ensures data[0].date !in DrawnUpTo(data, k)
    {
      forall i | 1 <= i <= k && i < |data| ensures data[i].date != data[0].date {
        assert EntryDate(data[0]) != EntryDate(data[i]);
      }
    }
  }

  // ---------------------------------------------------------------------
  // Play and slider

  /** One play tick: `prev >= data.length - 1 ? data.length - 1 : prev + 1`. */
  function PlayStep(prev: int, len: nat): (next: int)
    ensures len >= 1 && 0 <= prev < len ==> 0 <= next < len
  {
    if prev >= len - 1 then len - 1 else prev + 1
  }

  /** The slider's `max`: `Math.max(data.length - 1, 0)`. */
  function SliderMax(len: nat): (m: nat) {
    if len - 1 > 0 then len - 1 else 0
  }

  /**
   * A tick moves one month on and stops at the last entry, and the slider
   * offers exactly the indices of the entries, so the month index always
   * names an entry.
   */
  lemma PlayStaysInData(prev: int, len: nat)
    requires len >= 1 && 0 <= prev < len
    ensures PlayStep(prev, len) == (if prev + 1 < len - 1 then prev + 1 else len - 1)
    ensures PlayStep(prev, len) == prev ==> prev == len - 1
    ensures SliderMax(len) == len - 1
  {
  }
}
