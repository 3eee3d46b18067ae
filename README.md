# Fine-dust visual essay: the data behind the charts

The essay is a single scrolling page of panels (`src/pages/HomePage.js`),
each holding a d3 or Plotly chart of particulate matter (PM10), rainfall,
wind and power-plant data for Korea. Before anything is drawn, every chart
reshapes the rows it loads: it classifies dates into seasons, resolves the
abbreviated province at the head of a `지역` text, drops rows whose numbers
do not parse, groups the rest (by year and season, by month and plant
class, by province, by day, by grade) and reduces each group to a mean, a
sum, a maximum or a count. This project models that data preparation, file
by file, and proves what each chart's data means.

- **Shared JavaScript and d3 behaviour.** `Js` models unary plus on CSV
  text (blank is 0, a decimal literal is its value, anything else NaN),
  `||` on numbers, `trim`, `split(" ")`, `slice`, `toLowerCase` and
  zero-padding. `Aggregate` models `filter`, `map`, `new Set`, `d3.group`,
  `d3.rollup`, `d3.mean` (NaN values skipped, undefined when nothing is
  left) and `d3.sum`. `Sorting` models the sorts by date as an insertion
  sort under any strict total order. `Scales` models extents, threshold
  buckets and minimum and maximum.
- **Seasons.** `Seasons` holds the month-only season table. Each chart
  module holds its own day-precise `getSeason` rule where the source has
  one: the heatmap rule and the scatter-tower rule differ.
- **Provinces.** `ProvinceTables` and `Provinces` model the 17-entry
  abbreviation and code-prefix tables, the lookup of a row's province, the
  merge of district features into province features by their two-digit
  code prefix, and the join of per-province means onto the features.
- **Charts.** There is one module per chart component. Each states which
  rows its chart keeps, what each group's value is, and which features or
  cells are shown or left blank.
- **State machines.** `RegionMonthMap.Reveal` is the month-by-month bar
  reveal (a set of drawn months and the last index drawn).
  `HomePage.Navigator` is the panel navigator. It holds the registry of
  panels, the active panel, the `?cont=` address, the sticky offsets and
  the sideways scroll. It also records which of React's commits and effects
  have happened: whether the page is past the loading screen, which panels
  the observer watches, and whether the wheel listener is attached.

Dates are given as the year, month and day a host `Date` reports, or as an
invalid date. Measurements are exact reals, and NaN is a separate value of
the `Num` type.

Where the code and its comments disagree, the model follows the code. The
five places where the code evidently does not do what its authors meant
are listed under "## Findings". Each is modelled twice: once as written,
and once as intended.

## Model

| member | source | states |
|---|---|---|
| Seasons.OfName | src/components/GroupedBarChart.js:4 | a recognised label is the name of the season it is read as |
| Seasons.NameRoundTrip | src/components/GroupedBarChart.js:4 | reading back a season's label gives that season |
| Seasons.Index | src/components/SeoulSeasonHeatmap.js:54 | every season has a position below 4 in the display order 봄, 여름, 가을, 겨울 |
| Seasons.OrderListsEverySeasonOnce | src/components/SeoulSeasonHeatmap.js:54 | the display order has 4 entries, lists every season and no season twice |
| Seasons.MonthSeason | src/components/YearHierarchicalBar.js:5-8 | the month table is defined exactly on the whole numbers 1 to 12 |
| Seasons.Months | src/components/SeasonalRainmap.js:51 | each season lists three months |
| Seasons.MonthTablesAgree | src/components/SeasonalRainmap.js:51 | a month is in a season's list exactly when it is in 1..12 and the month table gives it that season |
| Seasons.MonthsPartitionYear | src/components/SeasonalWindmap.js:53 | every month 1..12 lies in the list of exactly one season |
| SeoulSeasonHeatmap.SeasonIntervals | src/components/SeoulSeasonHeatmap.js:5-12 | on a calendar date the result is 봄 exactly on Mar 1–May 30, 여름 on May 31–Sep 25, 가을 on Sep 26–Dec 3 and 겨울 on Dec 4 through Feb |
| SeoulSeasonHeatmap.GetSeason | src/components/SeoulSeasonHeatmap.js:5-12 | the heatmap's `getSeason`; `SeoulSeasonHeatmap.SeasonIntervals` proves the calendar interval of each season |
| SeoulSeasonHeatmap.Filtered | src/components/SeoulSeasonHeatmap.js:32-41 | a tagged row is kept exactly when it comes from a row whose `지역` is "서울 중구", tagged with its year, season and PM10 |
| SeoulSeasonHeatmap.Tag | src/components/SeoulSeasonHeatmap.js:34-40 | the `{연도, 계절, PM10}` of a row; `SeoulSeasonHeatmap.Filtered` proves which rows are tagged |
| SeoulSeasonHeatmap.Cohort | src/components/SeoulSeasonHeatmap.js:49 | the cohort holds exactly the rows of that year and that season |
| SeoulSeasonHeatmap.Grouped | src/components/SeoulSeasonHeatmap.js:44-52 | one year object per distinct year, in order of first appearance |
| SeoulSeasonHeatmap.GroupedMeans | src/components/SeoulSeasonHeatmap.js:44-52 | no year appears twice; a season key is present exactly when the year has a row in that season, and it holds the d3.mean of that cohort's PM10 |
| SeoulSeasonHeatmap.GroupedCoversYears | src/components/SeoulSeasonHeatmap.js:44-46 | every row's year has a year object |
| SeoulSeasonHeatmap.Flat | src/components/SeoulSeasonHeatmap.js:54-61 | exactly 4 cells per year, year-major with seasons in display order, each holding the year's value for that season or undefined |
| SeoulSeasonHeatmap.FlatCellEmpty | src/components/SeoulSeasonHeatmap.js:49-61 | cell (i, j) holds the mean of year i's rows in season j, undefined exactly when that cohort has no numeric PM10 |
| SeoulSeasonHeatmap.Defined | src/components/SeoulSeasonHeatmap.js:67 | a value is kept exactly when it is a defined member of the list |
| SeoulSeasonHeatmap.Wrap | src/components/SeoulSeasonHeatmap.js:63-70 | the yearly values enter `allValues` one for one, all defined |
| SeoulSeasonHeatmap.CellInFlat | src/components/SeoulSeasonHeatmap.js:55-61 | each of a year's four cells is a cell of the grid |
| SeoulSeasonHeatmap.YearValuesInGrid | src/components/SeoulSeasonHeatmap.js:65-67 | the season means a yearly value is taken over are all grid values |
| SeoulSeasonHeatmap.YearlyValueBetweenCells | src/components/SeoulSeasonHeatmap.js:65-69 | a yearly value, the mean of the existing season means, lies between two defined grid values |
| SeoulSeasonHeatmap.YearlyValue | src/components/SeoulSeasonHeatmap.js:65-69 | the yearly mean of the defined season means; `SeoulSeasonHeatmap.YearlyValueBetweenCells` proves it lies between the smallest and largest defined grid value |
| SeoulSeasonHeatmap.YearlyValuesInsideRange | src/components/SeoulSeasonHeatmap.js:63-72 | d3.min and d3.max of `allValues` equal those of the grid cells alone |
| SeoulSeasonHeatmap.CellShade | src/components/SeoulSeasonHeatmap.js:113 | the fill of one cell, neutral for an undefined or zero value; `SeoulSeasonHeatmap.GridShade` states what that means for the grid |
| SeoulSeasonHeatmap.GridShade | src/components/SeoulSeasonHeatmap.js:113 | grid cell (i, j) is left neutral exactly when year i has no numeric PM10 in season j or those average 0, and otherwise shows their mean |
| SeoulSeasonHeatmap.Round | src/components/SeoulSeasonHeatmap.js:154 | Math.round is defined exactly on defined values and lands within one half of the value |
| SeoulSeasonHeatmap.Sunburst | src/components/SeoulSeasonHeatmap.js:141-146 | one year node per distinct year |
| SeoulSeasonHeatmap.SunburstNodes | src/components/SeoulSeasonHeatmap.js:146-163 | node i is year i, valued at the rounded mean of all that year's rows, with one child per season present in first-appearance order, each valued at the rounded mean of that season's rows |
| SeoulSeasonHeatmap.YearNodeOf | src/components/SeoulSeasonHeatmap.js:146-163 | the sunburst node of one year; `SeoulSeasonHeatmap.SunburstNodes` proves its value and children |
| SeoulSeasonHeatmap.SunburstSeasonsPresent | src/components/SeoulSeasonHeatmap.js:147-155 | a season is a child of a year exactly when that year has a row in that season |
| SeasonScatterTower.DiffersFromHeatmap | src/components/SeasonScatterTower.js:5-12 | on a calendar date this rule differs from the heatmap's exactly on Sep 1–25 (여름 there, 가을 here), Nov 30 and Dec 1–3 (가을 there, 겨울 here) |
| SeasonScatterTower.GetSeason | src/components/SeasonScatterTower.js:5-12 | this chart's `getSeason`; `SeasonScatterTower.DiffersFromHeatmap` proves exactly where it differs from the heatmap's rule and `SeasonScatterTower.SeasonIsIndexRun` that each season is one run of indices |
| SeasonScatterTower.MonthsOrderListsMonths | src/components/SeasonScatterTower.js:28 | each entry of `monthsOrder` is a month, at its own position |
| SeasonScatterTower.Position | src/components/SeasonScatterTower.js:28 | every month 1..12 has a position in `monthsOrder` |
| SeasonScatterTower.DaysBeforeTable | src/components/SeasonScatterTower.js:15-24 | the day counts the loops add for the months before March 1, April 1, …, February 1, and the full year of 365 |
| SeasonScatterTower.SpringIndex | src/components/SeasonScatterTower.js:14-26 | the loops of `getSpringIndex` compute the days from March 1 of the non-leap table plus `day - 1` |
| SeasonScatterTower.SpringIndexOf | src/components/SeasonScatterTower.js:14-26 | days since March 1 along `monthsOrder`; `SeasonScatterTower.SpringIndex` proves the loops compute it and `SeasonScatterTower.SpringIndexRange` its range |
| SeasonScatterTower.SpringIndexRange | src/components/SeasonScatterTower.js:14-26 | Mar 1 gives 0, Jan 1 gives 306, Feb 28 gives 364; every calendar day lies in 0..365, and 365 only on Feb 29 |
| SeasonScatterTower.SpringIndexOrdered | src/components/SeasonScatterTower.js:14-26 | the index strictly increases along the calendar from March 1 to the end of February, so it is injective |
| SeasonScatterTower.SeasonIsIndexRun | src/components/SeasonScatterTower.js:5-26 | each season of this rule is one run of indices: 0–90, 91–183, 184–273, 274 onwards |
| SeasonScatterTower.PointOf | src/components/SeasonScatterTower.js:45-55 | a record carries its date's season, the row's PM10, and the spring index of its month and day (NaN fields for an invalid date) |
| SeasonScatterTower.Points | src/components/SeasonScatterTower.js:44-56 | one record per row, in order; `SeasonScatterTower.ClusterInsideRun` proves that the records of one season keep their indices inside that season's run |
| SeasonScatterTower.DefinedIdx | src/components/SeasonScatterTower.js:167 | d3.extent looks at exactly the defined indices |
| SeasonScatterTower.ClusterInsideRun | src/components/SeasonScatterTower.js:166-167 | the index extent of a season's cluster stays inside that season's run, so the zoom windows of the clusters never overlap |
| SeasonScatterTower.MonthTicks | src/components/SeasonScatterTower.js:94-99 | the `forEach` with its running `acc` pushes 12 ticks, tick k being the days before month k of the axis plus 1 |
| SeasonScatterTower.TickAfterFirstDay | src/components/SeasonScatterTower.js:94-99 | tick k equals `getSpringIndex(monthsOrder[k], 1) + 1` |
| SeasonScatterTower.TicksIncrease | src/components/SeasonScatterTower.js:94-99 | the ticks strictly increase, from 1 to 338 |
| NonSummerScatterPlot.TagSeasons | src/components/NonSummerScatterPlot.js:23-25 | the loop sets `계절` on every row in place, to the season of its date, and changes nothing else |
| NonSummerScatterPlot.Tag | src/components/NonSummerScatterPlot.js:24 | `d.계절 = getSeason(d.일자)`; `NonSummerScatterPlot.TagSeasons` proves the loop applies it to every row and changes nothing else |
| NonSummerScatterPlot.YearMonthIdentifies | src/components/NonSummerScatterPlot.js:33 | for years 0..9999 two dates print the same `%Y-%m` text exactly when they share year and month, or are both invalid |
| NonSummerScatterPlot.YearMonth | src/components/NonSummerScatterPlot.js:33 | `d3.timeFormat("%Y-%m")`; `NonSummerScatterPlot.YearMonthIdentifies` proves two dates share the text exactly when they share year and month |
| NonSummerScatterPlot.YearMonthDigits | src/components/NonSummerScatterPlot.js:33 | the text of a valid date is four year digits, a dash and two month digits, which read back as the year and the month |
| NonSummerScatterPlot.YearTextDigits | src/components/NonSummerScatterPlot.js:33 | `%Y` of a year 0..9999 is four digits reading back as the year |
| NonSummerScatterPlot.MonthTextDigits | src/components/NonSummerScatterPlot.js:33 | `%m` is two digits reading back as the month |
| NonSummerScatterPlot.AttachMonthMeans | src/components/NonSummerScatterPlot.js:36-39 | the loop sets `년월` and `PM10_month` on every kept row in place, the latter the group mean or null when the lookup misses |
| NonSummerScatterPlot.Prepared | src/components/NonSummerScatterPlot.js:22-41 | the prepared data has one row per non-summer row |
| NonSummerScatterPlot.Prepare | src/components/NonSummerScatterPlot.js:22-41 | the raw rows are tagged in place, and the filtered rows, a fresh array, are the prepared data |
| NonSummerScatterPlot.KeptRows | src/components/NonSummerScatterPlot.js:27 | a row is kept exactly when it is the tagged form of an input row whose season is not 여름 |
| NonSummerScatterPlot.Kept | src/components/NonSummerScatterPlot.js:27 | the filter; `NonSummerScatterPlot.KeptRows` proves a row is kept exactly when its season is not 여름 |
| NonSummerScatterPlot.PreparedRow | src/components/NonSummerScatterPlot.js:27-39 | prepared row i is kept row i with its own year-month and the mean PM10 of its (region, year-month) group, null exactly when no PM10 of that group is numeric |
| NonSummerScatterPlot.AttachFields | src/components/NonSummerScatterPlot.js:36-39 | attaching keeps the date, region, PM10 and season and adds the row's own year-month and its group's value |
| NonSummerScatterPlot.KeptDated | src/components/NonSummerScatterPlot.js:27 | a kept row has a valid date and is not a summer row |
| NonSummerScatterPlot.GroupedMean | src/components/NonSummerScatterPlot.js:29-34 | every kept row's key is in `grouped`, holding the mean PM10 of its group, undefined exactly when the group has no numeric PM10 |
| NonSummerScatterPlot.KeyOf | src/components/NonSummerScatterPlot.js:32-33 | the (region, year-month) key of a row; `NonSummerScatterPlot.GroupedMean` proves every kept row's key is in `grouped` |
| NonSummerScatterPlot.Grouped | src/components/NonSummerScatterPlot.js:29-34 | the rollup; `NonSummerScatterPlot.GroupedMean` proves each key holds the mean PM10 of its group |
| NonSummerScatterPlot.Attach | src/components/NonSummerScatterPlot.js:36-39 | the two fields the loop sets; `NonSummerScatterPlot.AttachFields` proves what they hold and that nothing else changes |
| NonSummerScatterPlot.CellRowsPrepared | src/components/NonSummerScatterPlot.js:112 | a row with NaN PM10 is kept by the filter and left out only of the scatter cells that plot PM10 |
| NonSummerScatterPlot.PreparedHasMonth | src/components/NonSummerScatterPlot.js:38 | every prepared row carries a `PM10_month` field (null when the mean is undefined) |
| SeasonScatterPlot.GetSeasonIsSeasonMap | src/components/SeasonScatterPlot.js:9-14 | on the months 1..12 the rule agrees with the `seasonMap` table of the other charts; NaN and every other number give 겨울 |
| SeasonScatterPlot.Load | src/components/SeasonScatterPlot.js:21-30 | the loader returns null, and d3 drops the row, exactly when `일시` is missing or empty |
| SeasonScatterPlot.DataRows | src/components/SeasonScatterPlot.js:33-39 | a point is shown exactly when it was loaded from a row and its PM10, rainfall and wind speed are numeric: the `SEASONS.includes` test never rejects |
| SeasonScatterPlot.UndatedRowDropped | src/components/SeasonScatterPlot.js:23 | a row without `일시` contributes nothing |
| YearHierarchicalBar.Normalize | src/components/YearHierarchicalBar.js:48-53 | the `\|\|` chains and the filter of the props path; `YearHierarchicalBar.ZeroPm10Dropped` proves a PM10 of 0 drops the row, and `YearHierarchicalBar.FallbackAgreesExceptZero` that the fallback loader keeps the same rows apart from those |
| YearHierarchicalBar.ZeroPm10Dropped | src/components/YearHierarchicalBar.js:51-53 | a PM10 of 0 falls through `\|\|` to the absent `pm10`, which is NaN, so the row is dropped |
| YearHierarchicalBar.FallbackRow | src/components/YearHierarchicalBar.js:57-61 | the fallback loader throws exactly when a row has no `일시` |
| YearHierarchicalBar.FallbackKeep | src/components/YearHierarchicalBar.js:62 | the filter of the fallback loader; `YearHierarchicalBar.FallbackAgreesExceptZero` proves it keeps the rows the props path keeps, and also a PM10 of 0 |
| YearHierarchicalBar.FallbackAgreesExceptZero | src/components/YearHierarchicalBar.js:48-62 | on a dated row the two load paths agree, except that the fallback keeps a PM10 of 0 which the props path drops |
| YearHierarchicalBar.MonthList | src/components/YearHierarchicalBar.js:18-21 | one leaf per listed month |
| YearHierarchicalBar.SeasonList | src/components/YearHierarchicalBar.js:15-24 | one season node per listed season |
| YearHierarchicalBar.YearList | src/components/YearHierarchicalBar.js:12-27 | one year node per listed year |
| YearHierarchicalBar.MonthListAt | src/components/YearHierarchicalBar.js:19-21 | leaf k is month k valued at the d3.sum of PM10 over that month's rows |
| YearHierarchicalBar.SeasonListAt | src/components/YearHierarchicalBar.js:15-23 | season node j is built from exactly the rows of season j |
| YearHierarchicalBar.YearListAt | src/components/YearHierarchicalBar.js:12-26 | year node i is built from exactly the rows of year i |
| YearHierarchicalBar.BuildSeason | src/components/YearHierarchicalBar.js:17-22 | the month loop pushes the leaves and sets the season value, giving the season node of the specification |
| YearHierarchicalBar.BuildYear | src/components/YearHierarchicalBar.js:14-25 | the season loop builds the year node of the specification |
| YearHierarchicalBar.BuildHierarchy | src/components/YearHierarchicalBar.js:10-30 | the nested loops of `buildHierarchy` build the tree of the specification |
| YearHierarchicalBar.MonthRowsInSeason | src/components/YearHierarchicalBar.js:15-18 | the rows of a month inside a season group are all that year's rows of that month, since a month has one season |
| YearHierarchicalBar.LeafValueInYear | src/components/YearHierarchicalBar.js:15-21 | a leaf of a year node is valued at the sum of PM10 over that year's rows of its month |
| YearHierarchicalBar.LeafValue | src/components/YearHierarchicalBar.js:12-21 | a leaf is valued at the sum of PM10 over the rows with its year and month |
| YearHierarchicalBar.SeasonValueIsSum | src/components/YearHierarchicalBar.js:22 | a season value, the sum of its leaves, equals the sum of PM10 over its rows |
| YearHierarchicalBar.YearValueIsSum | src/components/YearHierarchicalBar.js:25 | a year value equals the sum of PM10 over its rows |
| YearHierarchicalBar.RootValueIsSum | src/components/YearHierarchicalBar.js:28 | the root value equals the sum of PM10 over all rows: each row counts in exactly one leaf |
| YearHierarchicalBar.YearListYears | src/components/YearHierarchicalBar.js:12-14 | the year nodes are named by the listed years, in order |
| YearHierarchicalBar.SeasonListSeasons | src/components/YearHierarchicalBar.js:15-17 | the season nodes are named by the listed seasons, in order |
| YearHierarchicalBar.MonthListMonths | src/components/YearHierarchicalBar.js:18-20 | the leaves are named by the listed months, in order |
| YearHierarchicalBar.YearNodeShape | src/components/YearHierarchicalBar.js:14-24 | a year node has one child per distinct season of its rows, each with one child per distinct month of its rows |
| YearHierarchicalBar.HierarchyShape | src/components/YearHierarchicalBar.js:10-30 | the root has one child per distinct year, each year one per distinct season present, each season one per distinct month present, in first-appearance order |
| YearHierarchicalBar.Offsets | src/components/YearHierarchicalBar.js:86-93 | the running `v` of `stack` places child i at the sum of the values of children 0..i-1 and ends at the sum of all |
| YearHierarchicalBar.MaxRows | src/components/YearHierarchicalBar.js:70-72 | `maxRows` is at least 1 and at least every node's child count, equals one of them, and the height is `maxRows*27+30` |
| YearHierarchicalBar.HierarchyWellSummed | src/components/YearHierarchicalBar.js:22-28 | every inner node of the built tree holds the sum of its children's values |
| YearHierarchicalBar.YearLevel | src/components/YearHierarchicalBar.js:69 | re-summing a year including inner values gives three times its value; the leaf-only accessor gives its value |
| YearHierarchicalBar.SummedValuesAsWritten | src/components/YearHierarchicalBar.js:69 | `.sum(d=>d.value)` on the summed tree doubles a season, triples a year and makes the root four times the total |
| YearHierarchicalBar.SummedValuesCounterexample | src/components/YearHierarchicalBar.js:69 | one row of PM10 10 gives a root of 40 |
| YearHierarchicalBar.LeafSummedValues | src/components/YearHierarchicalBar.js:69 | summing the leaves only gives every node back its own value |
| GroupedBarChart.Normalize | src/components/GroupedBarChart.js:21-25 | the `\|\|` fallbacks and the filter; `GroupedBarChart.Pm10Fallback` proves a PM10 of 0 drops the row, and `GroupedBarChart.GridEntry` states what the bars built from the kept rows hold |
| GroupedBarChart.Pm10Fallback | src/components/GroupedBarChart.js:24-25 | a PM10 of 0 falls through to the absent `pm10` and the row is dropped; a truthy PM10 is used as is |
| GroupedBarChart.SeasonBars | src/components/GroupedBarChart.js:34-40 | one bar per listed season |
| GroupedBarChart.YearBars | src/components/GroupedBarChart.js:33-41 | exactly four bars per listed year |
| GroupedBarChart.SeasonBarsStep | src/components/GroupedBarChart.js:34-40 | the season loop's next push is the bar of season j |
| GroupedBarChart.YearBarsStep | src/components/GroupedBarChart.js:33-41 | the year loop's next pushes are the four bars of year i |
| GroupedBarChart.PushSeasons | src/components/GroupedBarChart.js:34-40 | the inner loop appends the four season bars of one year, in display order |
| GroupedBarChart.BuildBars | src/components/GroupedBarChart.js:32-42 | the nested loops build exactly the grid of the specification |
| GroupedBarChart.SeasonBarsAt | src/components/GroupedBarChart.js:35-39 | bar j of a year is season j with that season's value |
| GroupedBarChart.YearChunkAt | src/components/GroupedBarChart.js:33-41 | bar 4i+j is bar j of year i |
| GroupedBarChart.YearBarsAt | src/components/GroupedBarChart.js:33-41 | bar 4i+j is year i, season j, valued at that cell's mean or 0 |
| GroupedBarChart.GridEntry | src/components/GroupedBarChart.js:26-41 | exactly 4 bars per distinct year in first-appearance order, seasons 봄, 여름, 가을, 겨울; a bar holds the mean PM10 of its (year, season) rows, or 0 when there are none |
| GroupedBarChart.Grid | src/components/GroupedBarChart.js:26-42 | `out`; `GroupedBarChart.GridEntry` proves its four bars per year and the mean each bar holds |
| GroupedBarChart.CellValueBetween | src/components/GroupedBarChart.js:28 | a non-empty cell's value lies between the smallest and the largest of its PM10 values |
| GroupedBarChart.CellValue | src/components/GroupedBarChart.js:38 | `seasons.get(season) \|\| 0`; `GroupedBarChart.CellValueBetween` proves a non-empty cell's value lies between its smallest and largest PM10 |
| GroupedBarChart.GridYears | src/components/GroupedBarChart.js:33-39 | every bar's year occurs in the rows, and the bar holds the value of its (year, season) cell |
| GroupedBarChart.BarLayout | src/components/GroupedBarChart.js:50-58 | `getBarX(y,s) = 320 + 110·y + 12·s`; neighbouring bars of a year are 2 apart, year groups 64 apart, and the year label sits at the centre of its group |
| GroupedBarChart.BarsDisjoint | src/components/GroupedBarChart.js:51-58 | no two bars of width 10 overlap |
| GroupedBarChart.BarX | src/components/GroupedBarChart.js:56-58 | `getBarX`; `GroupedBarChart.BarLayout` gives its spacing and `GroupedBarChart.BarsDisjoint` proves no two bars overlap |
| GroupedBarChart.BinsAscending | src/components/GroupedBarChart.js:5 | the bin edges strictly ascend |
| GroupedBarChart.LegendDescribesBucket | src/components/GroupedBarChart.js:64-66 | legend label 0 is "<10", label 8 is "≥80", label i in between is "10i-(10i+9)", and each label describes exactly the values the threshold scale puts in colour i |
| GroupedBarChart.LegendLabel | src/components/GroupedBarChart.js:143-145 | the legend text of a colour; `GroupedBarChart.LegendDescribesBucket` proves it describes exactly the values that get that colour |
| RegionMonthMap.Process | src/components/RegionMonthMap.js:15-20 | the `map` and the filter; `RegionMonthMap.DataEntries` proves that the kept rows give one entry per year-month, holding the two class means of that month |
| RegionMonthMap.MonthText | src/components/RegionMonthMap.js:16 | the year-month text, "" for an empty `일시` since `??` skips only a missing column; `RegionMonthMap.EntryDateNonEmpty` proves no entry has an empty date |
| RegionMonthMap.Pm10Value | src/components/RegionMonthMap.js:17 | `+d["PM10"]`, which is never null, so `+d["pm10"]` is never read; `RegionMonthMap.Process` keeps a row only when it is numeric |
| RegionMonthMap.ClassOfRow | src/components/RegionMonthMap.js:18 | a row is "plant" exactly when `+발전소` is 1 or `plant` is the text "1" |
| RegionMonthMap.ClassOf | src/components/RegionMonthMap.js:18 | the class key; `RegionMonthMap.ClassOfRow` proves a row is "plant" exactly when `+발전소` is 1 or `plant` is "1" |
| RegionMonthMap.Unsorted | src/components/RegionMonthMap.js:28-35 | `arr` holds one entry per distinct year-month |
| RegionMonthMap.UnsortedDistinct | src/components/RegionMonthMap.js:22-35 | no two entries of `arr` share a date |
| RegionMonthMap.Data | src/components/RegionMonthMap.js:36 | `arr` after the sort; `RegionMonthMap.DataEntries` proves one entry per year-month, in strictly ascending date order |
| RegionMonthMap.DataEntries | src/components/RegionMonthMap.js:22-37 | after the sort there is one entry per distinct year-month, the dates strictly ascend, and an entry holds the two class means of its month, 0 for a class without rows |
| RegionMonthMap.EntryDateNonEmpty | src/components/RegionMonthMap.js:20 | no entry has an empty date |
| RegionMonthMap.BarStack | src/components/RegionMonthMap.js:102-104 | base ≤ top and together they are the two means; 발전소 wins only when its mean is strictly larger, so a tie goes to 비발전소, and the top is the winner's mean |
| RegionMonthMap.LegendNamesLoser | src/components/RegionMonthMap.js:174-181 | with the swatches as written, the legend entry of a bar's colour names the class that lost |
| RegionMonthMap.LegendAsWritten | src/components/RegionMonthMap.js:174-181 | the legend as written; `RegionMonthMap.LegendNamesLoser` proves it names the losing class of every bar |
| RegionMonthMap.LegendCounterexample | src/components/RegionMonthMap.js:124 | a month with plant mean 60 and non-plant mean 40 is drawn red, and the red swatch reads 비발전소 |
| RegionMonthMap.LegendNamesWinner | src/components/RegionMonthMap.js:124 | with the swatch colours swapped, the legend entry of every bar's colour names the winning class |
| RegionMonthMap.Legend | src/components/RegionMonthMap.js:174-181 | the legend with the swatch colours swapped; `RegionMonthMap.LegendNamesWinner` proves it names the winning class of every bar |
| RegionMonthMap.Reveal.constructor | src/components/RegionMonthMap.js:40-43 | on a non-empty data set the chart starts with nothing drawn and `lastIndex` 0 |
| RegionMonthMap.Reveal.DrawBar | src/components/RegionMonthMap.js:96-100 | `drawBar` adds the entry's date to `drawnSet`, and is a no-op for a date already there |
| RegionMonthMap.Reveal.RemoveBar | src/components/RegionMonthMap.js:131-134 | `removeBar` deletes the entry's date from `drawnSet` |
| RegionMonthMap.Reveal.Update | src/components/RegionMonthMap.js:144-149 | after an update `lastIndex` is the month index and `drawnSet` is exactly the dates of entries 1..monthIndex; entry 0 is never drawn |
| RegionMonthMap.Reveal.DropLast | src/components/RegionMonthMap.js:147 | removing entry k's date from the set drawn up to k leaves the set drawn up to k-1 |
| RegionMonthMap.Reveal.FirstNeverDrawn | src/components/RegionMonthMap.js:42-45 | the first entry's date is never in the drawn set |
| RegionMonthMap.PlayStep | src/components/RegionMonthMap.js:156-162 | from an index inside the data, a tick lands inside the data |
| RegionMonthMap.PlayStaysInData | src/components/RegionMonthMap.js:156-188 | a tick moves to `prev+1` but stops at the last entry, it stays put only there, and the slider's maximum is the last index |
| RegionMonthMap.SliderMax | src/components/RegionMonthMap.js:188 | `Math.max(data.length - 1, 0)`; `RegionMonthMap.PlayStaysInData` proves it is the last index and that the play step stops there |
| ProvinceTables.PrefixTags | src/components/TotalPM10map.js:8-26 | the packed character codes of the 17 code prefixes |
| ProvinceTables.AbbreviationTags | src/components/TotalPM10map.js:29-47 | the packed character codes of the 17 abbreviations |
| ProvinceTables.NameTags | src/components/TotalPM10map.js:8-26 | the packed character codes of the 17 province names |
| ProvinceTables.AscendingDistinct | src/components/TotalPM10map.js:8-47 | strings whose packed codes ascend are pairwise distinct |
| ProvinceTables.AscendingBetween | src/components/TotalPM10map.js:8-47 | ascending packed codes compare in order at any two positions |
| ProvinceTables.ListsDistinct | src/components/TotalPM10map.js:8-47 | the province names, the code prefixes and the abbreviations are 17 distinct strings each |
| ProvinceTables.NamesAscend | src/components/TotalPM10map.js:8-26 | the province names' packed codes ascend |
| ProvinceTables.PrefixesAscend | src/components/TotalPM10map.js:8-26 | the code prefixes' packed codes ascend |
| ProvinceTables.AbbreviationsAscend | src/components/TotalPM10map.js:29-47 | the abbreviations' packed codes ascend |
| ProvinceTables.TableKeys | src/components/TotalPM10map.js:8-47 | the keys of `codePrefixToProvince` are the 17 prefixes and those of `shortToLong` the 17 abbreviations |
| ProvinceTables.TableSizes | src/components/TotalPM10map.js:8-47 | both tables have 17 entries |
| ProvinceTables.CodeTableInjective | src/components/TotalPM10map.js:8-26 | no two code prefixes name the same province |
| ProvinceTables.AbbreviationTableInjective | src/components/TotalPM10map.js:29-47 | no two abbreviations expand to the same province |
| ProvinceTables.CodeTableWithin | src/components/TotalPM10map.js:8-26 | every code prefix names one of the 17 official provinces |
| ProvinceTables.AbbreviationTableWithin | src/components/TotalPM10map.js:29-47 | every abbreviation expands to one of the 17 official provinces |
| ProvinceTables.AbbreviationsMatchCodes | src/components/TotalPM10map.js:8-47 | every abbreviation has a code prefix naming the same province |
| ProvinceTables.NameShape | src/components/TotalPM10map.js:8-26 | a province name has at least three characters and starts with a Hangul syllable |
| ProvinceTables.LongNamesShape | src/components/TotalPM10map.js:29-47 | every expansion has at least three characters and starts with a Hangul syllable, so none is empty |
| ProvinceTables.EmptyNotAbbreviation | src/components/TotalPM10map.js:29-47 | the empty token is not an abbreviation |
| ProvinceTables.TablesAgree | src/components/TotalPM10map.js:8-47 | the two tables have the same 17 long names |
| ProvinceTables.InjectiveValuesCard | src/components/TotalPM10map.js:8-47 | an injective table has as many values as keys |
| ProvinceTables.SubsetSameCard | src/components/TotalPM10map.js:8-47 | a subset of equal size is the whole set |
| Provinces.Province | src/components/TotalPM10map.js:88-89 | the first token of the trimmed `지역` is expanded when it is an abbreviation and passes through unchanged otherwise; the province is empty exactly when that token is |
| Provinces.ProvinceMeans | src/components/TotalPM10map.js:97-101 | `provinceAvg` holds exactly the provinces with a kept row, each mapped to the mean of its values |
| Provinces.ProvincesPresent | src/components/TotalPM10map.js:100 | a province is a rollup key exactly when some row has it |
| Provinces.ProvinceMeanBetween | src/components/TotalPM10map.js:97-101 | a province's mean lies between the smallest and the largest of its values |
| Provinces.ProvinceFeatures | src/components/TotalPM10map.js:107-122 | one merged feature per distinct code prefix, in first-appearance order; `Provinces.MergeKeepsEveryPolygon` proves the merge loses and duplicates no polygon |
| Provinces.MergedAppend | src/components/TotalPM10map.js:110-113 | one more feature appends its Polygon or its MultiPolygon parts |
| Provinces.MergeGroup | src/components/TotalPM10map.js:109-113 | the `forEach` loop pushes exactly the polygons of the group's features, in order |
| Provinces.MergeProvince | src/components/TotalPM10map.js:108-121 | one province feature is built with its code prefix, its province name and its merged polygons |
| Provinces.MergeFeatures | src/components/TotalPM10map.js:107-122 | the merge loop produces exactly the province features of the specification |
| Provinces.ProvinceFeaturesByPrefix | src/components/TotalPM10map.js:107-108 | the merged features carry the distinct code prefixes, in order, one each |
| Provinces.MergedCount | src/components/TotalPM10map.js:110-113 | the merged polygon count is the sum of the features' contributions |
| Provinces.TotalPolygonsGroups | src/components/TotalPM10map.js:107-113 | the polygons of features grouped by the listed prefixes add up to those groups' contributions |
| Provinces.MergeKeepsEveryPolygon | src/components/TotalPM10map.js:107-122 | grouping by prefix loses and duplicates no polygon: the province features hold as many polygons as the features contribute |
| Provinces.Shown | src/components/TotalPM10map.js:156-159 | the value a province shows, if any; `Provinces.ShownMeans` proves that over the province means a feature shows a value exactly when some sample carries its province, the mean of that province's samples |
| Provinces.SampleOf | src/components/TotalPM10map.js:88-96 | a row is kept exactly when its first token is non-empty and its value numeric, and it then carries its province and value |
| Provinces.AvgValues | src/components/TotalPM10map.js:103 | one value per province in `provinceAvg` |
| Provinces.AvgValuesAreMeans | src/components/TotalPM10map.js:103 | `values` lists exactly the province means, one per province |
| Provinces.KeysCount | src/components/TotalPM10map.js:97-103 | there are as many distinct provinces as rollup keys |
| Provinces.DomainCoversMeans | src/components/TotalPM10map.js:123-126 | `values` is empty exactly when no row is kept, the domain then falls back, and otherwise it spans every province mean |
| Scales.ThresholdIndex | src/components/SeasonalWindmap.js:104-106 | a threshold scale has one more bucket than thresholds |
| Scales.ThresholdIndexBrackets | src/components/SeasonalWindmap.js:104-106 | over ascending thresholds, bucket i holds exactly the values from threshold i-1 up to below threshold i |
| Scales.ThresholdIndexCounts | src/components/SeasonalWindmap.js:104-106 | the bucket index counts the thresholds at or below the value |
| Scales.ThresholdIndexMonotone | src/components/SeasonalWindmap.js:104-106 | a larger value never falls in a lower bucket |
| Scales.Min | src/components/SeoulSeasonHeatmap.js:71 | d3.min of a non-empty list is a member at or below every member |
| Scales.Max | src/components/SeoulSeasonHeatmap.js:72 | d3.max of a non-empty list is a member at or above every member |
| Scales.ExtentKept | src/components/SeoulSeasonHeatmap.js:63-72 | adding values that lie between values already present changes neither the minimum nor the maximum |
| Scales.ExtentOr | src/components/TotalPM10map.js:125 | the domain is the fallback for no values, and otherwise runs from a value to a value and spans them all |
| TotalPm10Map.YearFilter | src/components/TotalPM10map.js:79-86 | under "전체" every row passes; under "21년", "22년" or "23년" exactly the rows dated in 2021, 2022 or 2023 |
| TotalPm10Map.YearPasses | src/components/TotalPM10map.js:79-86 | the year test; `TotalPm10Map.YearFilter` proves which rows each button lets through |
| TotalPm10Map.RowsKept | src/components/TotalPM10map.js:81-96 | a sample is kept exactly when some row passes the year filter, has a non-empty first token and a numeric PM10, and the sample is that row's province and value |
| TotalPm10Map.Prepare | src/components/TotalPM10map.js:81-94 | `rowsRaw[i]`; `TotalPm10Map.RowsKept` proves which samples the filter keeps |
| TotalPm10Map.AllYearsDropsNothing | src/components/TotalPM10map.js:86 | under "전체" the year filter drops no row |
| TotalPm10Map.QuantizeThresholds | src/components/TotalPM10map.js:123-126 | seven colours need six thresholds |
| TotalPm10Map.QuantizeSteps | src/components/TotalPM10map.js:123-126 | the thresholds cut the domain into seven equal steps, and ascend over a proper domain |
| TotalPm10Map.StepRises | src/components/TotalPM10map.js:123-126 | a later threshold is larger |
| TotalPm10Map.ShadeRange | src/components/TotalPM10map.js:123-126 | a value gets one of seven shades, a larger value is never lighter, and the domain's ends get the lightest and the darkest |
| TotalPm10Map.Shade | src/components/TotalPM10map.js:123-126 | the shade index of `color(v)`; `TotalPm10Map.ShadeRange` proves it is one of seven, monotone, with the domain's ends at the two extremes |
| TotalPm10Map.FillOf | src/components/TotalPM10map.js:156-159 | the fill is "#eee" exactly when the province has no average, and otherwise the shade of its average |
| TotalPm10Map.DomainOfMeans | src/components/TotalPM10map.js:123-126 | without kept rows the domain is [0, 100]; otherwise every province average lies inside it |
| TotalPm10Map.Domain | src/components/TotalPM10map.js:125 | `values.length ? d3.extent(values) : [0, 100]`; `TotalPm10Map.DomainOfMeans` proves every province average lies inside it |
| SeasonalRainmap.SeasonFiltersPartition | src/components/SeasonalRainmap.js:51-56 | a valid date passes the filter of exactly one season button, and an invalid date (month NaN) passes none |
| SeasonalRainmap.SeasonPasses | src/components/SeasonalRainmap.js:51-56 | the season test; `SeasonalRainmap.SeasonFiltersPartition` proves a date passes exactly one season, and an invalid date none |
| SeasonalRainmap.RowsKept | src/components/SeasonalRainmap.js:53-65 | a sample is kept exactly when some row falls in one of the season's months, has a non-empty first token and a numeric `일강수량(mm)`, and the sample is that row's province and rainfall |
| SeasonalRainmap.Prepare | src/components/SeasonalRainmap.js:53-64 | `rowsRaw[i]`; `SeasonalRainmap.RowsKept` proves which samples the filter keeps |
| SeasonalRainmap.PositionInRange | src/components/SeasonalRainmap.js:93-94 | a value inside the domain sits in [0, 1] along the colour ramp, the ends at 0 and 1 |
| SeasonalRainmap.Position | src/components/SeasonalRainmap.js:94 | the ramp position of a value; `SeasonalRainmap.PositionInRange` proves a value inside the domain sits in [0, 1] |
| SeasonalRainmap.Domain | src/components/SeasonalRainmap.js:93 | `values.length ? d3.extent(values) : [0, 30]`; `SeasonalRainmap.MeansOnRamp` proves every province mean lies inside it |
| SeasonalRainmap.MeansOnRamp | src/components/SeasonalRainmap.js:66-94 | every province's mean rainfall lies inside the domain and so on the ramp |
| SeasonalRainmap.FillOf | src/components/SeasonalRainmap.js:119-122 | "#eee" without an average, else the ramp position of the average; `SeasonalRainmap.MeansOnRamp` proves every average lies inside the domain, so on the ramp |
| SeasonalWindmap.Prepare | src/components/SeasonalWindmap.js:54-67 | a row is kept exactly when it falls in the season, has a non-empty first token and numeric wind speed and direction, and it then carries its province and speed |
| SeasonalWindmap.AvgSpeedsOfRows | src/components/SeasonalWindmap.js:69-83 | every province with a kept row has a `windMap` entry whose `avgSpeed` is the mean of its speeds, between the slowest and the fastest |
| SeasonalWindmap.AvgSpeeds | src/components/SeasonalWindmap.js:69-83 | the `avgSpeed` of each `windMap` entry; `SeasonalWindmap.AvgSpeedsOfRows` proves it is the mean of the province's speeds |
| SeasonalWindmap.WeightSum | src/components/SeasonalWindmap.js:74 | the divisor is never 0, and is the sum of the speeds when that is not 0 |
| SeasonalWindmap.CalmWeight | src/components/SeasonalWindmap.js:74 | when every speed is 0 the divisor is 1 |
| SeasonalWindmap.CalmSum | src/components/SeasonalWindmap.js:74 | speeds that are all 0 sum to 0 |
| SeasonalWindmap.WindBuckets | src/components/SeasonalWindmap.js:104-106 | the six colours are exactly the speeds below 5, 5–10, 10–15, 15–20, 20–30 and from 30 on |
| SeasonalWindmap.Colour | src/components/SeasonalWindmap.js:104-106 | `color(speed)`; `SeasonalWindmap.WindBuckets` proves which speeds get each colour |
| SeasonalWindmap.FillOf | src/components/SeasonalWindmap.js:143-146 | "#eee" without a wind entry, else the colour of the mean speed; `SeasonalWindmap.ColouredProvinces` proves a province has an entry, and so a colour, exactly when some kept row resolves to it |
| SeasonalWindmap.ColouredProvinces | src/components/SeasonalWindmap.js:67-83 | a province has a wind entry exactly when some kept row resolves to it |
| TotalWindmap.RowsKept | src/components/TotalWindmap.js:52-69 | a sample is kept exactly when some row passes the year filter, has a non-empty first token and a numeric `최대 풍속(m/s)`, and the sample is its province and that value |
| TotalWindmap.WindMapHasNoSpeed | src/components/TotalWindmap.js:76-91 | `windMap` has the keys of `provinceAvg` but no entry has a speed, since the rows carry no `windSpeed`; the label of such a province throws |
| TotalWindmap.WindMapAsWritten | src/components/TotalWindmap.js:76-91 | `windMap` as written; `TotalWindmap.WindMapHasNoSpeed` proves no entry has a speed |
| TotalWindmap.SameKeys | src/components/TotalWindmap.js:70-91 | a province is a rollup key exactly when some kept row has it |
| TotalWindmap.AllMissing | src/components/TotalWindmap.js:80 | d3.mean of values that are all missing is undefined |
| TotalWindmap.KeptRowThrows | src/components/TotalWindmap.js:189-192 | the label of any province with a kept row throws a TypeError |
| TotalWindmap.LabelAsWritten | src/components/TotalWindmap.js:189-192 | the label as written; `TotalWindmap.KeptRowThrows` proves it throws for every province with a kept row |
| TotalWindmap.LabelCounterexample | src/components/TotalWindmap.js:189-192 | one 서울 row of speed 7 gives an average of 7 but a label that throws |
| TotalWindmap.LabelsShowMeans | src/components/TotalWindmap.js:152-155 | with `windMap` built from `value`, nothing throws: a province with a kept row shows its mean maximum speed and that speed's bucket colour, the others are blank and "#eee" |
| TotalWindmap.WindMap | src/components/TotalWindmap.js:76-91 | `windMap` built from `value`; `TotalWindmap.LabelsShowMeans` proves the labels over it show each province's mean |
| TotalWindmap.Label | src/components/TotalWindmap.js:189-192 | the label over the corrected `windMap`; `TotalWindmap.LabelsShowMeans` proves it never throws, shows the province's average when it has one and is blank otherwise |
| KoreaMapPower.FullRegion | src/components/KoreaMapPower.js:40-45 | the full region exists exactly when the first token is an abbreviation (looked up strictly, without fallback) and a non-empty second token follows, and it is then "long province name" + " " + second token |
| KoreaMapPower.Prepare | src/components/KoreaMapPower.js:37-49 | the map and filter of the 2021 rows; `KoreaMapPower.RegionsStartWithProvince` proves every kept full region starts with a province name, never "undefined" |
| KoreaMapPower.MaxOfFlags | src/components/KoreaMapPower.js:54 | d3.max of 0/1 flags is 0 or 1, and is 1 exactly when some flag is 1 |
| KoreaMapPower.Flag | src/components/KoreaMapPower.js:54 | `d.발전소 > 0 ? 1 : 0`; `KoreaMapPower.PresenceFlags` proves what `presence` makes of the flags |
| KoreaMapPower.MaxOf | src/components/KoreaMapPower.js:54 | d3.max; `KoreaMapPower.MaxOfFlags` proves the maximum of 0/1 flags is 1 exactly when some flag is |
| KoreaMapPower.PresenceFlags | src/components/KoreaMapPower.js:52-56 | `presence` is defined exactly for the regions with a row, is 0 or 1, and is 1 exactly when one of the region's rows has `발전소 > 0` |
| KoreaMapPower.Presence | src/components/KoreaMapPower.js:52-56 | `presence`; `KoreaMapPower.PresenceFlags` proves its keys and values |
| KoreaMapPower.RegionsStartWithProvince | src/components/KoreaMapPower.js:45 | every kept full region starts with a province name, never with "undefined" |
| KoreaMapPower.BubblesMarkPlants | src/components/KoreaMapPower.js:89-95 | a feature gets a bubble exactly when its code prefix names a province and some 2021 row of "province feature-name" has a positive `발전소`; a feature of an unknown prefix never gets one |
| KoreaMapPower.FeatureRegion | src/components/KoreaMapPower.js:91-93 | the `full` name of a feature, "undefined …" for an unknown prefix; `KoreaMapPower.BubblesMarkPlants` proves such a feature never gets a bubble |
| KoreaMapPower.HasBubble | src/components/KoreaMapPower.js:94 | `presence.get(full) === 1`; `KoreaMapPower.BubblesMarkPlants` proves when it holds |
| KoreaMapPower.Bubbles | src/components/KoreaMapPower.js:90-95 | the features that get a circle; `KoreaMapPower.BubblesMarkPlants` proves which they are |
| GradientEncoding.NormLastWins | src/components/GradientEncoding.js:12-14 | when several keys lower-case alike, the last of them gives the value |
| GradientEncoding.NormKeys | src/components/GradientEncoding.js:12-14 | the keys of the normalised row are exactly the lower-cased keys of the input |
| GradientEncoding.Norm | src/components/GradientEncoding.js:12-14 | the normalised row; `GradientEncoding.NormKeys` proves its keys and `GradientEncoding.NormLastWins` which entry gives each value |
| GradientEncoding.NoUpperKey | src/components/GradientEncoding.js:12-22 | after lower-casing no key is "PM10", so `row["PM10"]` is always undefined |
| GradientEncoding.ParseDay | src/components/GradientEncoding.js:21 | a parsed day is a calendar day |
| GradientEncoding.Pm10Fallback | src/components/GradientEncoding.js:22 | the value is `+row.pm10` when that is a non-zero number and NaN otherwise: both fallbacks are dead, so a PM10 of 0 is dropped |
| GradientEncoding.Parse | src/components/GradientEncoding.js:16-25 | a row is kept exactly when it has a date and a numeric PM10 |
| GradientEncoding.DateOf | src/components/GradientEncoding.js:18-21 | `row.date \|\| row["일시"]`, parsed; `GradientEncoding.Parse` proves a row is kept exactly when it gives a date and a numeric PM10 |
| GradientEncoding.DayLessIsStrictOrder | src/components/GradientEncoding.js:34 | the comparator `a.date - b.date` orders days strictly |
| GradientEncoding.DayLess | src/components/GradientEncoding.js:34 | `a.date - b.date < 0` on days; `GradientEncoding.DayLessIsStrictOrder` proves it is a strict total order |
| GradientEncoding.Unsorted | src/components/GradientEncoding.js:26-33 | one point per distinct day |
| GradientEncoding.UnsortedDistinct | src/components/GradientEncoding.js:26-33 | no two points share a day |
| GradientEncoding.AvgByDatePoints | src/components/GradientEncoding.js:26-34 | one point per distinct day, strictly ascending by date, and a point is present exactly when its day has kept rows and its value is their mean |
| GradientEncoding.AvgByDate | src/components/GradientEncoding.js:9-34 | `avgByDate`; `GradientEncoding.AvgByDatePoints` proves one point per day, ascending, each the mean of its day |
| GradientEncoding.UnsortedPoints | src/components/GradientEncoding.js:26-33 | before the sort a point is present exactly when its day has kept rows and its value is their mean |
| GradientEncoding.DrawnCutOff | src/components/GradientEncoding.js:56-65 | `yMax` is at most 300, and a point is drawn exactly when it is at most `yMax`: every point when the maximum is at most 300, else exactly those at most 300 |
| GradientEncoding.YMax | src/components/GradientEncoding.js:56 | `yMax`; `GradientEncoding.DrawnCutOff` proves it is at most 300 |
| GradientEncoding.Drawn | src/components/GradientEncoding.js:132 | the points the line passes through; `GradientEncoding.DrawnCutOff` proves which they are and `GradientEncoding.DrawnInOrder` that they ascend by date |
| GradientEncoding.FilterKeepsOrder | src/components/GradientEncoding.js:132 | filtering a strictly ascending list keeps it strictly ascending |
| GradientEncoding.DrawnInOrder | src/components/GradientEncoding.js:132 | the drawn points are in strictly ascending date order |
| Aggregate.Distinct | src/components/LogitDotPlot.js:12-13 | `[...new Set(xs)]` holds each element of `xs` once, holds nothing else, and lists the elements in the order of their first appearance in `xs` |
| Aggregate.FirstIndex | src/components/LogitDotPlot.js:12-13 | the first position of an element: it holds the element and no earlier position does |
| Aggregate.MapSeq | src/components/LogitDotPlot.js:12 | `xs.map(f)`; `Aggregate.InMapSeq` proves a value is among the mapped values exactly when some row maps to it |
| Aggregate.Where | src/components/LogitDotPlot.js:17 | `rows.filter(r => key(r) === k)` keeps exactly the rows whose key is `k`, and is non-empty iff some row has key `k` |
| Aggregate.Filter | src/components/TotalPM10map.js:96 | `rows.filter(p)` keeps exactly the rows satisfying `p` |
| Aggregate.Collect | src/components/KoreaMapPower.js:39-49 | a `map` to a nullable value followed by a truthiness filter keeps exactly the values produced by some row |
| Aggregate.Keys | src/components/TotalPM10map.js:97-101 | the keys of a d3 group are the distinct key values of the rows, each once, in the order of their first appearance |
| Aggregate.DistinctCard | src/components/TotalPM10map.js:8-47 | a duplicate-free list that enumerates a set is as long as the set is large |
| Aggregate.InMapSeq | src/components/LogitDotPlot.js:12-13 | a value is among the mapped keys iff some row maps to it |
| Aggregate.Mean | src/components/TotalPM10map.js:99 | `d3.mean` is undefined exactly for an empty list of numbers |
| Aggregate.Numbers | src/components/TotalPM10map.js:99 | `d3.mean` ignores NaN values: the numbers kept are no more than the values, and all of them when every value is a number |
| Aggregate.NumbersEmpty | src/components/TotalPM10map.js:99 | no value is kept iff every value is NaN |
| Aggregate.MeanNum | src/components/TotalPM10map.js:99 | `d3.mean` over numbers and NaN; `Aggregate.NumbersEmpty` proves it is undefined exactly when every value is NaN, and `Aggregate.MeanBetween` that a defined mean lies between the smallest and largest number |
| Aggregate.GroupMean | src/components/TotalPM10map.js:97-101 | the rollup of means; `Aggregate.GroupMeanDefined` proves every group's mean is defined when every value is numeric, and `Provinces.ProvinceMeanBetween` that a mean lies between the group's smallest and largest value |
| Aggregate.GroupMeanDefined | src/components/TotalPM10map.js:96-101 | when every value is numeric, every group's mean is defined |
| Aggregate.NumbersKeepsNumeric | src/components/TotalPM10map.js:99 | a list with one number in it has a defined set of numbers to average |
| Aggregate.SumConcat | src/components/YearHierarchicalBar.js:20-21 | `d3.sum` over two lists joined is the sum of the two sums |
| Aggregate.Sum | src/components/YearHierarchicalBar.js:20 | `d3.sum`; `Aggregate.SumConcat` and `Aggregate.SumPartition` prove how sums split over joined lists and over groups |
| Aggregate.SumGroupsCons | src/components/YearHierarchicalBar.js:12-21 | adding one row to the data adds its value to the group sums when its key is among the groups |
| Aggregate.SumPartition | src/components/YearHierarchicalBar.js:12-21 | summing per group over groups that cover every row's key gives the sum over all rows |
| Aggregate.GroupSums | src/components/YearHierarchicalBar.js:18-20 | one sum per group key; `Aggregate.GroupSumsTotal` proves the group sums add up to the sum over all rows |
| Aggregate.SumOfGroupSums | src/components/YearHierarchicalBar.js:21 | adding up the group sums gives the sum over the listed groups |
| Aggregate.GroupSumsTotal | src/components/YearHierarchicalBar.js:12-21 | the sums of the groups of a d3 group add up to the sum over all rows |
| Aggregate.WhereDetermined | src/components/YearHierarchicalBar.js:15-18 | when the inner key determines the outer one, grouping by the outer key and then the inner one gives the same rows as grouping by the inner key alone |
| Aggregate.SumGroupsEmpty | src/components/YearHierarchicalBar.js:20 | with no rows, every group sum is 0 |
| Aggregate.SumBounds | src/components/SeoulSeasonHeatmap.js:68 | the sum of values all between `lo` and `hi` lies between `n·lo` and `n·hi` |
| Aggregate.SumBoundsAt | src/components/SeoulSeasonHeatmap.js:68 | the same bound, for values given by position |
| Aggregate.MeanBetween | src/components/SeoulSeasonHeatmap.js:68 | the mean of a non-empty list lies between its minimum and its maximum |
| Sorting.Insert | src/components/RegionMonthMap.js:36 | inserting one element gives a list with the same elements plus that one |
| Sorting.SortBy | src/components/RegionMonthMap.js:36 | the sort is a permutation of its input |
| Sorting.InsertSorted | src/components/RegionMonthMap.js:36 | inserting an element whose key is new into a strictly sorted list keeps it strictly sorted, under any strict total order |
| Sorting.PrependSorted | src/components/RegionMonthMap.js:36 | an element below every key of a strictly sorted list can go in front of it |
| Sorting.SortBySorted | src/components/GradientEncoding.js:34 | a list whose keys are distinct comes out strictly ascending under any strict total order |
| Sorting.LexIrreflexive | src/components/RegionMonthMap.js:36 | no string is below itself in `d3.ascending` on strings |
| Sorting.LexTransitive | src/components/RegionMonthMap.js:36 | string order is transitive |
| Sorting.LexTotal | src/components/RegionMonthMap.js:36 | of two different strings one is below the other |
| Sorting.LexLessIsStrictOrder | src/components/RegionMonthMap.js:36 | string comparison is a strict total order, so it may key the sort |
| Js.TrimStart | src/components/TotalPM10map.js:88 | the leading part of `trim` is a suffix of the text that does not start with white space |
| Js.TrimEnd | src/components/TotalPM10map.js:88 | the trailing part of `trim` is a prefix of the text that does not end with white space |
| Js.Trim | src/components/TotalPM10map.js:88 | `trim`; `Js.TrimStart` and `Js.TrimEnd` prove what each end keeps, and `Js.TrimKeeps` that text without white space at its ends is unchanged |
| Js.TrimKeeps | src/components/TotalPM10map.js:88 | text with no white space at either end is left alone by `trim` |
| Js.Slice | src/components/GroupedBarChart.js:22-23 | `s.slice(a, b)` within bounds is the characters `a` to `b`, and is never longer than `b - a` |
| Js.FirstSpace | src/components/TotalPM10map.js:88 | split cuts at the first space: a space with no space before it |
| Js.Split | src/components/TotalPM10map.js:88 | `split(" ")` gives at least one piece and no piece holds a space |
| Js.JoinSplit | src/components/TotalPM10map.js:88 | joining the pieces of `split(" ")` with spaces gives the text back |
| Js.SplitJoin | src/components/TotalPM10map.js:88 | splitting space-free pieces joined with spaces gives the pieces back, so the first token is the text before the first space |
| Js.Join | src/components/KoreaMapPower.js:45 | joining with single spaces; `Js.JoinSplit` and `Js.SplitJoin` prove it inverts `split(" ")` |
| Js.FirstToken | src/components/TotalPM10map.js:88 | `trim().split(" ")[0]`; `Js.SplitJoin` proves it is the text before the first space |
| Js.LowerAscii | src/components/GradientEncoding.js:13 | `toLowerCase` on ASCII capitals; `GradientEncoding.NormKeys` proves the normalised row's keys are exactly the lower-cased keys, and `GradientEncoding.NoUpperKey` that none of them is "PM10" |
| Js.DotIndex | src/components/GroupedBarChart.js:24 | the decimal point of a numeric text is its first `.`, or the end when there is none |
| Js.UnsignedDigits | src/components/TotalPM10map.js:92 | digits without a point are a whole decimal literal, read as their value |
| Js.ToNumberDigits | src/components/TotalPM10map.js:92 | unary plus reads a run of digits as its decimal value |
| Js.ToNumberNegated | src/components/TotalPM10map.js:92 | unary plus reads '-' and a run of digits as the negated value |
| Js.ToNumberNaN | src/components/TotalPM10map.js:92 | text whose first character after trimming is not a digit, a sign or a point is NaN |
| Js.ToNumber | src/components/TotalPM10map.js:92 | ToNumber on text; `Js.ToNumberDigits`, `Js.ToNumberNegated` and `Js.ToNumberNaN` prove its values on digits, on negated digits and on other text |
| Js.Plus | src/components/TotalPM10map.js:92 | unary plus on a cell, NaN for a missing column; `Js.ToNumberDigits` proves a cell of digits reads as its value |
| Js.DatePartDigits | src/components/GroupedBarChart.js:22-23 | the digits `slice(a, b)` cuts out of a cell read as their decimal value |
| Js.DatePart | src/components/GroupedBarChart.js:22-23 | `+d[name]?.slice(a, b)`; `Js.DatePartDigits` proves a slice of digits reads as its value |
| Js.Truthy | src/components/GroupedBarChart.js:22-24 | truthiness of a number; `GroupedBarChart.Pm10Fallback` proves a PM10 of 0 is not truthy and falls through |
| Js.Or | src/components/GroupedBarChart.js:22-24 | `a \|\| b` on numbers; `GroupedBarChart.Pm10Fallback` and `YearHierarchicalBar.ZeroPm10Dropped` prove that a 0 falls through to the absent column |
| Js.Decimal | src/components/NonSummerScatterPlot.js:33 | `${n}` of a natural number is a non-empty string of digits |
| Js.DecimalValue | src/components/NonSummerScatterPlot.js:33 | the digits of `${n}` read back as `n` |
| Js.Zeros | src/components/NonSummerScatterPlot.js:33 | the padding is `k` zero digits |
| Js.PadStart | src/components/NonSummerScatterPlot.js:33 | zero-padding reaches the width when the text is shorter and leaves a longer text as it is |
| Js.ZerosValue | src/components/NonSummerScatterPlot.js:33 | leading zeros do not change the value of digits |
| Js.ZerosOnly | src/components/NonSummerScatterPlot.js:33 | zeros alone read as 0 |
| Js.DecimalLength | src/components/NonSummerScatterPlot.js:33 | a number below `10^k` has at most `k` digits |
| Js.PaddedValue | src/components/NonSummerScatterPlot.js:33 | a number below `10^w` padded to width `w` is exactly `w` digits that read back as the number |
| SeasonBarChart.FinalData | src/components/SeasonBarChart.js:19-30 | there is one bar per season value other than null |
| SeasonBarChart.CountIsMultiplicity | src/components/SeasonBarChart.js:21 | `v.length` of a group is the number of rows carrying that season value |
| SeasonBarChart.Count | src/components/SeasonBarChart.js:21 | `v.length` of a group; `SeasonBarChart.CountIsMultiplicity` proves it is the number of rows with that season |
| SeasonBarChart.FinalDataEntries | src/components/SeasonBarChart.js:19-30 | a `{season, count}` bar exists iff the season is not null, some row has it, and the count is the number of such rows; every count is at least 1 |
| SeasonBarChart.SeasonsDistinct | src/components/SeasonBarChart.js:19-28 | no season value gets two bars |
| SeasonBarChart.Seasons | src/components/SeasonBarChart.js:19-28 | the group keys after the null filter; `SeasonBarChart.SeasonsDistinct` proves none is listed twice and `SeasonBarChart.FinalDataEntries` which seasons are listed |
| SeasonBarChart.FilterKeepsDistinct | src/components/SeasonBarChart.js:27-28 | filtering a duplicate-free list keeps it duplicate-free |
| SeasonBarChart.TotalIsCountGroups | src/components/SeasonBarChart.js:30 | the total of the bars is the sum of the counts of their seasons |
| SeasonBarChart.CountGroupsCons | src/components/SeasonBarChart.js:19-23 | one more row adds 1 to the counts exactly when its season is among the bars |
| SeasonBarChart.CountGroupsIsFilter | src/components/SeasonBarChart.js:19-23 | counting over distinct seasons counts the rows whose season is among them |
| SeasonBarChart.CountGroupsEmpty | src/components/SeasonBarChart.js:19-23 | with no rows every count is 0 |
| SeasonBarChart.FilterAgree | src/components/SeasonBarChart.js:27-28 | two tests that agree on every row keep the same number of rows |
| SeasonBarChart.TotalCountsNonNullRows | src/components/SeasonBarChart.js:19-30 | the bars add up to the number of rows whose season is not null, undefined ones included |
| LogitDotPlot.GradeColoursApart | src/components/LogitDotPlot.js:24-26 | 매우나쁨 and 나쁨 each have a colour of their own and every other grade shares the third |
| LogitDotPlot.GradeColour | src/components/LogitDotPlot.js:24-26 | the marker colour of a grade; `LogitDotPlot.GradeColoursApart` proves 매우나쁨 and 나쁨 each get a colour of their own while every other grade shares one |
| LogitDotPlot.TraceOf | src/components/LogitDotPlot.js:16-28 | a grade's trace is named after the grade, has the grade's colour and one x, y and text entry per row of that grade |
| LogitDotPlot.Chart | src/components/LogitDotPlot.js:10-31 | nothing is drawn exactly when no rows are loaded |
| LogitDotPlot.TracePoints | src/components/LogitDotPlot.js:16-28 | a (coefficient, feature, p) marker is in grade g's trace iff a row of grade g has those values |
| LogitDotPlot.ChartTraces | src/components/LogitDotPlot.js:12-15 | the traces have distinct names, one per grade present, and the features are listed once each, exactly those present |
| LogitDotPlot.TraceNamesDistinct | src/components/LogitDotPlot.js:12-15 | no two traces have the same name |
| LogitDotPlot.TraceNamed | src/components/LogitDotPlot.js:12-15 | there is a trace named g iff some row has grade g |
| LogitDotPlot.ChartShape | src/components/LogitDotPlot.js:12-15 | the traces follow `grades` in order, and the feature list is `features` |
| LogitDotPlot.EveryRowPlotted | src/components/LogitDotPlot.js:15-31 | the traces hold one marker per row of the file between them |
| HomePage.OrderDistinct | src/pages/HomePage.js:166-171 | `order` has 23 names, no two alike |
| HomePage.IndexOf | src/pages/HomePage.js:195 | `indexOf` is -1 exactly when the element is absent, and otherwise the first position holding it |
| HomePage.IndexOfUnique | src/pages/HomePage.js:204 | the only position holding an element is its `indexOf` |
| HomePage.DeepLinkRoundTrip | src/pages/HomePage.js:202-225 | the `?cont=` name written for panel i is found by `order.indexOf` at i again |
| HomePage.MountedLookup | src/pages/HomePage.js:187-219 | once mounted, a rendered panel is found at its own index by the observer and by the query jump |
| HomePage.Rendered | src/pages/HomePage.js:262-473 | the panels the page renders; `HomePage.Navigator.Mount` registers exactly these, and `HomePage.MountedLookup` proves each is found at its own index |
| HomePage.Registered | src/pages/HomePage.js:198 | the panels handed to the observer are exactly the registered ones |
| HomePage.UnmountedFindsNothing | src/pages/HomePage.js:189-207 | before any panel is registered the observer is handed nothing and the query jump finds nothing, whatever the address |
| HomePage.QueryTarget | src/pages/HomePage.js:202-207 | the query jump has a target exactly when `cont` names a panel of `order` that is registered, and the target is that panel's index |
| HomePage.KeyTarget | src/pages/HomePage.js:228-235 | ArrowRight moves on only below the last panel and ArrowLeft back only above the first, so the target stays within `order` |
| HomePage.WorldMapX | src/pages/HomePage.js:209-216 | the map offset after a change of `active`; `HomePage.WorldMapSteps` proves the first four panels put the map at 1000, 0, -1000 and -2000 |
| HomePage.WorldMapSteps | src/pages/HomePage.js:209-216 | the first four panels put the map at 1000, 0, -1000 and -2000 |
| HomePage.StickyY | src/pages/HomePage.js:183 | the sticky offset is never negative, and is 0 or `scrollY - 350`, whichever is larger |
| HomePage.ProgressInRange | src/pages/HomePage.js:250 | the progress ratio runs from 0 on the first panel to 1 on the last and rises with the panel |
| HomePage.Progress | src/pages/HomePage.js:250 | `active/(order.length-1)`; `HomePage.ProgressInRange` proves it runs from 0 to 1 and rises with the panel |
| HomePage.WheelScroll | src/pages/HomePage.js:150-155 | the new `scrollLeft`; `HomePage.WheelOnlyVertical` proves a wheel that scrolls was mostly vertical and scrolls by exactly `deltaY` |
| HomePage.WheelOnlyVertical | src/pages/HomePage.js:150-155 | a wheel that scrolls was mostly vertical, with a non-zero `deltaY`, and scrolls by exactly `deltaY` |
| HomePage.Navigator.constructor | src/pages/HomePage.js:173-178 | the page starts with no panel registered, the first panel active, the offsets 0, the address's `cont`, nothing observed, no wheel listener and the loading screen shown |
| HomePage.Navigator.SetPanel | src/pages/HomePage.js:219 | `setPanel` stores a present element at its index, ignores a null one, and changes nothing else |
| HomePage.Navigator.Mount | src/pages/HomePage.js:245-437 | once the data has loaded, the page past the loading screen is committed and the ref callbacks register every rendered panel at its index, panels 16 and 17 not |
| HomePage.Navigator.OnIntersect | src/pages/HomePage.js:189-200 | a visible panel becomes active at its index in the registry when the observer was handed it; otherwise the callback never fires and `active` stays |
| HomePage.Navigator.Observe | src/pages/HomePage.js:198 | the observer is handed exactly the panels registered when its effect runs |
| HomePage.Navigator.RunEffects | src/pages/HomePage.js:145-207 | after a commit the wheel listener is attached exactly when the scroller exists, the observer watches exactly the registered panels, and the query jump scrolls to the panel the address names when it is registered |
| HomePage.Navigator.QueryJump | src/pages/HomePage.js:202-207 | the page scrolls to the panel the address names when it is registered, and does nothing otherwise |
| HomePage.Navigator.Goto | src/pages/HomePage.js:222-225 | `goto` throws exactly on an unregistered panel; otherwise it scrolls to it and writes its name to the address |
| HomePage.Navigator.GotoGuarded | src/pages/HomePage.js:202-225 | with the query jump's guard, `goto` never throws and scrolls to a panel only when it is registered |
| HomePage.Navigator.OnKey | src/pages/HomePage.js:228-235 | an arrow key goes to the neighbouring panel within `order`, and does nothing otherwise |
| HomePage.Navigator.OnActiveChange | src/pages/HomePage.js:209-216 | the map offset follows the active panel |
| HomePage.Navigator.OnScroll | src/pages/HomePage.js:181-185 | the sticky offset follows the window's scroll |
| HomePage.Navigator.OnWheel | src/pages/HomePage.js:145-158 | when the listener is attached, the default is prevented exactly for a mostly vertical wheel, which scrolls the row by `deltaY`; without it nothing happens |
| HomePage.DeepLinkReturns | src/pages/HomePage.js:187-225 | with the effects depending on `data` and `topo`: seeing a panel, clicking its dot and reloading the address it writes scrolls back to that panel |
| HomePage.VisitAndClick | src/pages/HomePage.js:187-225 | with the effects depending on `data` and `topo`, clicking the dot of a rendered panel writes its name to the address |
| HomePage.Reopen | src/pages/HomePage.js:202-245 | with the effects depending on `data` and `topo`, loading an address naming a rendered panel scrolls to that panel |
| HomePage.GotoCounterexample | src/pages/HomePage.js:417-483 | the dot of panel 16 throws on the mounted page; ArrowRight on panel 15 targets panel 16 |
| HomePage.OpenAsWritten | src/pages/HomePage.js:145-245 | as written, the effects run once, on the loading screen: after the panels mount the observer watches nothing, no wheel listener is attached and nothing has scrolled |
| HomePage.LoadAsWritten | src/pages/HomePage.js:145-245 | as written, whatever the address, the panel in view and the wheel: the deep link never scrolls, `active` stays 0, ArrowRight aims at panel 1, and `scrollLeft` stays 0 |

## Left out

- Rendering: d3 scales applied to pixels, projections, `geoPath` and
  centroids, axes, transitions, zoom, the sunburst `partition` and `arc`
  geometry, tooltips, and Plotly. Only the data these receive is modelled.
- The wind-direction circular mean and the arrow end points
  (`src/components/SeasonalWindmap.js:73-79`). They need trigonometry and
  `atan2` on floating point. Only the mean speed and the speed-weight
  divisor are modelled.
- Floating point. Measurements are exact reals, so rounding in sums and
  means is not captured. Number formatting (`toFixed`, `toExponential`)
  is left out, and the Plotly text of a marker is modelled as the p value
  it formats.
- Infinity and JavaScript number syntax beyond optionally signed decimal
  literals (exponents, hexadecimal, `Infinity`). `Js.ToNumber` gives NaN
  for those.
- Date parsing and time zones. `new Date(text)`, `getMonth` and `getDate`
  depend on the host time zone, so a date is given already decomposed. A
  `Date` object in a PM10 column reads as NaN.
- GradientEncoding.ParseDay: accepts only four digits, '-', two digits,
  '-', two digits naming a calendar day. `d3.timeParse("%Y-%m-%d")` is
  wider: it also takes one-digit month and day fields, and it rolls a day
  that does not exist over into the next valid one ("2021-02-30" becomes
  2021-03-02; "2021-13-01" and "2021-04-00" roll over too). The model gives
  no date for those texts, so their rows are dropped rather than counted
  on the rolled-over day.
- Js.LowerAscii: lower-cases the ASCII capitals only. `toLowerCase` on
  other scripts is not modelled. The column names involved are ASCII or
  Hangul, which has no case.
- Data loading (`d3.csv`, `d3.json`, `fetch`), `saveSvgAsPng`,
  `setInterval` timing, and the asynchronous state updates of React. The
  loaded rows are parameters. Each state update is applied at once, and a
  render is followed by its commit and then by the effects that run after
  it (`HomePage.Navigator.Mount`, then `HomePage.Navigator.RunEffects`).
- HomePage.Navigator: `IntersectionObserver`, `scrollIntoView` and
  `history.replaceState` are modelled as fields (the active index, the
  panel scrolled to, the `cont` of the address). The effect lifecycle is
  modelled by three more fields: `loaded` (the page past the loading
  screen is committed, so the scroller exists), `observed` (the panels
  handed to the observer) and `wheelBound` (the wheel listener is
  attached). `HomePage.Navigator.Mount` stands for the ref callbacks React
  calls on the rendered panels. `HomePage.Navigator.RunEffects` runs the
  wheel, observer and query-jump effects once, as their `[]`/`[ref]`
  dependencies make React do; their clean-up (`disconnect`,
  `removeEventListener`) on unmount is not modelled. The keyboard and
  world-map effects, which depend on `active`, are the methods
  `OnKey` and `OnActiveChange`. Styling and animation state are left out.
- HomePage.Navigator.OnKey: modelled with the guarded `goto`. The handler
  as written throws on the unregistered panel 16, as
  `HomePage.GotoCounterexample` shows.
- NonSummerScatterPlot.Prepare: copies the kept rows into a fresh array
  before attaching `년월` and `PM10_month`. In the source `raw.filter`
  shares its row objects with `raw`, so the kept rows of `raw` get the two
  fields as well. `raw` is not used after `setData(filtered)`
  (`src/components/NonSummerScatterPlot.js:41`), so nothing observes the
  difference.
- The in-place sorts (`arr.sort` in `src/components/RegionMonthMap.js:36`,
  `src/components/GradientEncoding.js:34`). They are modelled on values, so
  aliasing of the sorted array is not captured. Both sort keys are
  distinct, so the order is the same.
- The year lists that are sorted as text (`src/components/GroupedBarChart.js:48`,
  `src/components/SeoulSeasonHeatmap.js:94`). They are not modelled as a
  sort: the grid is stated per year. The descending node sort at
  `src/components/SeoulSeasonHeatmap.js:175` and at
  `src/components/YearHierarchicalBar.js:69` is layout only.
- SeasonBarChart.FinalData: drops the null key before building
  `{season, count}` rather than after. Filtering and mapping commute
  here, so the bars are the same.
- The in-place `.reverse()` of d3's shared colour scheme
  (`src/components/GroupedBarChart.js:6`). It changes a library constant
  on every render. The colours are not modelled; the legend buckets are.
- Colour values. The PM10 map's `scaleQuantize` is modelled as its
  thresholds and bucket index. The rainfall map's interpolated blue is
  modelled as the position along the domain it receives. The
  `color(undefined)` fill that the wind map as written gives each province
  with data is not modelled. Only its label, which throws, is.
- Each `지역` text is assumed present: a row without one makes `.trim()`
  throw in the source.
- `Provinces.CodeOfAbbreviation` is a ghost table used only to state that
  the two province tables agree. The source has no such table.
- The non-summer scatter plot's `getSeason`
  (`src/components/NonSummerScatterPlot.js`) has the same body as the
  heatmap's. The model uses the heatmap rule for both.
- `WorldMap.js`, `RegionScatterPlot.js`, `FeatureImportanceBar.js`,
  `RFConfusionHeatmap.js` and `App.js` are not part of this model. They
  are a spherical tour animation, plain load-and-plot charts, and a
  navigation flag.

## Findings

| source | as written | input that shows it | evidently intended | confidence | as-written member | corrected member |
|---|---|---|---|---|---|---|
| src/components/YearHierarchicalBar.js:69 | `d3.hierarchy(tree).sum(d=>d.value)` adds every node's own `value` to the sum of its children, but `buildHierarchy` has already set each season, year and root `value` to the sum of its children. Seasons come out doubled, years tripled and the root four times the total | one row with PM10 10: the month is 10, the season 20, the year 30 and the root 40 | only leaves carry a value to sum (`d => d.children ? 0 : d.value`), so every node keeps the total of its rows | not executed | YearHierarchicalBar.SummedValuesAsWritten, YearHierarchicalBar.SummedValuesCounterexample | YearHierarchicalBar.LeafSummedValues |
| src/components/RegionMonthMap.js:174-181 | the legend shows the red swatch as 비발전소 and the blue one as 발전소, but the bars (line 124) are red when the plant class wins | a month with plant mean 60 and non-plant mean 40 is drawn red, and the red swatch reads 비발전소 | the swatch of each colour names the class whose bars have that colour | not executed | RegionMonthMap.LegendAsWritten, RegionMonthMap.LegendNamesLoser, RegionMonthMap.LegendCounterexample | RegionMonthMap.Legend, RegionMonthMap.LegendNamesWinner |
| src/components/TotalWindmap.js:76-91 | `windMap` averages `d.windSpeed` over rows that carry only `province` and `value`, so every `avgSpeed` is undefined, and `wind.avgSpeed.toFixed(1)` on line 190 throws for every province with data | one 서울 row with a maximum wind speed of 7: its average is 7, and its label throws a TypeError | `windMap` built from `value`, so each province shows its mean maximum wind speed | not executed | TotalWindmap.WindMapAsWritten, TotalWindmap.LabelAsWritten, TotalWindmap.KeptRowThrows, TotalWindmap.LabelCounterexample | TotalWindmap.WindMap, TotalWindmap.Label, TotalWindmap.LabelsShowMeans |
| src/pages/HomePage.js:417-437 | the comment opened at line 417 runs to line 437, so panels 16 and 17 are never rendered or registered. `goto` (lines 222-225) dereferences `panelsRef.current[idx]` without the guard the query jump has | a click on the 17th dot calls `goto(16)`, which throws a TypeError; once the effects run after the panels mount (next row), ArrowRight on panel 15 throws the same way | `goto` skips an unregistered panel, as the query jump does | not executed | HomePage.Navigator.Goto, HomePage.GotoCounterexample | HomePage.Navigator.GotoGuarded, HomePage.Navigator.OnKey |
| src/pages/HomePage.js:145-207 | the wheel (lines 147-158), observer (189-200) and query-jump (203-207) effects depend on `[ref]` or `[]`, so they run once, after the first commit, which is the "Loading data..." screen of line 245. No panel and no scroller exists then: the observer is handed no panel, no wheel listener is attached and the query jump finds nothing, and none of them runs again once the data arrives | opening `?cont=five`: the page never scrolls to panel 5; whichever panel then comes into view, `active` stays 0, so ArrowRight aims at panel 1; a vertical wheel leaves `scrollLeft` at 0 | the three effects depend on `data` and `topo` as well, so they run once the panels are mounted | not executed | HomePage.OpenAsWritten, HomePage.LoadAsWritten | HomePage.DeepLinkReturns, HomePage.Reopen, HomePage.VisitAndClick |
