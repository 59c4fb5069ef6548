# From race records to chart geometry: a verified model

The repository shows race and KPI records as charts. Its own JavaScript groups records by
arrondissement and pages through rankings; the Highcharts 4.0.4 sources it ships turn the grouped
numbers into stacks, bars, arcs and lookup tables; a MySQL header it includes stores numbers as
bytes. This project models those algorithms in Dafny and proves what they are for.

`web/js/highcharts/highcharts-all.js` is the minified build of `highcharts.src.js`,
`modules/data.src.js` and `adapters/standalone-framework.src.js` of the same version. The rows below
cite the readable files.

| file | subject |
|---|---|
| `Stacks.dfy`, `StackTheorems.dfy`, `StackRuns.dfy` | the stacks of a value axis as values, and what holds of them over all series and all runs |
| `StackHistories.dfy` | what earlier builds leave behind, and when it matters |
| `StackMirror.dfy` | the opposite stacking order |
| `StackedAxis.dfy` | the stacking code itself: series, axis and stack items that are updated in place |
| `TooltipIndex.dfy` | the table from pixels to points |
| `Waterfall.dfy` | the waterfall series, whose balance is computed twice |
| `DataManager.dfy`, `Grouping.dfy` | the registry of datasets and its aggregations |
| `ArcPath.dfy` | splitting an arc into cubic pieces, and the outlines of a 3D pie slice |
| `StableSort.dfy` | the wrapper that makes any sort stable |
| `Animation.dfy` | the list of running animations and the interval that drives it |
| `ColumnGrouping.dfy` | how column series share a category |
| `DataColumns.dfy` | how the Data module deals out table columns |
| `ByteCodec.dfy` | byte order: stores, loads and sign extension |
| `SquareZone.dfy` | paging with clicks and replies in any order |
| `JsValues.dfy`, `Sequences.dfy` | JavaScript numbers, and facts about sequences |

## How the model reads the code

- Numbers are reals or integers. `correctFloat`, which rounds to 14 digits, is the identity, so that
  "exactly 100" means exactly 100. `null` is 0 in arithmetic; `undefined` becomes NaN, which makes
  every comparison false. Sine and cosine are arbitrary functions and pi is any positive number.
- Objects used as dictionaries are finite maps of their own properties. Where the order of the
  properties is visible, it is any order that visits each property once.
- A stack item's `total` of `null` and its missing `cum` are 0, which is what every reader makes of
  them. The nested `stacks[key][x]` is one map over cells (sign, stack key, x).
- Calls of code outside (step functions, callbacks, the platform's sort, replies of a server) may do
  anything their interface allows: a script, a comparator, a number of rows.
- A code of '751' and two more characters is compared with 75120 as JavaScript reads it: as digits, with an
  exponent, or as NaN. Values of records are numbers; a text would be concatenated and is not modelled.
- Integers of the byte macros are unbounded with explicit wrap-around; `>>` of a negative number is
  arithmetic, and `char` may be signed or not.

Automatic induction is switched off for every lemma, so each proof is the body that is written.

## What the code does that one might not expect

Each of these is proved. Where a property fails, the lemmas named give an input and the exact condition
under which it holds.

- Percent stacking: an undefined y throws the total of a pair away once the other stack exists
  (`UndefinedWipes`, `PairSumExact`). Cleared stacks of earlier builds count as existing, so redrawing
  unchanged data can change a total (`RedrawChangesTotal`, `PairedHistory`), and so can the stacking order
  (`OrderChangesTotal`, `PairedOrders`). Columns whose total was wiped do not span 100 (`WipedSpan`,
  `PercentColumns`, `PercentAlways`), and neither do those that a threshold other than 0 puts on the wrong
  side (`ThresholdBreaksSpan`, `PercentSpan`).
- `setStackedPoints` has a branch that restores an old stack item. In no run does it fire
  (`OldStacksAreCurrent`). The first rescale after a rebuild that does not rebuild itself
  empties all stacks, unless `getStacks` comes in between (`CleanRescale`, `CleanRescales`).
- On a new axis a point is found again in the stacks only while its own y is on the side on which it was
  stacked; on a used axis it is found on the other side too when an earlier build has left an entry there, at
  the place of that build (`LookupNeedsSide`, `StaleIsFound`). The sum point of a waterfall with a negative
  balance is not found on a new axis (`NegativeSumIsNotFound`).
- Waterfall: `subSum` is never reset, so an intermediate sum holds the whole balance; its bar starts
  at the previous intermediate level all the same. With a threshold other than 0 the bars do not
  chain (`BarsChain`, `ThresholdBreaksChain`) and may leave the extremes (`BarsWithinExtremes`,
  `SumLeavesExtremes`). A sum point at x 0 changes on the second run of `processData` (`ProcessAgain`,
  `SumAtZeroChanges`) and is flat after the first (`FirstRunHolds`, `FirstSumIsFlat`).
- `getFormattedAllData` gives NaN for a code outside its 20 arrondissements, such as the one of a record
  without the field (`MergeIsOnePass`, `UnknownCode`), and then the rows do not add up (`MergedTotal`).
- The pixel table ends early when the last point inside the extremes has a near neighbour outside
  them (`FullTable`, `PixelsWithout`).
- `stableSort` keeps its tag in the objects it sorts. An object that occurs twice has the tag of its last
  occurrence, and the result is not stable if an equal one stands in between (`TwiceAround`, `LastIsStable`).
- Columns of series with different group paddings may overlap (`GroupPaddingsOverlap`, `GroupsApart`), and so
  may columns with explicit widths (`WideColumnsOverlap`, `ExplicitWidth`). Hidden series are measured too, and
  one that is alone divides by a count of 0 (`HiddenAlone`, `GetColumnMetrics`).
- Paging: a reply sets the number of known ranks to the window plus its rows. After a reply of no more
  rows than the window holds, `.previous` does not lead beyond the place where the window was until a reply is
  longer than the window, and then by no more than that (`PreviousAfterReply`, `ReplyPins`, `ExcessReached`).

## Model

| member | source | states |
|---|---|---|
| StackTheorems.IntervalOfPoint | web/js/highcharts/highcharts.src.js:14265-14316 | every stacked point lies on top of the sum of the points stacked before it in its stack and reaches to that sum plus its own value, for any number of points in any interleaving; the stack ends at the sum of all |
| StackTheorems.NeighboursTouch | web/js/highcharts/highcharts.src.js:14265-14316 | of two points that follow each other in a stack, the second starts where the first ends |
| StackTheorems.SideOfPoint | web/js/highcharts/highcharts.src.js:14271-14273 | points of one series at one x are in one stack, but for series with negative stacks, which keep those below the threshold in the other one |
| StackTheorems.StackedHeights | web/js/highcharts/highcharts.src.js:14312-14314 | setStackedPoints notes in stackedYData, for each of its points and no other, the upper end of the interval it records |
| StackTheorems.PercentHeights | web/js/highcharts/highcharts.src.js:14331-14356 | after setPercentStacks, stackedYData holds the upper ends of the intervals as they are recorded then |
| StackTheorems.NormalTotal | web/js/highcharts/highcharts.src.js:14307-14311 | without percent stacking, total and cum of every stack are the sum of its points |
| StackTheorems.PercentTotals | web/js/highcharts/highcharts.src.js:14294-14309 | through every interleaving of positive and negative points, both stacks of a pair carry one and the same total |
| StackTheorems.PairSumExact | web/js/highcharts/highcharts.src.js:14294-14309 | that total is the sum of all values without their signs, if and only if no undefined y came after a value while the other stack existed; it is never more |
| StackTheorems.UndefinedWipes | web/js/highcharts/highcharts.src.js:14299-14301 | a concrete pair of points whose common total is 0 although the values without signs sum up to 3 |
| StackTheorems.PercentSpan | web/js/highcharts/highcharts.src.js:14331-14356 | scaled to percent, the top of the positive stack minus the bottom of the negative one is exactly 100, if and only if the difference of the two sums is the total kept: with nothing wiped, when every point is stacked on the side of its sign; with every point on its side, when nothing was wiped |
| StackTheorems.ThresholdBreaksSpan | web/js/highcharts/highcharts.src.js:14272 | a concrete pair of points, with threshold 4, that do not span 100 |
| StackTheorems.ScaledExactlyOnce | web/js/highcharts/highcharts.src.js:14331-14356 | the passes over all series, twice each, scale every point that belongs to a series exactly once and change no total and no sum |
| StackTheorems.UsePercentageInOrder | web/js/highcharts/highcharts.src.js:14177-14193 | whether the second loop runs does not depend on the order of the first |
| StackRuns.PlaceOfPoint | web/js/highcharts/highcharts.src.js:14177-14193 | after a rebuild every point is at its own place, scaled at most once, in a stack with the right sum, whatever the axis went through before; the total is the sum of what the points add or, for percent columns, the sum of the values without signs after the last undefined y that wiped it |
| StackRuns.OnlyShownStacked | web/js/highcharts/highcharts.src.js:14236-14238 | a point is stacked if and only if its series has stacking and is visible, or hidden series are not ignored; then with its own x and y, under the key of its series |
| StackRuns.HiddenLeaveNoTrace | web/js/highcharts/highcharts.src.js:14177-14193 | without the series that are not stacked, a rebuild gives the same stacks, sums and totals, and the same places for all stacked points |
| StackRuns.OldStacksAreCurrent | web/js/highcharts/highcharts.src.js:14282-14284 | in every run of saves and rescales, the old stacks are items of the current stacks, so there is never one to restore |
| StackHistories.TotalAfterIs | web/js/highcharts/highcharts.src.js:7381-7389 | of its history a stack remembers at most which of the two cells of its pair have been there: its total is the one built on those cells, cleared |
| StackHistories.HistoryMatters | web/js/highcharts/highcharts.src.js:14294-14309 | the total is the same after all histories of the axis, if and only if the four combinations of cells left behind give one total; all four occur |
| StackHistories.UnpairedHistory | web/js/highcharts/highcharts.src.js:14303-14309 | without points that look at the other stack the total is the same after all histories |
| StackHistories.PairedHistory | web/js/highcharts/highcharts.src.js:14299-14301 | with percent columns it is, if and only if no value that a new axis keeps comes before an undefined y: a condition on the points alone |
| StackHistories.RebuildReproduces | web/js/highcharts/highcharts.src.js:7381-7389 | after any two histories a rebuild gives a point the same sum, without percent stacking the same place, and the same place and total exactly when the totals agree; they do in the two cases above |
| StackHistories.RedrawSettles | web/js/highcharts/highcharts.src.js:7381-7389 | from the second rebuild of unchanged series on, no total changes |
| StackHistories.RedrawChangesTotal | web/js/highcharts/highcharts.src.js:14299-14301 | three concrete percent columns whose total is 3 when first built and 2 when the same data is drawn again |
| StackRuns.CleanRescale | web/js/highcharts/highcharts.src.js:7407-7418 | at any point of any run, a rescale without a rebuild keeps all recorded places and totals, and sets each sum to its total, if, since the last rebuild, getStacks was called or the stacks were rescaled like this before; otherwise it leaves no stack at all |
| StackRuns.CleanRescales | web/js/highcharts/highcharts.src.js:7407-7418 | for any sequence of getStacks calls and such rescales after a rebuild: the stacks are emptied if and only if some rescale comes before the first getStacks; otherwise all places and totals are kept |
| StackRuns.LastPointReaches | web/js/highcharts/highcharts.src.js:14331-14356 | the last point of a stack, scaled, ends where the whole stack does |
| StackRuns.PercentColumns | web/js/highcharts/highcharts.src.js:14177-14193 | percent columns with threshold 0: after a rebuild the pair carries the sum of the values without signs, and spans exactly 100 when that sum is not 0, each if and only if no undefined y wiped the total |
| StackHistories.PercentAlways | web/js/highcharts/highcharts.src.js:14177-14193 | from the series alone: they span 100 after every history, if and only if no undefined y comes after a value |
| StackHistories.WipedSpan | web/js/highcharts/highcharts.src.js:14299-14301 | three concrete percent columns that span 300 on a new axis |
| StackRuns.LookupFindsOwn | web/js/highcharts/highcharts.src.js:13130-13171 | translate finds for each visible point its own interval after any history; an interval from 0 starts at the threshold or, without one, at the axis minimum; total and percentage are those of the point, and the percentage is the height that its interval has in percent |
| StackRuns.LookupNeedsSide | web/js/highcharts/highcharts.src.js:13130-13148 | after any history it finds an entry if and only if the present y is on the side of the threshold on which the point was stacked, or an earlier build has left an entry on the other side; then it finds what that build has left; hidden series and those without stacking are not looked up |
| StackRuns.StaleIsFound | web/js/highcharts/highcharts.src.js:13135 | a concrete run after which a point is found at the height of an earlier build |
| StackRuns.NegativeSumIsNotFound | web/js/highcharts/highcharts.src.js:13135 | a concrete series, as a waterfall stacks it, whose point is not found |
| StackRuns.PercentageIsHeight | web/js/highcharts/highcharts.src.js:13165 | the percentage shown for a point is the height that percent stacking gives its interval |
| StackMirror.MirrorLaw | web/js/highcharts/highcharts.src.js:14177-14193 | turning reversedStacks over keeps the sum of every stack and sends the interval of a point that is alone of its series in its stack to its mirror image in it: always without percent stacking, and with it if and only if the totals agree or stack and point both end at 0, whatever the two histories |
| StackMirror.UnpairedOrders | web/js/highcharts/highcharts.src.js:14303-14309 | without points that look at the other stack, totals agree in both orders after any histories |
| StackMirror.PairedOrders | web/js/highcharts/highcharts.src.js:14299-14301 | with percent columns they agree if and only if the values behind the last undefined y that wipes the total have the same sum in both orders |
| StackMirror.PairedAnyOrder | web/js/highcharts/highcharts.src.js:14177-14193 | from the series alone: order and history have no influence on the total exactly when neither order has a value to lose and both keep the same sum |
| StackMirror.DefinedOrders | web/js/highcharts/highcharts.src.js:14294-14309 | without an undefined y they always keep the same sum |
| StackMirror.OrderChangesTotal | web/js/highcharts/highcharts.src.js:14299-14301 | two concrete percent columns that total 0 in one order and 3 in the other |
| StackedAxis.Axis.Open | web/js/highcharts/highcharts.src.js:14275-14291 | finds, restores or creates the item of a cell; no other item changes |
| StackedAxis.Axis.AddPoint | web/js/highcharts/highcharts.src.js:14291-14314 | records the interval and raises the totals of the stack, or of both stacks of a pair, and of no other |
| StackedAxis.Series.SetStackedPoints | web/js/highcharts/highcharts.src.js:14235-14326 | the objects end up with the values that the specification gives for this series, including stackedYData, usePercentage and the dropped old stacks |
| StackedAxis.Series.SetPercentStacks | web/js/highcharts/highcharts.src.js:14331-14356 | scales its own points on both sides, in place, and their stackedYData |
| StackedAxis.Axis.BuildStacks | web/js/highcharts/highcharts.src.js:14177-14193 | the in-place loops over all series refine the rebuild on values, in either order |
| StackedAxis.Axis.GetStacks | web/js/highcharts/highcharts.src.js:11090-11105 | old and current stacks share their items from then on, and every series that is stacked has its type and stack option for a key |
| StackedAxis.OptionSeparates | web/js/highcharts/highcharts.src.js:11100-11104 | after that, series of one type with different stack options never share a stack, and those with the same option have one key |
| StackedAxis.Axis.UpdateItems | web/js/highcharts/highcharts.src.js:7381-7418 | the loops over all items clear every total and sum, or set each sum to its total, and change nothing else, in any order of the items |
| StackedAxis.Axis.SetScale | web/js/highcharts/highcharts.src.js:7350-7422 | keeps the invariant that ties objects to values, and moves the axis to the state of the specified step; with the lemmas on runs this covers every history |
| TooltipIndex.SearchIsNearest | web/js/highcharts/highcharts.src.js:17629-17650 | the plain scan over all points finds the nearest point within the extremes, the left one of two equally near, or none if none is inside |
| TooltipIndex.PointsAre | web/js/highcharts/highcharts.src.js:17613-17622 | the points of all segments, and no others, are collected |
| TooltipIndex.PointsSorted | web/js/highcharts/highcharts.src.js:17613-17622 | sorted data give points from left to right, on a reversed axis by being turned over |
| TooltipIndex.OwnPixel | web/js/highcharts/highcharts.src.js:17637-17648 | each pixel that a point takes has no nearer point, up to the middle between two neighbours |
| TooltipIndex.SetTooltipPoints | web/js/highcharts/highcharts.src.js:17589-17652 | for sorted segments each entry of the table is a point of a segment, within the extremes, that is nearest to its pixel, the left one of two equally near, as the plain scan finds it, from left to right, on normal and reversed axes; the table covers all pixels of the axis if and only if the middle between some point within the extremes and every point beyond the right end is not on the axis |
| TooltipIndex.FullTable | web/js/highcharts/highcharts.src.js:17639-17644 | the pixels of the last inside point reach the end of the axis if and only if it is the last of all, or the middle to its neighbour is not on the axis |
| TooltipIndex.PixelsWithout | web/js/highcharts/highcharts.src.js:17639-17644 | a concrete axis of 11 pixels, 2 to the unit, of which 7 have an entry |
| Waterfall.Series.ProcessData | web/js/highcharts/highcharts-more.src.js:1629-1667 | rewrites its own input so that sum points hold the balance and all others keep their value; the two running sums stay equal, and dataMin and dataMax are the extremes of the balance over all prefixes |
| Waterfall.OptionsBalance | web/js/highcharts/highcharts-more.src.js:1640-1661 | from the options of the points: the balance starts at the threshold, each ordinary point adds its value and a sum adds nothing |
| Waterfall.ProcessAgain | web/js/highcharts/highcharts-more.src.js:1629-1679 | a second run, on numbers and point flags, leaves the array of the first run as it is, if and only if no sum point is at x 0 |
| Waterfall.SumAtZeroChanges | web/js/highcharts/highcharts-more.src.js:1672-1679 | a concrete point at x 0 that the second run changes |
| Waterfall.SameExtremes | web/js/highcharts/highcharts-more.src.js:1629-1667 | both runs record the same extremes, sum points at x 0 or not |
| Waterfall.NextBar | web/js/highcharts/highcharts-more.src.js:1571-1603 | one iteration of translate passes on the balance of processData as previousY and the level of the last intermediate sum |
| Waterfall.Translate | web/js/highcharts/highcharts-more.src.js:1548-1624 | the bars, read from the stacks: ordinary ones at the balance that processData keeps, sums from 0 to their entry, intermediate sums from the previous intermediate level to their entry; also after a first run that has left an entry null |
| Waterfall.BarsChain | web/js/highcharts/highcharts-more.src.js:1548-1624 | all ordinary bars start where the one before ended, if and only if each is drawn from 0 or from twice its value |
| Waterfall.ThresholdBreaksChain | web/js/highcharts/highcharts-more.src.js:1548-1624 | a concrete bar, with threshold 5, that does not start at the balance |
| Waterfall.FirstRunHolds | web/js/highcharts/highcharts-more.src.js:1629-1679 | after the first run every sum point holds the balance, if and only if the first point is not one or the threshold is 0 |
| Waterfall.FirstSumIsFlat | web/js/highcharts/highcharts-more.src.js:1591-1593 | a concrete first point that gets a flat bar instead of one from 0 to the threshold |
| Waterfall.LevelIs | web/js/highcharts/highcharts-more.src.js:1595-1598 | the level at which an intermediate sum begins is the entry of the last one before it, or the threshold if there is none |
| Waterfall.IntermediateIsBalance | web/js/highcharts/highcharts-more.src.js:1595-1598 | that is the balance before the last intermediate sum, when all sums hold the balance |
| Waterfall.BarsWithinExtremes | web/js/highcharts/highcharts-more.src.js:1629-1667 | a bar of translate lies within the extremes of processData, or any bounds of the balance, if and only if, for a sum, these include 0 and, for an ordinary point, its column is no higher than its top is above the lower one; intermediate sums always do, and with threshold 0 all bars |
| Waterfall.SumLeavesExtremes | web/js/highcharts/highcharts-more.src.js:1591-1593 | a concrete sum, with threshold 5, that is drawn from 0 while dataMin is 5 |
| Waterfall.WaterfallStacks | web/js/highcharts/highcharts-more.src.js:1754-1764 | a waterfall series that is alone with its stack key finds each of its points, from 0 to its value, after any history of the axis |
| Waterfall.OptionsToBars | web/js/highcharts/highcharts-more.src.js:1548-1679 | end to end with threshold 0: from the options of the points, through processData, any run of the axis, a rebuild and translate, each ordinary bar spans from the balance before to the balance after its point, each sum from 0 to the balance, each intermediate sum from the balance before the last one, or 0, to the balance, and all lie within dataMin and dataMax |
| Grouping.GroupedAt | web/js/dataUtils/dataManager.js:35-52 | after a pass each key holds the sum of the values of its group, on top of what it held before |
| Grouping.AddedAt | web/js/dataUtils/dataManager.js:66-75 | adding rows to existing keys gives the sum of their values, and NaN for a key that did not exist |
| DataManager.Manager.AddDataJson | web/js/dataUtils/dataManager.js:17-19 | a name is registered once, with the dataset given last |
| DataManager.Manager.GetFormattedAllData | web/js/dataUtils/dataManager.js:63-84 | the nested loops give the rows of the merged sums in the order of the properties |
| DataManager.MergeIsOnePass | web/js/dataUtils/dataManager.js:25-84 | aggregating each dataset and merging equals, for a code, one grouped pass over all records, if and only if the code is known, or does not occur, or sums up to NaN anyway; otherwise the merged value is NaN |
| DataManager.UnknownCode | web/js/dataUtils/dataManager.js:6-8 | a concrete record without the field, which codeReducer gives the code 751ef: it counts 1 in one pass and is NaN when merged |
| DataManager.MergedResult | web/js/dataUtils/dataManager.js:25-84 | with known codes the whole merged object equals that of one pass, and its rows add up to the sum of all kept values |
| DataManager.MergedTotal | web/js/dataUtils/dataManager.js:25-84 | the merged rows add up to the sum of all kept values, if and only if all codes are known or that sum is NaN anyway |
| DataManager.MergedAt | web/js/dataUtils/dataManager.js:63-84 | what the merged object holds for any code: the sum of its kept records if the code is known, NaN if it is unknown and occurs |
| DataManager.MergedAnyOrder | web/js/dataUtils/dataManager.js:25-84 | all merged values, those of unknown codes included, are the same for every order of records, datasets and properties |
| DataManager.MergedRowsAnyOrder | web/js/dataUtils/dataManager.js:63-84 | with known codes the order of the properties of the merged object is the same, too |
| DataManager.OrderDoesNotMatter | web/js/dataUtils/dataManager.js:25-84 | every group sum is the same for every order of records and datasets |
| DataManager.ReplaceBucket | web/js/dataUtils/dataManager.js:17-19 | registering a name again changes each group sum by exactly the new minus the old dataset |
| DataManager.OnlyLastCounts | web/js/dataUtils/dataManager.js:17-84 | over any sequence of registrations the group sums depend on the last dataset of each name only |
| DataManager.OnlyLastMerged | web/js/dataUtils/dataManager.js:17-84 | so do all merged values, known codes or not |
| DataManager.ChartGroupAt | web/js/dataUtils/dataManager.js:87-118 | the groups of a chart are the names that occur, each with the sum of its records |
| DataManager.BucketCounts | web/js/dataUtils/dataManager.js:34-52 | without a value key, or with an empty one, the sum of a code is the number of its kept records; with a key it is the sum of that field, and NaN if and only if a record of the group lacks it |
| DataManager.MergedCounts | web/js/dataUtils/dataManager.js:61-84 | when no dataset has a value key, the merged value of a known code is the number of kept records with it in all datasets |
| DataManager.ChartCounts | web/js/dataUtils/dataManager.js:87-118 | the same for the groups of a chart, which are those with some record; a record without the field belongs to the group "undefined" |
| DataManager.KnownCodes | web/js/dataUtils/dataManager.js:30-52 | of "751" with two digits the codes 01 to 20 are known, and they and 00 are kept |
| DataManager.PostalCode | web/js/dataUtils/dataManager.js:6-8 | of a postal code the last two digits are kept |
| DataManager.AggregateChart | web/js/dataUtils/dataManager.js:131-147 | the counter of the first loop is the number of groups |
| DataManager.Manager.GetChartFormattedData | web/js/dataUtils/dataManager.js:87-118 | the rows of these groups |
| DataManager.Manager.GetColumnChartFormattedData | web/js/dataUtils/dataManager.js:120-158 | categories and y values, zipped, are the rows of the other chart; alphas start at 1, decrease in equal steps towards 0.2 and stay above it |
| ArcPath.SplitsDecrease | web/js/highcharts/highcharts-3d.src.js:83-93 | both halves of a split need fewer further splits than the arc, in either direction, so the recursion ends for all real angles |
| ArcPath.CurvePieces | web/js/highcharts/highcharts-3d.src.js:83-106 | the curve is its cubic pieces between consecutive breaks, the last of which ends at the end of the arc |
| ArcPath.PieceSpan | web/js/highcharts/highcharts-3d.src.js:85-93 | each piece turns in the direction of the arc, by a quarter turn plus the tolerance at most |
| ArcPath.SpansAddUp | web/js/highcharts/highcharts-3d.src.js:83-106 | the signed spans of the pieces add up to the span of the arc |
| ArcPath.SmoothJoint | web/js/highcharts/highcharts-3d.src.js:94-105 | two pieces meet with handles along one tangent, in proportion to their spans |
| ArcPath.CurveJoined | web/js/highcharts/highcharts-3d.src.js:83-106 | a curve begins at the point of its start and ends at the point of its end, and each piece draws its arc from where the pen is |
| ArcPath.IntentAt | web/js/highcharts/highcharts-3d.src.js:83-106 | the arcs that the pieces of a curve are meant to draw lie between consecutive breaks on one ellipse |
| ArcPath.FacesJoined | web/js/highcharts/highcharts-3d.src.js:412-466 | the outlines of top, outer and inner face are drawn without a gap, every piece on the ellipse and between the angles of its face: out on one ellipse and back on the inner one or on the one behind |
| ArcPath.GeometryOfShape | web/js/highcharts/highcharts-3d.src.js:412-445 | points, depth and angles of these faces are those of the shape; the outer face is cut to the part of the slice that is seen |
| StableSort.StableOrderUnique | web/js/highcharts/highcharts.src.js:610-629 | for a total preorder there is only one sorted order that keeps equal elements as they were |
| StableSort.TaggedTotal | web/js/highcharts/highcharts.src.js:620-623 | the comparator is total and transitive whatever tags the objects carry, so any sort of the platform may be used with it |
| StableSort.LastOrderedUnique | web/js/highcharts/highcharts.src.js:620-623 | only one arrangement of the objects is ordered by comparator and tag, so any correct sort returns it |
| StableSort.LastIsStable | web/js/highcharts/highcharts.src.js:615-623 | it is the stable one if and only if no different equal object stands between two occurrences of one object |
| StableSort.TwiceAround | web/js/highcharts/highcharts.src.js:615-623 | x, y and again x, all equal, become y, x, x |
| StableSort.StableOrderExists | web/js/highcharts/highcharts.src.js:610-629 | there is such an order for every sequence |
| StableSort.StableSort | web/js/highcharts/highcharts.src.js:610-629 | the array is put into the order by comparator and last index, also when objects occur twice; that is the stable order exactly under the condition above; every tag is gone |
| Animation.CallUses | web/js/highcharts/adapters/standalone-framework.src.js:342-346 | a call uses up more than it puts on the list, so that a tick ends although callbacks start animations |
| Animation.Scheduler.Custom | web/js/highcharts/adapters/standalone-framework.src.js:323-353 | a new animation, and those its first call starts, are listed in order; an interval is armed exactly when there was none |
| Animation.Scheduler.Tick | web/js/highcharts/adapters/standalone-framework.src.js:340-351 | each stepper that is listed, or gets there during the tick, is called exactly once and in order; those that go on stay in that order; the interval stops exactly when the list is empty |
| Animation.PushedOne | web/js/highcharts/adapters/standalone-framework.src.js:339-341 | an animation whose first call starts others is listed behind all that they put on the list, if it goes on |
| Animation.PushedConcat | web/js/highcharts/adapters/standalone-framework.src.js:339-341 | animations started one after the other are listed in that order |
| Animation.CallsOne | web/js/highcharts/adapters/standalone-framework.src.js:342-346 | a call in a tick adds what it starts, and the stepper stays with the rest of its script exactly if it goes on |
| Animation.AloneToItsEnd | web/js/highcharts/adapters/standalone-framework.src.js:323-353 | an animation that goes on and starts nothing is called once when it starts and once in each tick, to its end, and then it is off the list |
| Animation.Run | web/js/highcharts/adapters/standalone-framework.src.js:323-397 | over any run of starts and ticks the list is the specified one, and never more than one interval is armed, exactly when something is listed |
| ColumnGrouping.AssignColumns | web/js/highcharts/highcharts.src.js:15327-15343 | the loop gives each matching series its column and touches no other |
| ColumnGrouping.StrangersTakeNone | web/js/highcharts/highcharts.src.js:15330-15331 | hidden series, series of another type and those whose y axis lies elsewhere take no column and change no other's |
| ColumnGrouping.OwnKindTakes | web/js/highcharts/highcharts.src.js:15330-15340 | a visible series of the type on the same place takes one, unless it opts out unstacked |
| ColumnGrouping.GetColumnMetrics | web/js/highcharts/highcharts.src.js:15309-15370 | counts, assigns and measures, for hidden series too; with grouping it divides by 0 if and only if no matching series is stacked or grouped, which never happens to a visible one |
| ColumnGrouping.HiddenAlone | web/js/highcharts/highcharts.src.js:15323-15352 | a hidden series that is alone has no column |
| ColumnGrouping.SharedColumn | web/js/highcharts/highcharts.src.js:15332-15340 | two series share a column if and only if they have it from the same series or from two that are stacked under the same key |
| ColumnGrouping.ColumnOfTaker | web/js/highcharts/highcharts.src.js:15339-15341 | a series with `grouping: false` that is not stacked has the column of the last series before it that is stacked or grouped; any other has its own |
| ColumnGrouping.ColumnsUsed | web/js/highcharts/highcharts.src.js:15332-15340 | every number below the count is the column of some matching series |
| ColumnGrouping.ReversedAxis | web/js/highcharts/highcharts.src.js:15357-15361 | reversed and normal axes give the same width and offset |
| ColumnGrouping.Middle | web/js/highcharts/highcharts.src.js:15350-15362 | the middle of a column depends on its group width and its number only, not on its width, its point padding or the direction of the axis |
| ColumnGrouping.ExplicitWidth | web/js/highcharts/highcharts.src.js:15353-15356 | two columns with explicit widths, of series with their own options, do not overlap if and only if both halves fit between their middles |
| ColumnGrouping.PaddedWidth | web/js/highcharts/highcharts.src.js:15350-15362 | without explicit widths they do not overlap if and only if the paddings of both series leave room |
| ColumnGrouping.GroupsApart | web/js/highcharts/highcharts.src.js:15350-15362 | they never do, whatever the point paddings, exactly when the group paddings leave room between their slots |
| ColumnGrouping.GroupPaddingsOverlap | web/js/highcharts/highcharts.src.js:15350-15352 | two concrete series with group paddings 0.2 and 0 whose columns overlap |
| ColumnGrouping.WideColumnsOverlap | web/js/highcharts/highcharts.src.js:15354-15356 | two concrete columns that overlap |
| ColumnGrouping.ColumnsFit | web/js/highcharts/highcharts.src.js:15346-15368 | with paddings from 0 to 0.5 every column lies within its category |
| ColumnGrouping.ColumnsDisjoint | web/js/highcharts/highcharts.src.js:15346-15368 | different columns of two series with the same group width do not overlap, whatever their point paddings from 0 to 0.5 |
| DataColumns.GetFreeIndexes | web/js/highcharts/modules/data.src.js:675-704 | the flags, which grow when a mapping names a column beyond the table, give from left to right exactly the columns of the table that no reader of any builder names |
| DataColumns.AllReferencedIs | web/js/highcharts/modules/data.src.js:992-1004 | the referenced columns are those that some reader names |
| DataColumns.FreeIs | web/js/highcharts/modules/data.src.js:675-704 | free columns are, in ascending order, exactly those of the table that are not used |
| DataColumns.SeriesBuilder.PopulateColumns | web/js/highcharts/modules/data.src.js:902-925 | fills the readers from the shared list, in place, and tells whether there were enough |
| DataColumns.FilledAt | web/js/highcharts/modules/data.src.js:908-912 | a reader keeps the column it names, or gets the free column whose turn it is |
| DataColumns.FilledTakes | web/js/highcharts/modules/data.src.js:908-912 | columns given away and columns left make up the free columns, in their order |
| DataColumns.EnoughIff | web/js/highcharts/modules/data.src.js:914-924 | a builder is complete if and only if there are as many free columns as readers without one |
| DataColumns.Allocate | web/js/highcharts/modules/data.src.js:741-773 | both loops together: complete mapped builders first, then complete made-up ones; the second loop ends because each round uses a free column; no reader is given a column that another one names |
| DataColumns.ColumnsPartition | web/js/highcharts/modules/data.src.js:741-773 | no two readers are given the same column, and a column is given away if and only if it is in the table and no reader of the mapping names it, except column 0 when none of them lacks a column: then it is the x of the made-up series only |
| DataColumns.GivenIsUnnamed | web/js/highcharts/modules/data.src.js:741-752 | a column that a reader of the mapping is given is in the table, and no reader names it |
| DataColumns.MadeUpIsUnnamed | web/js/highcharts/modules/data.src.js:754-773 | the same of the columns of made-up series |
| DataColumns.AutomaticIsFree | web/js/highcharts/modules/data.src.js:741-773 | the columns given away are the free ones in their order, without column 0 in that case |
| DataColumns.DynamicBlock | web/js/highcharts/modules/data.src.js:754-773 | made-up series j reads x from column 0 and its values from the j-th run of the remaining columns |
| DataColumns.DynamicKept | web/js/highcharts/modules/data.src.js:754-773 | as many of them become series as there are full runs |
| ByteCodec.Int2Store | Card/include/mysql/my_global.h:1095-1098 | puts the two low bytes in the buffer and changes no other byte |
| ByteCodec.Int3Store | Card/include/mysql/my_global.h:1099-1103 | the same for three bytes |
| ByteCodec.Int4Store | Card/include/mysql/my_global.h:1104-1107 | the same for four |
| ByteCodec.Int5Store | Card/include/mysql/my_global.h:1108-1112 | the same for five |
| ByteCodec.Int8Store | Card/include/mysql/my_global.h:1113-1115 | two stores of four bytes put the eight low bytes in the buffer |
| ByteCodec.StoredStarts | Card/include/mysql/my_global.h:1095-1115 | after a store the memory at its address starts with the bytes stored; the rest is as before |
| ByteCodec.UnsignedRoundTrip | Card/include/mysql/my_global.h:1072-1080 | loading 2, 3 or 4 bytes gives what was stored modulo 2^16, 2^24 or 2^32 |
| ByteCodec.UnsignedRoundTripLong | Card/include/mysql/my_global.h:1081-1094 | loading 5 or 8 bytes gives what was stored modulo 2^40 or 2^64 |
| ByteCodec.SignedRoundTrip | Card/include/mysql/my_global.h:1057-1070 | a signed load of 2, 3 or 4 bytes gives exactly what was stored, if and only if the width can hold it, whether or not char is signed |
| ByteCodec.SignedRoundTripLong | Card/include/mysql/my_global.h:1071 | the same for 8 bytes |
| ByteCodec.SignedLoad3 | Card/include/mysql/my_global.h:1059-1066 | the bitwise sign extension of three bytes is the cast of their unsigned value to 24 bits |
| ByteCodec.OrAdds | Card/include/mysql/my_global.h:1059-1066 | numbers that share no bit are added by a bitwise or, in either order |
| ByteCodec.NetIsReversed | Card/include/mysql/my_global.h:1183-1186 | int4net reads four bytes as the signed load reads them in reverse |
| SquareZone.SquareZone.ClickPrevious | web/js/highchartsUtils/highchartsUtils.js:215-229 | moves by a window, but not beyond the last full window of known ranks; rows are asked for exactly when it moves |
| SquareZone.SquareZone.ClickNext | web/js/highchartsUtils/highchartsUtils.js:231-244 | moves back by a window, but not below rank 1 |
| SquareZone.SquareZone.FillSquareKPI | web/js/highchartsUtils/highchartsUtils.js:187-210 | counts the known ranks anew from where the window is when the reply arrives |
| SquareZone.PreviousStep | web/js/highchartsUtils/highchartsUtils.js:220-227 | moves if and only if ranks beyond the window are known; successive windows overlap or adjoin |
| SquareZone.PreviousThenNext | web/js/highchartsUtils/highchartsUtils.js:217-243 | one click each way leads back if and only if the first was a full step or the window started at rank 1 |
| SquareZone.ShortStep | web/js/highchartsUtils/highchartsUtils.js:217-243 | a concrete window that two clicks do not lead back to |
| SquareZone.PreviousReaches | web/js/highchartsUtils/highchartsUtils.js:220-227 | where any number of clicks on previous leads |
| SquareZone.NextReaches | web/js/highchartsUtils/highchartsUtils.js:236-243 | where any number of clicks on next leads |
| SquareZone.PreviousShowsAll | web/js/highchartsUtils/highchartsUtils.js:220-227 | every known rank from the window on comes into view |
| SquareZone.NextShowsAll | web/js/highchartsUtils/highchartsUtils.js:236-243 | every rank before the window comes into view |
| SquareZone.ClicksEnd | web/js/highchartsUtils/highchartsUtils.js:217-243 | repeated previous stops at the last full window if it moved at all, repeated next at rank 1 |
| SquareZone.StaysValid | web/js/highchartsUtils/highchartsUtils.js:187-243 | over every interleaving of clicks and replies the window starts at rank 1 or later |
| SquareZone.NeverBeyond | web/js/highchartsUtils/highchartsUtils.js:187-243 | no run shows a rank beyond those known at the start and the first window by more than replies are longer than the window, all together |
| SquareZone.PreviousAfterReply | web/js/highchartsUtils/highchartsUtils.js:187-227 | after any run that ends with a reply, previous moves if and only if the reply held more rows than the window |
| SquareZone.ReplyPins | web/js/highchartsUtils/highchartsUtils.js:187-243 | after a reply of at most a window, no further run moves the window beyond where it was by more than later replies are longer than the window, all together; not at all if none is |
| SquareZone.ExcessReached | web/js/highchartsUtils/highchartsUtils.js:187-243 | after one longer reply that bound is reached |

## Left out

- PHP pages, SQL, sessions, uploads, the smart-card reader and its error table: input and output, and constants.
- Drawing: SVG, VML and DOM, colours, labels, pixel rounding, minimal point lengths and the mapping from values to pixels.
- The arguments of `_UpdateWithNextsCommunity`: its callers pass one more than it takes. Only whether a request is sent, when a reply arrives and how many rows it has are modelled.
- Logarithmic axes, cropping of data and floating-point rounding.
- Stack entries of series that were hidden or removed: their stale points stay in the stacks; the theorems speak of the points of the series that are stacked.
- Percent columns that share a stack key and an x with other kinds of series: intervals are covered, and whether their total depends on the history (HistoryMatters); a formula for that total is not given.
- TooltipIndex.SetTooltipPoints: segments whose points are not sorted, and the wrapped points of polar charts, are not covered.
- Waterfall.Translate: an ordinary value that is neither a number nor null, and waterfall series that share a stack key, are not covered.
- DataManager.Manager.GetFormattedData: a name that was never registered throws in the source and is not modelled; the code reducers are an arbitrary function, of which codeReducer is spelled out.
- DataColumns.Allocate: reading the rows, naming the series and choosing the axis type come after it and are not modelled; a series has at least one value column, as all types in the source do.
- ArcPath.FacesJoined: the two side faces, which are straight lines only, and the z-order of the faces.
- Animation.Run: time, easing and the values that are animated; what a call does is any finite script.
- Variants of the byte macros for x86 and for floating-point numbers; x86 copies memory.
- Pie labels, date ticks, axis ticks and legends.
