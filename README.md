# Power-outage dashboard: a Dafny model of its data logic

The dashboard loads a table of NERC-reported electric disturbance events. It shows them in three linked D3 views:

- a bar chart of event causes;
- a Dorling cartogram of events clustered by NERC region;
- a line chart of events per year, with a brush that narrows the other two views to a time window.

This project models the logic under the drawing code and proves what that logic promises.

- **Record normalisation** (`Normalize`). The entry script makes two in-place passes over the record array.
  - Event-type labels go through the fixed remapping table.
  - The `Duration` sentinel is set when any date or time field contains `Unknown`.
  - Otherwise the duration is derived from the reordered `Y-M-D` stamps.
  - Region codes go through the fixed `switch`.
- **Aggregations** (`Grouping`, `BarChart`, `Cartogram`, `LineChartView`). These model `d3.groups`/`d3.group` as an insertion-ordered grouping, `Array.prototype.filter`, a stable sort and `d3.max`. On top of them sit:
  - the bar groups, largest first;
  - the per-region tooltip breakdown;
  - the cartogram's filter and its grouping by region;
  - the per-year rollup sorted by year;
  - the inclusive time-window filter of the brush.
- **Cause selection** (`Selection`, `BarChart.Barchart`, `Cartogram.DorlingCartogram`, `Dashboard.Views`).
  - The JavaScript `Set` passed through the dispatcher is a `CauseSet` object that both views can hold and mutate.
  - The click handlers each view rebinds are explicit states.
  - A pure transition system (`Selection.BarClick`, `Selection.CircleClick`, …) states the protocol.
  - Each view class reads its click handler back as a machine state (`Barchart.State`, `DorlingCartogram.State`). The `Dashboard.Views` click methods are proved to move both views exactly as the machine does.
  - `Rendered` is the state drawing leaves. A bar click there sends just that bar, because rendering clears every mark. A circle click there does nothing, because no click handler is bound yet.
- **The brush** (`LineChartView.LineChart.Brushed`). It pushes the filtered records, or the line chart's own records, into the bar chart and the cartogram, then updates both.
- **Helpers** (`LineChartView`, `BarChart`):
  - `getDecimal`;
  - the `hour:MM` formatting of `timeFromDate`;
  - the `year % 4` day denominator and `dateFromDay`;
  - bar centring against `maxBandWidth`;
  - the greedy word-wrap loop of the axis labels, with text measurement as a function parameter.

How each kind of source code is modelled:

- **In-place loops** are methods. The two `forEach` passes are `Normalize.NormalizeEventTypes` and `Normalize.NormalizeDurationsAndRegions` on an `array<Record>`. The `wrap` loop is `BarChart.Wrap`, and the `_createRegionPacks` loop is `Cartogram.CreateRegionPacks`.
- **Views are classes** whose methods update their fields. Each such method is proved against the pure functions that specify it.
- **Error paths are modelled, not excluded:**
  - A region with no boundary feature makes `_createRegionPacks` throw. The load callback then ends before the bar chart and the line chart are built, and `Dashboard.Load` returns no views. Here it is `Err(region)`, and the cartogram's `UpdateVis` reports `NoFeature(region)`, with `data` already replaced by the grouping, as in the source.
  - A second `updateVis` without reassigning `data` hits a `Map` that has no `filter`. Here it is `NotAnArray`.

The region `switch` (js/main.js:70-84) leaves every code it does not name unchanged, including unknown codes. The model does the same: it does not map every code to a canonical region or `''`.

## Model

| member | source | states |
|---|---|---|
| Strings.Includes | js/main.js:57-60 | `includes` is true exactly when the text occurs at some position, so this is a substring test, not equality |
| Strings.Split | js/main.js:63-64 | `split` on one character gives at least one part, and no part contains the separator |
| Strings.JoinSplit | js/main.js:63-66 | joining the parts of a split with the separator gives back the original string |
| Strings.SplitThree | js/main.js:63-64 | three separator-free fields joined by the separator split back into exactly those three fields |
| Strings.SplitAround | js/linechart.js:264-266 | the first part of a split ends at the first separator; the rest is the split of what follows |
| Strings.NatToString | js/linechart.js:252 | `n + ''` is a non-empty digit string, with at least two digits from 10 upwards |
| Strings.ParseNatToString | js/linechart.js:231-233 | reading back the digits of `n` gives `n`, as `setHours` does with the hour and minute text |
| Grouping.Filter | js/dorlingcartogram.js:19 | `filter` keeps exactly the elements that pass the test and never grows the list |
| Grouping.FilterIdempotent | js/dorlingcartogram.js:107 | filtering already-filtered records again with the same test changes nothing |
| Grouping.GroupBy | js/dorlingcartogram.js:108 | `d3.group`/`d3.groups` has distinct keys; each group holds the elements with its key in their original order, and is non-empty; the group sizes add up to the input length |
| Grouping.ElementHasGroup | js/dorlingcartogram.js:108 | every element's key is the key of some group |
| Grouping.GroupOfElementUnique | js/dorlingcartogram.js:108 | an element lies in exactly one group |
| Grouping.KeysInFirstOccurrenceOrder | js/barchart.js:96 | the group keys come in order of first occurrence: wherever a later key occurs in the input, every earlier key has already occurred before it |
| Grouping.SortBySizeDesc | js/barchart.js:96 | sorting by descending member count gives a non-increasing permutation, and groups of equal size keep their relative order (a stable sort) |
| Grouping.GroupBySizeDesc | js/barchart.js:96 | the grouping then the sort: distinct keys, sizes non-increasing and summing to the input length, each group exactly its key's elements, every element's key present, and equal sizes in first-occurrence order |
| Grouping.SortKeepsKeySet | js/barchart.js:96 | sorting keeps the set of keys |
| Grouping.MaxOf | js/barchart.js:104 | `d3.max` is undefined exactly on an empty list; otherwise it is an element of the list and no element exceeds it |
| Normalize.TableValuesAreNotKeys | js/main.js:15-37 | no canonical label in the remapping table is itself a key of the table |
| Normalize.NormalizeEventType | js/main.js:50-54 | a label that is a key of the table becomes its mapped value; any other label is unchanged; the result is never a key |
| Normalize.EventTypeIdempotent | js/main.js:15-37 | remapping an event type twice equals remapping it once |
| Normalize.NormalizeRegion | js/main.js:70-84 | `RF` becomes `RFC`, `SPP RE` becomes `SPP`, the three invalid codes become `''`, and every other code is unchanged; no alias survives |
| Normalize.RegionIdempotent | js/main.js:70-87 | the cleanup is idempotent; the eight canonical regions and `''` are fixed points |
| Normalize.ReorderDateMDY | js/main.js:63-66 | an `M/D/Y` date whose fields contain no `/` becomes `Y-M-D` |
| Normalize.ReorderDateShort | js/main.js:63-66 | a date with a single `/` loses its year: the missing field joins as `''`, giving `-M-D` |
| Normalize.DurationUnknownIff | js/main.js:56-67 | the duration is `Unknown` if and only if `Unknown` occurs somewhere in one of the four date and time fields; otherwise it is the elapsed time between the reordered restoration and begin stamps |
| Normalize.DurationUnknownBySubstring | js/main.js:57-61 | a field such as `Unknown PM` also yields the sentinel |
| Normalize.NormalizeAll | js/main.js:50-85 | both passes applied to every record keep the count and order; record `i` of the output is record `i` normalised |
| Normalize.NormalizeRecordIdempotent | js/main.js:50-85 | a normalised record is a fixed point of normalisation; its label is canonical and its region is no alias |
| Normalize.NormalizeEventTypes | js/main.js:50-54 | the first pass rewrites each array slot to its record with the event type remapped, and touches nothing else |
| Normalize.NormalizeDurationsAndRegions | js/main.js:56-85 | the second pass rewrites each slot with its duration set and its region cleaned, and touches nothing else |
| Normalize.NormalizeData | js/main.js:50-85 | after both passes the array holds `NormalizeAll` of its previous contents |
| Selection.MarkOf | js/barchart.js:225-235 | a mark carries no class when the selection is cleared; it carries `cause-selected` exactly when its cause is in the marked set |
| Selection.HighlightFor | js/barchart.js:225-235 | an empty selection clears every mark; otherwise exactly the selected causes are marked `cause-selected` |
| Selection.Toggle | js/barchart.js:237-240 | the clicked cause flips membership; every other cause keeps its membership |
| Selection.InitialClickPayload | js/barchart.js:154-157 | the rendering click handler sends the causes of the bars shown as `cause-selected`, plus the clicked one, and nothing else |
| Selection.RemoveClick | js/dorlingcartogram.js:210-214 | a circle click in a selection does nothing for a type outside the set; otherwise it sends the set minus that type, which is strictly smaller |
| Selection.Deliver | js/main.js:5-8 | a dispatched empty set returns a view to the no-selection state; any other set becomes the selection |
| Selection.BarClick | js/barchart.js:222-243 | just after rendering or with no selection, a bar click sends just its cause; in a selection it toggles that cause and keeps the others |
| Selection.CircleClick | js/dorlingcartogram.js:174-214 | just after rendering a circle click sends nothing; with no selection it sends its type; in a selection it is inert outside the set and only removes inside it |
| Selection.CircleResponds | js/dorlingcartogram.js:150-172 | hover handlers respond after rendering and with no selection; in a selection, only when the circle's type is selected |
| Selection.BarClickTwice | js/barchart.js:236-242 | clicking the same bar twice restores any valid selection state; from the rendered state it ends with no selection |
| Selection.RenderedCircleInert | js/dorlingcartogram.js:141-172 | before any selection arrives, a circle click changes nothing and hovers respond |
| Selection.CircleClickNeverAdds | js/dorlingcartogram.js:210-214 | a circle click never grows a selection, and it changes the state exactly when the type is selected |
| Selection.SelectTwoThenClear | js/barchart.js:177-183 | from the rendered state or from no selection, bars `a` then `b` select `{a, b}`; after the blank-space empty set, a bar click starts a fresh single selection |
| BarChart.BarGroups | js/barchart.js:96 | the bars are groups by event type of the records with a region; sizes are non-increasing, keys distinct, sizes positive, and the sizes sum to the number of records with a region |
| BarChart.BarMembers | js/barchart.js:96 | a bar holds exactly the records with a region and that event type, and every record with a region has a bar |
| BarChart.YDomainIsFirstBar | js/barchart.js:104 | the top of the y domain is undefined exactly when no record has a region; otherwise it is the first (tallest) bar's count |
| BarChart.BarWidth | js/barchart.js:124 | the bar is as wide as its band when the band is at most 60, and exactly 60 when the band is wider; it is never wider than 60 or than its band |
| BarChart.BarOffset | js/barchart.js:122-123 | the offset is non-negative and centres the bar in its band: offset + width/2 = bandwidth/2 |
| BarChart.RegionBreakdown | js/barchart.js:148-150 | the tooltip rows group a bar's records by region; counts are non-increasing, keys distinct, each row exactly its region's records, and the counts sum to the bar's total |
| BarChart.Wrap | js/barchart.js:187-209 | the lines concatenate to the words in order, up to the first empty word; only the first line may be empty, and it is empty exactly when the first word alone is too wide; every run of two or more words at the start of a line fits; each line overflows with the first word of the next |
| BarChart.AddWord | js/barchart.js:199-206 | one loop turn: a word that fits extends the line; one that overflows closes the line and starts the next one |
| BarChart.Barchart.constructor | js/barchart.js:8-22 | the view starts on the given records with the rendering click handler and no highlight |
| BarChart.Barchart.UpdateVis | js/barchart.js:92-107 | `groupedData` becomes the bar groups of `data`, the x domain their keys and the y maximum the largest count; rendering rebinds the initial handler and clears the classes |
| BarChart.Barchart.OnCauseSelected | js/barchart.js:222-244 | the bars enter the state the set delivers and are marked from it; an empty set binds the select-only handler; any other set binds the toggling handler on that same set object; data and domains are unchanged |
| BarChart.Barchart.ClickBar | js/barchart.js:153-243 | the set sent is the selection machine's bar-click payload for the view's state; the rendering handler sends a new set of the selected causes plus `c`, which is `{c}` since rendering clears the marks; the select-only handler sends a new `{c}`; the toggling handler toggles `c` in its bound set and sends that same object |
| BarChart.Barchart.ClickBackground | js/barchart.js:177-183 | a click whose target is an HTML element sends nothing, because reading `className.baseVal` throws; an SVG target whose class names contain `bar` sends nothing; any other SVG target sends a new empty set |
| Cartogram.MapRecords | js/dorlingcartogram.js:19 | keeps exactly the records with a known duration and a non-empty region; filtering the result again changes nothing |
| Cartogram.RegionGroups | js/dorlingcartogram.js:107-108 | groups the drawable records by region: distinct, non-empty regions; each group is the order-preserving filter of its region's records; sizes add up to the number of drawable records |
| Cartogram.RegionGroupsOfFiltered | js/dorlingcartogram.js:107-108 | the constructor's filter followed by `updateVis`'s filter groups the same as one filter |
| Cartogram.WithKeyIsFilter | js/dorlingcartogram.js:108 | a region's group is the order-preserving filter of the records by that region |
| Cartogram.RegionGroupsPartition | js/dorlingcartogram.js:108 | every drawable record lies in the group of its own region and in no other group |
| Cartogram.FindFeature | js/dorlingcartogram.js:78 | `find` returns the first feature whose `NERCregion` matches, and none exactly when no feature matches |
| Cartogram.CreateRegionPacks | js/dorlingcartogram.js:69-83 | fails exactly when some region has no feature, naming the first such region; otherwise it returns one entry per region key, holding that region's records and its feature's centre |
| Cartogram.PacksInOrder | js/dorlingcartogram.js:110 | the map's values in insertion order give one pack per group, in the grouping's order |
| Cartogram.PackRegions | js/dorlingcartogram.js:107-110 | the grouping and packing of `updateVis` succeed exactly when every region has a feature, and then yield one pack per group in order |
| Cartogram.ShowOrUnknown | js/dorlingcartogram.js:120-121 | a blank value shows as `Unknown`; any other value is shown verbatim |
| Cartogram.TooltipItems | js/dorlingcartogram.js:116-122 | the tooltip always has five items |
| Cartogram.TooltipHeaderLines | js/dorlingcartogram.js:115-119 | the first three lines are `Begin: ` then the begin date, a space and the begin time; `End: ` then the restoration date, a space and its time; and `Event Type: ` then the event type |
| Cartogram.TooltipLines | js/dorlingcartogram.js:115-124 | the demand-loss and customer lines start with their labels, followed by `Unknown` for a blank value and the value itself otherwise |
| Cartogram.DorlingCartogram.constructor | js/dorlingcartogram.js:7-23 | the view holds the drawable records and the features; no click handler is bound |
| Cartogram.DorlingCartogram.UpdateVis | js/dorlingcartogram.js:104-113 | on an array, `data` becomes the region grouping and the update succeeds exactly when every region has a feature; on success the values are the packs in grouping order and the hover filter is cleared; on a missing feature the values are untouched; on a `Map` it fails and changes nothing |
| Cartogram.DorlingCartogram.OnCauseSelected | js/dorlingcartogram.js:174-241 | the circles enter the state the set delivers and are marked from it; an empty set binds select-only clicks and unfiltered hovers; any other set binds removal and hover filtering on that same set object |
| Cartogram.DorlingCartogram.ClickCircle | js/dorlingcartogram.js:174-214 | what is sent is the selection machine's circle-click payload for the view's state; unbound: nothing is sent; select-only: a new `{c}` is sent; removing: nothing is sent for a type outside the set; otherwise `c` is deleted from the bound set and that same object is sent; the set never gains an element |
| Cartogram.DorlingCartogram.Hover | js/dorlingcartogram.js:215-239 | hover, move and leave respond exactly when no selection is bound or the type is in the bound set |
| LineChartView.Counts | js/linechart.js:114 | one `{key, value}` entry per group, holding its key and its length |
| LineChartView.SumCounts | js/linechart.js:112-114 | the counts add up to the sizes of the groups |
| LineChartView.Rollup | js/linechart.js:112-114 | one entry per distinct year; each value is that year's (positive) record count; every record's year is present; the values sum to the number of records |
| LineChartView.InsertByKey | js/linechart.js:115 | inserting into a strictly ascending array keeps it strictly ascending and adds exactly the one entry |
| LineChartView.SortByKey | js/linechart.js:115 | sorting distinct years gives a strictly ascending permutation with the same sum |
| LineChartView.TimeArray | js/linechart.js:112-116 | `timeArray` is strictly ascending by year, each value is that year's record count, every record's year is present, and the values sum to the number of records |
| LineChartView.TimeArrayKeys | js/linechart.js:112-116 | a year is a key of `timeArray` exactly when some record has that year |
| LineChartView.XDomainSpansYears | js/linechart.js:122-124 | the x domain is undefined exactly without records; otherwise it is [earliest year, latest year] of the records, both attained |
| LineChartView.YDomainIsBusiestYear | js/linechart.js:126 | the top of the y domain is undefined exactly without records; otherwise it is the record count of the busiest year |
| LineChartView.YearBelowMax | js/linechart.js:126 | no year has more records than the top of the y domain |
| LineChartView.GetDecimal | js/linechart.js:263-268 | the result starts with `0.`, and is `0.0` for text without a `.` |
| LineChartView.GetDecimalAfterPoint | js/linechart.js:263-268 | after a first `.`, the result is `0.` followed by the text up to the next `.` |
| LineChartView.GetDecimalIsFraction | js/linechart.js:263-268 | on the text `n.f` the result is `0.f`, which lies in [0, 1) and equals the value minus its integer part |
| LineChartView.DayDenominator | js/linechart.js:226 | 366 if and only if the year is a multiple of four, 365 otherwise |
| LineChartView.LeapRuleWithoutCenturies | js/linechart.js:226 | the rule matches the calendar from 1901 to 2099 but not in 1900 or 2100, and never counts fewer days than the calendar |
| LineChartView.DayFrom | js/linechart.js:237-238 | a day offset from January 1 lands on a valid calendar day, carrying into the previous year for a negative offset |
| LineChartView.DateFromDay | js/linechart.js:236-239 | as written: day 0 is January 1; day `d` ≥ 1 is day `floor(d) - 1` of the year; a day in (0, 1) is December 31 of the previous year |
| LineChartView.DateFromDayJumpsBack | js/linechart.js:236-239 | year 2017 with day 0 gives January 1, 2017, but day 0.365 gives December 31, 2016 |
| LineChartView.DateFromDayInYear | js/linechart.js:236-239 | corrected: every day below 1 is January 1, so the result is a valid day of the same year |
| LineChartView.DateFromDayInYearMonotone | js/linechart.js:236-239 | a later day never yields an earlier calendar day |
| LineChartView.FindDay | js/linechart.js:224-227 | as written: the brushed fraction of a year times the day denominator, through `dateFromDay`, gives a valid day; fraction 0 is January 1; a day number in (0, 1) is December 31 of the previous year; otherwise, where the rule matches the calendar, it is day `floor(d) - 1` of the year |
| LineChartView.FindDayJumpsBack | js/linechart.js:224-227 | as written: in 2017, fraction 0 gives January 1, 2017, but the later fraction 0.001 gives December 31, 2016 |
| LineChartView.FindDayInYear | js/linechart.js:224-227 | corrected: `findDate`'s day through the corrected `dateFromDay` is a valid day of the brushed year, January 1 for a day number below 1 |
| LineChartView.FindDayInYearMonotone | js/linechart.js:224-227 | corrected: a later point in the year never yields an earlier day |
| LineChartView.PadMinute | js/linechart.js:255-257 | the minute text gets at least two digits and keeps its value; text of two or more digits is unchanged |
| LineChartView.FormatTime | js/linechart.js:243-261 | the step-by-step `timeFromDate` yields exactly the text `TimeFromDate` specifies |
| LineChartView.TimeFromDateReadBack | js/linechart.js:230-233 | splitting the text on `:` gives two digit fields; the hour reads back as the whole hours and the minute as 0 to 60; hours × 60 + minute is the time rounded to the nearest minute |
| LineChartView.TimeFromDateSplit | js/linechart.js:232 | the text splits on `:` into exactly the hour text and the padded minute text |
| LineChartView.RoundToMinute | js/linechart.js:249-252 | the rounded minute lies in 0..60, and whole hours × 60 plus it is the time rounded to the minute |
| LineChartView.TimeFromDatePads | js/linechart.js:255-259 | a time with a minute under ten is written `hour:0m` |
| LineChartView.FilterDate | js/linechart.js:270-276 | keeps exactly the records whose begin timestamp parses and lies in [start, end], inclusive; unparseable dates are dropped |
| LineChartView.FilterDateConcat | js/linechart.js:270-276 | the filter preserves order: it distributes over concatenation |
| LineChartView.FilterDateEmptyWindow | js/linechart.js:270-276 | a window that ends before it starts keeps nothing |
| LineChartView.LineChart.constructor | js/linechart.js:7-20 | the view holds its records and the two views its brush feeds |
| LineChartView.LineChart.UpdateVis | js/linechart.js:108-127 | `timeArray` becomes the sorted year rollup; the x domain is its first and last year; the y maximum is its largest count |
| LineChartView.LineChart.Brushed | js/linechart.js:196-219 | the line chart's own records never change; an active brush sets `brushData` to the window's records and feeds them to both views; a cleared brush feeds the line chart's records; after feeding, the bar chart holds the bar groups, their keys and largest count as domains, the rendering handler and no marks; the cartogram holds the region grouping of what it was fed, and on success the packs in order with the hover filter reset; its features, click handler and marks are unchanged, and on a missing feature so are its packs and hover filter |
| LineChartView.LineChart.Feed | js/linechart.js:210-218 | the bar chart and the cartogram receive the same records and are both updated from them, with every field of both views stated as for `Brushed` |
| Dashboard.Views.OnCauseSelected | js/main.js:5-8 | the dispatcher hands the same set to the bar chart and the cartogram: both enter the state the set delivers and are marked from it; for a non-empty set both click handlers and the cartogram's hover filter hold that set, for the empty set the hover filter is cleared; data, domains, features and packs are unchanged |
| Dashboard.Views.ClickBar | js/barchart.js:153-243 | from any view state, a bar click and its dispatch move both views to the selection machine's next state and mark them from the payload; the cartogram's hover filter is the shared set exactly when a non-empty selection remains; in a selection the shared set itself is toggled and, if still non-empty, stays bound in both views; records, groups, domains, packs and features never change |
| Dashboard.Views.ClickBarChartBackground | js/barchart.js:177-183 | a click on SVG space off the bars clears both views into the no-selection state and clears the hover filter; a click on a bar or on the HTML holder leaves the marks, handlers and hover filter as they were; records, groups, domains, packs and features never change |
| Dashboard.Views.ClickCircle | js/dorlingcartogram.js:174-214 | from any view state, a circle click moves the cartogram to the selection machine's next state; when a set is dispatched the bar chart follows into the same state and both are marked from it, otherwise the bar chart, all marks and the hover filter are unchanged; after a dispatch the hover filter is the shared set exactly when a non-empty selection remains; in a selection the shared set loses `c`; records, groups, domains, packs and features never change |
| Dashboard.Views.BrushThenClear | js/linechart.js:212-216 | brushing a window and then clearing the brush gives both views back exactly the line chart's records; the bar chart is back in the rendered state and the cartogram keeps its features and click handler |
| Dashboard.Load | js/main.js:49-110 | the array is normalised in place; the cartogram holds the region grouping of the normalised records; when a region lacks a feature the update throws and no other view is built; otherwise the bar chart and the line chart hold all records with their groupings, and the line chart feeds these same two views |
| Dashboard.BuildViews | js/main.js:92-110 | the cartogram is built first; its missing-feature throw yields no other views; otherwise the three views are built over the same records, wired together, and start in the rendered selection state |
| Dashboard.BuildCartogram | js/main.js:92-95 | the cartogram after its first update holds the region grouping of the records |
| Dashboard.BuildBarChart | js/main.js:97-100 | the bar chart after its first update holds the records and their bar groups |

## Left out

- All D3 rendering is not modelled: selections, joins, transitions, axes, tick removal, tooltip positioning and styling. It is presentation done by a foreign library. The classes applied to marks are kept as one `Highlight` per view.
- Click handlers are modelled per view, not per mark. After a re-render, newly joined circles carry no handler in the source, while the model keeps one handler for the whole view.
- `d3.packSiblings`, `d3.packEnclose`, the `scaleSqrt` radius, the `geoAlbersUsa` projection, the centroids and `_applySimulation` (js/dorlingcartogram.js:60-62, 76-77, 85-102) are not modelled: they are library calls and floating-point physics. A pack holds its region's records in order and the feature's centre, already projected. `values` holds the packs as they enter the simulation.
- JavaScript `Date` parsing and arithmetic are parameters:
  - `elapsed` stands for the Duration subtraction (js/main.js:67);
  - `parse` stands for `new Date(...).getTime()` in `filterDate`, with `None` as `NaN`.
  - `NaN` durations are not modelled.
- `xScale.invert` and the `Date`/`setHours` construction in `findDate` are not modelled: they are floating-point mappings. `Brushed` receives the window already converted to timestamps. Its calendar-day and time-of-day pieces are `FindDay` and `TimeFromDate`.
- `setHours` normalising a minute of `60` into the next hour is not modelled. `TimeFromDate` can produce that minute, and `TimeFromDateReadBack` states it.
- `FormatTime` and `TimeFromDate` use exact real arithmetic instead of doubles. They take the fractional part as `hours - floor(hours)`, where the source re-reads it through `getDecimal` on the number's text. `GetDecimalIsFraction` shows the two agree on decimal text. Exponent notation such as `1e-7` is not modelled.
- `Year` is modelled as an integer. The source keys the rollup on the CSV text and sorts it numerically, so two different texts of the same number would form two keys there.
- Text measurement (`getComputedTextLength`) is a function parameter of `Wrap`. The `/\s+/` split of the label is not modelled: the words are given. `tspan` positioning is not modelled either.
- Asynchronous loading, the feature centroids and the `.catch` logging (js/main.js:40-48, 108-110) are not modelled. `Load` receives the records and the features. When the cartogram's update throws, `Load` returns the cartogram and no other views; the dispatcher then reaching an undefined bar chart is not modelled.
- BarChart.Barchart.ClickBackground: the handler is bound to both elements `#bar-chart` selects, the SVG drawing and its HTML holder. A click inside the drawing reaches both listeners and dispatches the empty set twice. The model dispatches it once; delivering the empty set a second time gives the same state. How much of the holder lies outside the drawing depends on the page markup, which is not part of this model.
- The `console.log` calls in the line chart's `updateVis` and `brushed` (js/linechart.js:113, 208) are not modelled: they only write to the browser console.
- Normalize.NormalizeEventType: the source tests `eventTypeMap[label] !== undefined` on a plain object, so a label that names an inherited `Object.prototype` member (`constructor`, `toString`, …) is replaced by that function. The model treats the table as a map with exactly its 21 keys and leaves such labels unchanged.
- The `onRegionSelected` wiring (js/main.js:10-13) is not modelled: it calls methods that no class defines.
- The order of the dispatcher's fan-out (bar chart first, then cartogram) is not modelled. The two calls touch disjoint state, so only the final state is stated.
- The HTML of the tooltips is not modelled: `Cartogram.TooltipList` has no contract, and the bar chart's title and total lines are not modelled. Their contents are stated through `TooltipHeaderLines`, `TooltipLines` and `RegionBreakdown`.
- The configuration constants, scales, colours and `xHalfYearScale` dates of `initVis`/`updateVis` are not modelled, apart from `maxBandWidth`.

## Findings

| source | as written | input that shows it | evidently intended | confidence | as-written member | corrected member |
|---|---|---|---|---|---|---|
| js/linechart.js:236-239 | `dateFromDay` special-cases only `day === 0`; any other day goes to `setDate`, which truncates it, and day 0 of a month is the last day of the previous month | year 2017, day 0.365 (a brush edge about eight hours into 2017) gives December 31, 2016, while day 0 gives January 1, 2017 | a day below 1 is January 1 of the brushed year, so the found date never leaves that year or moves backwards (the comment "add the number of days" at js/linechart.js:238 would equally fit day `floor(d)` as an index from January 1; either reading keeps the date in the year) | high; not executed | LineChartView.DateFromDayJumpsBack, LineChartView.FindDayJumpsBack | LineChartView.DateFromDayInYear, LineChartView.FindDayInYear |
