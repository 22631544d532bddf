# Calendar heatmap — a Dafny model of its data and navigation core

The calendar heatmap is a React component (`CalendarHeatmap`, in
`src/calendar-heatmap.component.js`). It draws time-tracking data as a
heatmap: one block per year in the global view, and one circle per day in
the year view. Clicking moves deeper into the data.

This project models what the component computes and what it keeps in its
own fields. It does not model what it paints.

- **`calendar.dfy`** (module `Calendar`) holds the records:
  - day records with a caller-supplied `total`, their `details`, and an
    optional `summary`;
  - the (name, value) summary entries;
  - the sums and name lookups the rest builds on.
- **`summary.dfy`** (module `Summary`) holds the summary computation that
  `parseData` and the global view share:
  - it groups entries by project name, summing values, in first-appearance
    order (the key order of the object the source reduces into);
  - it then sorts them descending by value with a stable sort.
  
  The ghost predicate `IsSummaryOf` states the result. The lemmas show that
  the result is unique, conserves the values, and is empty for no input.
- **`buckets.dfy`** (module `Buckets`) holds the global view's data and two
  filters:
  - one bucket per calendar year from the first record's year to the last
    record's year, with the year's total and merged summary;
  - the largest bucket total;
  - the year filter of the year view and the month filter of the month
    labels.
- **`tooltip.dfy`** (module `Tooltip`) holds the global view's tooltip:
  - the total split into days, hours and minutes;
  - the first five projects plus an "Other" row;
  - the left edge moved left in steps of 10 pixels until the tooltip fits.
- **`heatmap.dfy`** (module `Heatmap`) holds the class `CalendarHeatmap`:
  - the fields `in_transition`, `history`, `selected`, `overview` and the
    data;
  - the items each view binds;
  - the countdown of running transitions;
  - `calcDimensions`, `parseData`, `drawChart`, the two draw functions
    that exist, and the click, hover and transition-end handlers.

Behaviour of the code that its props and comments suggest otherwise, and
that the model follows:

- **Initial view.** `defaultProps` gives `overview: 'year'` (line 719),
  but the component never reads that prop and never sets `this.overview`
  (lines 8-29), so the first `drawChart` (lines 110-122) draws nothing
  (`Heatmap.CalendarHeatmap.Mount`).
- **Empty dataset.** The default `data` is an empty array (line 718).
  `calcDimensions` (line 75) and `parseData` (line 84) read its first
  record and throw. The model returns `ok = false`.
- **Day totals.** A day's `total` is taken from the caller (lines 144-149
  add it up as given) and is never compared with its details or summary. The model proves a year's
  balance only when each day balances (`Buckets.BucketBalanced`).
- **Zero-total guard.** The `total === 0` guard (line 464) is on the day
  circles only; a year block with total 0 still opens its year view (lines
  216-234).
- **Month guard.** A month label click goes through when any record falls
  in the month, whatever its total (lines 637-642).
- **History.** The new view is pushed from inside the new view's draw, and
  only when it differs from the top of `history` (lines 131-133 and
  396-398).

Records are presumed to be in date order, as the source assumes: it takes
the first and last records as the ends of the range. Moment's date
handling is reduced to the calendar fields of a `Date`.

## Model

| member | source | states |
|---|---|---|
| Calendar.DetailEntries | src/calendar-heatmap.component.js:86-95 | the details folded for a day, one entry per detail, with that detail's name and value, in order |
| Calendar.NameIndex | src/calendar-heatmap.component.js:96-101 | the key order of the reduced object: the index of the first entry with the name (or the length), with no earlier entry of that name |
| Calendar.NameIndexFound | src/calendar-heatmap.component.js:87-93 | the "already seen" test of the reduce: a name is found exactly when some entry carries it |
| Summary.AddEntryStep | src/calendar-heatmap.component.js:87-93 | one reduce step: the name joins the keys; a new name adds one entry holding the step at the end; a known name keeps the length and every key in place, and only the value of the key with that name grows, by the step's value; the values in all grow by exactly the step's value |
| Summary.Group | src/calendar-heatmap.component.js:86-101 | grouping: exactly the names of the input, each with the sum of its values, in order of first appearance |
| Summary.Insert | src/calendar-heatmap.component.js:102-104 | inserting into the sorted prefix keeps the same entries (multiset) |
| Summary.SortDesc | src/calendar-heatmap.component.js:102-104 | sorting is a permutation of its input (multiset) |
| Summary.InsertOrdered | src/calendar-heatmap.component.js:102-104 | insertion keeps the order: higher value first, ties in first-appearance order |
| Summary.SortDescOrdered | src/calendar-heatmap.component.js:102-104 | the comparator `b.value - a.value` under a stable sort: descending, ties in first-appearance order |
| Summary.Summarize | src/calendar-heatmap.component.js:86-104 | a day's summary: distinct names, one per project seen, each with its summed value, sorted descending and stable on ties |
| Summary.SummaryConserves | src/calendar-heatmap.component.js:86-104 | a summary's values add up to the values of what it summarises |
| Summary.SummaryUnique | src/calendar-heatmap.component.js:86-104 | only one sequence is the summary of a given input, so the summary is deterministic |
| Summary.SummaryOfNothing | src/calendar-heatmap.component.js:86-104 | the summary of no entries is empty |
| Buckets.Filter | src/calendar-heatmap.component.js:405-407 | the records kept are exactly those of the input satisfying the test, and never more of them |
| Buckets.FilterCounts | src/calendar-heatmap.component.js:405-407 | `Array.prototype.filter` keeps each passing record as often as it occurs and drops every other |
| Buckets.FilterAppend | src/calendar-heatmap.component.js:405-407 | filtering keeps the order: filtering a concatenation concatenates the filtered parts |
| Buckets.YearRecords | src/calendar-heatmap.component.js:405-407 | the year view's records are exactly the dataset's records dated in the year, each as often as in the dataset |
| Buckets.MonthRecords | src/calendar-heatmap.component.js:637-639 | the month label's records are exactly the dataset's records dated in that month, each as often as in the dataset |
| Buckets.YearTotal | src/calendar-heatmap.component.js:144-149 | the reduce of a year's totals is 0 for a year without records and never negative when the year's totals are not |
| Buckets.YearEntries | src/calendar-heatmap.component.js:151-164 | exactly the summary entries of the year's records are merged: every one of them is there, and nothing else is |
| Buckets.YearEntriesAppend | src/calendar-heatmap.component.js:151-164 | the merged entries come in data order: those of earlier records before those of later ones |
| Buckets.YearTotalIsYearRecordsTotal | src/calendar-heatmap.component.js:144-149 | a year block's total is the sum of the totals of the records the year view shows for that year |
| Buckets.YearWithoutRecords | src/calendar-heatmap.component.js:140-164 | a year with no records gets total 0 and nothing to summarise |
| Buckets.YearEntriesBalance | src/calendar-heatmap.component.js:144-164 | when each day's total is its summary's sum, the entries merged for a year add up to the year's total |
| Buckets.BucketBalanced | src/calendar-heatmap.component.js:140-174 | when each day balances, a year block's summary adds up to its total |
| Buckets.EmptyBucket | src/calendar-heatmap.component.js:140-174 | a block for a year without records has total 0 and an empty summary |
| Buckets.YearSummary | src/calendar-heatmap.component.js:150-174 | a year's summary is the summary of all its days' summary entries merged by name |
| Buckets.GlobalYearData | src/calendar-heatmap.component.js:136-176 | no data is a failure. It fails exactly when a record in the range lacks a summary. Otherwise there is one block per year from the first record's year to the last, each with that year's total and summary |
| Buckets.MaxTotal | src/calendar-heatmap.component.js:179-181 | undefined exactly for no blocks; otherwise a block's total that no block exceeds |
| Tooltip.Decompose | src/calendar-heatmap.component.js:243-256 | hours below 24, minutes below 60, and the parts fall short of the seconds by less than a minute |
| Tooltip.DecomposeUnique | src/calendar-heatmap.component.js:243-256 | no other days/hours/minutes split meets those bounds |
| Tooltip.TimeLabel | src/calendar-heatmap.component.js:243-263 | days, hours, minutes in that order, each shown exactly when above 0, singular exactly for 1, together within a minute of a non-negative total |
| Tooltip.SplitSummaryAsWritten | src/calendar-heatmap.component.js:266-285 | as written: five projects listed, and "Other" holds only the last project's value |
| Tooltip.SplitSummary | src/calendar-heatmap.component.js:266-285 | as intended: five projects listed, "Other" holds the sum of the rest, and the rows add up to the whole summary |
| Tooltip.OtherRowUndercounts | src/calendar-heatmap.component.js:278-282 | with two or more positive values beyond the fifth, the written "Other" value is less than their sum |
| Tooltip.OtherRowCounterexample | src/calendar-heatmap.component.js:278-282 | values 7,6,5,4,3,2,1: as written "Other" is 1, as intended 3 |
| Tooltip.ShiftTooltipX | src/calendar-heatmap.component.js:288-291 | the tooltip fits and is moved left by a multiple of 10. If it moved at all, one step less would not have fit |
| Heatmap.Pushed | src/calendar-heatmap.component.js:131-133 | history only grows, by one entry exactly when the view differs from its top, and ends with the view |
| Heatmap.PushedNoRepeats | src/calendar-heatmap.component.js:396-398 | pushing keeps "no view twice in a row" and the initial 'global' at the bottom |
| Heatmap.ViewYear | src/calendar-heatmap.component.js:401-402 | the year view's year is missing (invalid bounds) exactly when a label's moment is selected; with nothing selected it is the clock's year, for a day the day's year |
| Heatmap.ViewRecords | src/calendar-heatmap.component.js:401-407 | the year view keeps exactly the records of its year, each as often as in the dataset, and none when its bounds are invalid dates |
| Heatmap.Widened | src/calendar-heatmap.component.js:69 | the chart width is the container's width, raised to 1000 when the container is narrower |
| Heatmap.ParsedBalanced | src/calendar-heatmap.component.js:86-104 | a parsed record's summary adds up to its details' values |
| Heatmap.ParsedReady | src/calendar-heatmap.component.js:84-106 | after parsing every record has a summary, so the global view's data can be built |
| Heatmap.FirstLabelHasRecords | src/calendar-heatmap.component.js:136-140 | the first year block's year always has a record |
| Heatmap.CalendarHeatmap.constructor | src/calendar-heatmap.component.js:8-29 | not in transition, history ['global'], empty selection, overview undefined |
| Heatmap.CalendarHeatmap.ParseData | src/calendar-heatmap.component.js:80-108 | no-op without data or when the first record has a summary. It throws on an empty array. Otherwise only the summaries change, each record getting the summary of its details |
| Heatmap.CalendarHeatmap.DrawGlobalOverview | src/calendar-heatmap.component.js:128-330 | the view is pushed. It fails exactly when the data cannot be read. Otherwise the blocks bound are the year buckets and one transition per block starts; no blocks means the transition ends at once |
| Heatmap.CalendarHeatmap.DrawYearOverview | src/calendar-heatmap.component.js:394-589 | the view is pushed, the circles bound are the selected year's records, and one transition per circle starts |
| Heatmap.CalendarHeatmap.DrawChart | src/calendar-heatmap.component.js:110-122 | dispatches on the view. An undefined view changes nothing. Month, week and day throw without changing state |
| Heatmap.CalendarHeatmap.CalcDimensions | src/calendar-heatmap.component.js:65-77 | the width becomes the widened container width. An empty dataset throws. Without summaries nothing else changes; with them the current view is redrawn as `drawChart` does |
| Heatmap.CalendarHeatmap.Mount | src/calendar-heatmap.component.js:32-38 | with the view still undefined, mounting sizes the chart, parses the data as `parseData` does and fails exactly on an empty dataset; history, bound items and transitions are untouched |
| Heatmap.CalendarHeatmap.ClickYearBucket | src/calendar-heatmap.component.js:216-234 | ignored in transition. Otherwise it selects the block, switches to the year view, pushes 'year' and shows exactly that year's records |
| Heatmap.CalendarHeatmap.ClickYearLabelAsWritten | src/calendar-heatmap.component.js:369-387 | as written: the label's moment is selected and the year view shows no records at all |
| Heatmap.CalendarHeatmap.ClickYearLabel | src/calendar-heatmap.component.js:369-387 | as intended: the label's year is selected and the year view shows exactly that year's records |
| Heatmap.CalendarHeatmap.ClickDay | src/calendar-heatmap.component.js:460-480 | ignored in transition or for a day with total 0. Otherwise the day is selected, the view becomes 'day', in transition, and the missing day view throws; data, history, bound items and countdown are untouched |
| Heatmap.CalendarHeatmap.ClickMonthLabel | src/calendar-heatmap.component.js:633-658 | ignored in transition or when no record falls in the month. Otherwise the month is selected, the view becomes 'month', in transition, and the missing month view throws; data, history, bound items and countdown are untouched |
| Heatmap.CalendarHeatmap.TransitionEnded | src/calendar-heatmap.component.js:316-330 | one fewer transition is pending, and the transition flag clears when the last one ends |
| Heatmap.CalendarHeatmap.HoverYearBucketAsWritten | src/calendar-heatmap.component.js:236-302 | as written: nothing in transition. Otherwise the block's time label, its first five projects, an "Other" row with only the last project's value, and the left edge that the loop of lines 288-291 reaches in the chart's current width |
| Heatmap.CalendarHeatmap.HoverYearBucket | src/calendar-heatmap.component.js:236-302 | as intended: the same, but "Other" holds the sum of the rest, so the rows add up to the block's summary |

## Left out

- **Pixel geometry and styling.** Band and linear scales, the item size and height of `calcDimensions`, colours, opacity fades and their delays are not modelled. A draw is reduced to the items it binds and the transitions it starts.
- **Unbound names in `createElements` and `calcDimensions`.** Lines 50-52 append to an undefined `svg` (meaning `this.svg`), line 69 reads an undefined `container` (meaning the chart's container element) and line 72 calls `this.attr` (meaning `this.svg.attr`). The model takes the evident intent: the container's width is the parameter `containerWidth`, and the SVG elements, which hold no state modelled here, are left out.
- **HTML and mouse highlighting.** Tooltip HTML and the mouseenter/mouseout highlighting are not modelled. The handlers that draw them only read the `in_transition` guard (lines 304, 350, 361).
- **Functions called but not defined in the file.** `drawMonthOverview`, `drawWeekOverview`, `drawDayOverview`, `drawButton`, `hideTooltip`, `formatTime`, `removeGlobalOverview` and `removeYearOverview` are not part of this model. The model makes a mixed choice about them:
  - `hideTooltip` (lines 226, 305, 379, 472, 564, 650), `removeGlobalOverview` (lines 229, 382) and `removeYearOverview` (lines 475, 653) are taken as no-ops on the state modelled here, which is their evident intent. As written, each click would throw at `this.hideTooltip()` right after setting `in_transition` and `selected`, before `overview` changes. The model instead goes on to set `overview` and draw.
  - `formatTime` (lines 270-284) is taken as turning the seconds into text; the tooltip models the numbers it is given.
  - A dispatch to a missing view (`drawMonthOverview`, `drawWeekOverview`, `drawDayOverview`) is taken as a throw that leaves the state as it was when the dispatch began.
  - Back navigation, which `drawButton` would add, is not modelled.
- **Throw after the year view's draw.** `Heatmap.CalendarHeatmap.DrawYearOverview`: the trailing `drawButton()` call, which would throw after all the state changes modelled here, is not modelled.
- **Callback `this` binding.** In the source, the d3 callbacks use `function` expressions, so `this` is not the component there. The model takes the evidently intended binding to the component.
- **Object key order.** JavaScript puts integer-like keys first. Names such as `__proto__` or `constructor` collide with `Object.prototype`. The model keeps plain first-appearance order for every name.
- **Time of day.** Moment's times of day, time zones and the last-millisecond exclusion of `endOf('year')`/`endOf('month')` are not modelled. A record's year and month are read from its `Date`.
- **Clock.** The clock that moment reads for an absent date is the parameter `clockYear`.
- **Numbers.** Values, totals and seconds are unbounded integers. Floating-point division, `parseInt` on non-integral totals, and `NaN` from missing values are not modelled.
- Heatmap.CalendarHeatmap.DrawGlobalOverview: each draw in the source runs its own countdown (a local `n`, lines 320-327), and whichever countdown reaches 0 first clears `in_transition` (lines 328-330). An older draw's countdown can therefore clear the flag while a newer draw's transitions still run: for example, a block clicked before the blocks have faded in opens the year view, and the remaining block transitions end it early. The model keeps a single counter `pending` that each draw resets, so it clears the flag only when the latest draw's transitions have all ended. d3 transition interruption is not modelled either.
- Heatmap.CalendarHeatmap.DrawYearOverview: the same single counter stands for the year view's own countdown (lines 579-589), which the source likewise keeps per draw.
- **Input-order assumption.** `Buckets.GlobalYearData` does not check that records are sorted by date. It takes the first and last records' years as the source does; when the last is earlier, there are no blocks.

## Findings

| source | as written | input that shows it | evidently intended | confidence | as-written member | corrected member |
|---|---|---|---|---|---|---|
| src/calendar-heatmap.component.js:281 | `other_projects_sum = +d.summary[i].value` keeps only the last project's value, which the tooltip shows (`Heatmap.CalendarHeatmap.HoverYearBucketAsWritten`) | a year summary with values 7,6,5,4,3,2,1: "Other" shows 1 | `+=`: "Other" shows the sum of all projects after the fifth (3) | high, not executed | Tooltip.SplitSummaryAsWritten | Tooltip.SplitSummary |
| src/calendar-heatmap.component.js:376 | `this.selected = d` stores the label's moment. The year view then reads `selected.date`, which is moment's getter method, not a date, so the view's bounds are invalid and it keeps no records | any dataset: clicking the first year label opens an empty year view, although that year has records (`Heatmap.FirstLabelHasRecords`) | `this.selected = { date: d }`, as the month labels do: the year view shows the label's year | medium (depends on moment turning a function into an invalid date), not executed | Heatmap.CalendarHeatmap.ClickYearLabelAsWritten | Heatmap.CalendarHeatmap.ClickYearLabel |
