/**
 * The CalendarHeatmap component (src/calendar-heatmap.component.js) as a
 * class: the navigation state it keeps in its own fields (`in_transition`,
 * `history`, `selected`, `overview`), the data it fills in (`parseData`),
 * the items each view binds, and the handlers that move between views. The
 * pixel geometry, colours and HTML of the views are not modelled; what a
 * draw binds (the year buckets, the day records) and how many transitions it
 * starts is.
 */
module Heatmap {
  import opened Calendar
  import opened Summary
  import opened Buckets
  import opened Tooltip

  /** settings.width before any resize, and the least width a resize sets. */
  const ChartWidth := 1000

  /** Line 69: the chart takes the container's width, but never less than 1000 pixels. */
  function Widened(containerWidth: int): (w: int)
    ensures w >= ChartWidth && w >= containerWidth
    ensures w == containerWidth || w == ChartWidth
  {
    if containerWidth < ChartWidth then ChartWidth else containerWidth
  }

  /** The value of `this.overview`; `Unset` is the `undefined` it starts as. */
  datatype Overview = Unset | Global | Year | Month | Week | Day

  /** The value of `this.selected`. */
  datatype Selection =
    | NoSelection                          // the `{}` of the constructor
    | SelectedBucket(bucket: YearBucket)   // a year block's bucket
    | SelectedMoment(year: int)            // a year label's moment: its `date` is moment's getter method, not a date
    | SelectedYear(year: int)              // `{ date: <start of year> }`, as the month labels do it
    | SelectedDay(day: DayRecord)          // a day circle's record
    | SelectedMonth(year: int, month: int) // `{ date: <start of month> }` of a month label

  /** What a global-view tooltip shows: the time line, the listed projects, the "Other" row, its position. */
  datatype HoverTip = HoverTip(time: seq<TimePart>, listed: seq<Entry>, other: Option<int>, x: int, y: int)

  /** No view is recorded twice in a row. */
  predicate NoRepeats(h: seq<Overview>)
  {
    forall i :: 0 < i < |h| ==> h[i] != h[i - 1]
  }

  /** Lines 131-133 and 396-398: the current view is pushed unless it is already on top. */
  function Pushed(h: seq<Overview>, o: Overview): (r: seq<Overview>)
    requires h != []
    ensures h <= r && |r| <= |h| + 1 && r[|r| - 1] == o
    ensures |r| == |h| + 1 <==> h[|h| - 1] != o
  {
    if h[|h| - 1] != o then h + [o] else h
  }

  lemma PushedNoRepeats(h: seq<Overview>, o: Overview)
    requires h != [] && NoRepeats(h)
    ensures NoRepeats(Pushed(h, o)) && Pushed(h, o)[0] == h[0]
  {
  }

  /**
   * The year the year view shows (lines 401-402): that of `selected.date`.
   * With nothing selected moment reads the clock; a label's moment has no
   * date field, so the view's bounds are invalid dates (`None`).
   */
  function ViewYear(sel: Selection, clockYear: int): (y: Option<int>)
    ensures y.None? <==> sel.SelectedMoment?
    ensures sel.NoSelection? ==> y == Some(clockYear)
    ensures sel.SelectedDay? ==> y == Some(YearOf(sel.day.date))
  {
    match sel
    case NoSelection => Some(clockYear)
    case SelectedBucket(b) => Some(b.year)
    case SelectedMoment(_) => None
    case SelectedYear(y) => Some(y)
    case SelectedDay(d) => Some(YearOf(d.date))
    case SelectedMonth(y, _) => Some(y)
  }

  /** The records the year view keeps (lines 405-407); no record lies between invalid bounds. */
  function ViewRecords(data: seq<DayRecord>, y: Option<int>): (r: seq<DayRecord>)
    ensures y.None? ==> r == []
    ensures y.Some? ==> forall d :: d in r <==> d in data && InYear(d, y.value)
    ensures y.Some? ==> forall d :: multiset(r)[d] == if InYear(d, y.value) then multiset(data)[d] else 0
  {
    if y.None? then [] else YearRecords(data, y.value)
  }

  /** The global view can be drawn: there is a first record, and every record of its years has a summary. */
  predicate GlobalReady(data: Option<seq<DayRecord>>)
  {
    && data.Some? && data.value != []
    && SummariesReady(data.value, YearOf(data.value[0].date), YearOf(data.value[|data.value| - 1].date))
  }

  function FirstYear(data: seq<DayRecord>): int
    requires data != []
  {
    YearOf(data[0].date)
  }

  function LastYear(data: seq<DayRecord>): int
    requires data != []
  {
    YearOf(data[|data| - 1].date)
  }

  /** `r` is record `d` with its summary filled in by parseData. */
  ghost predicate Parsed(r: DayRecord, d: DayRecord)
  {
    && r.date == d.date && r.total == d.total && r.details == d.details
    && r.summary.Some? && IsSummaryOf(r.summary.value, DetailEntries(d.details))
  }

  ghost predicate ParsedAll(r: seq<DayRecord>, s: seq<DayRecord>)
  {
    |r| == |s| && forall i :: 0 <= i < |s| ==> Parsed(r[i], s[i])
  }

  /**
   * What parseData leaves in `this.props.data` (lines 80-108): nothing
   * changes without data, for an empty array (reading its first record
   * throws) or when the first record has a summary already; otherwise every
   * record gets the grouped, sorted summary of its details.
   */
  ghost predicate ParsedFrom(before: Option<seq<DayRecord>>, after: Option<seq<DayRecord>>)
  {
    if before.None? || before.value == [] || before.value[0].summary.Some? then after == before
    else after.Some? && ParsedAll(after.value, before.value)
  }

  /** A parsed record's summary adds up to the values of its details. */
  lemma ParsedBalanced(r: DayRecord, d: DayRecord)
    requires Parsed(r, d)
    ensures SumValues(r.summary.value) == SumValues(DetailEntries(d.details))
  {
    SummaryConserves(r.summary.value, DetailEntries(d.details));
  }

  /** Once parsed, every record has a summary, so the global view can be drawn. */
  lemma ParsedReady(r: seq<DayRecord>, s: seq<DayRecord>)
    requires ParsedAll(r, s) && s != []
    ensures GlobalReady(Some(r))
  {
    forall i | 0 <= i < |r| ensures r[i].summary.Some? {
      assert Parsed(r[i], s[i]);
    }
  }

  /**
   * The first block of the global view is for a year that has records, so
   * its label's year view is never rightly empty.
   */
  lemma FirstLabelHasRecords(buckets: seq<YearBucket>, data: seq<DayRecord>)
    requires data != [] && buckets != [] && BucketsFrom(buckets, data, FirstYear(data))
    ensures YearRecords(data, buckets[0].year) != []
  {
    assert BucketAt(buckets, data, FirstYear(data), 0);
    assert data[0] in YearRecords(data, buckets[0].year);
  }

  class CalendarHeatmap {
    /** `this.props.data`; `None` when the prop is missing. */
    var data: Option<seq<DayRecord>>
    var inTransition: bool
    var history: seq<Overview>
    var selected: Selection
    var overview: Overview
    /** The `n` of the running countdown: transitions still to end. */
    var pending: nat
    /** The year blocks the global view bound. */
    var yearBuckets: seq<YearBucket>
    /** The year the year view shows, and the day circles it bound. */
    var viewYear: Option<int>
    var dayItems: seq<DayRecord>
    /** settings.width */
    var width: int

    predicate Valid()
      reads this
    {
      history != [] && history[0] == Global && NoRepeats(history) && width >= ChartWidth
    }

    /** Nothing a view binds or counts has changed. */
    twostate predicate ViewsKept()
      reads this
    {
      && history == old(history) && yearBuckets == old(yearBuckets) && viewYear == old(viewYear)
      && dayItems == old(dayItems) && pending == old(pending) && inTransition == old(inTransition)
    }

    /** Lines 8-29. `overview` is not set, so it stays undefined. */
    constructor(data: Option<seq<DayRecord>>)
      ensures Valid()
      ensures this.data == data && history == [Global] && !inTransition
      ensures selected == NoSelection && overview == Unset && pending == 0
      ensures yearBuckets == [] && viewYear == None && dayItems == [] && width == ChartWidth
    {
      this.data := data;
      inTransition := false;
      history := [Global];
      selected := NoSelection;
      overview := Unset;
      pending := 0;
      yearBuckets := [];
      viewYear := None;
      dayItems := [];
      width := ChartWidth;
    }

    /**
     * parseData (lines 80-108). Nothing to do without data or when the first
     * record already has a summary; otherwise every record gets the grouped,
     * sorted summary of its details. An empty array passes the guard and
     * reading its first record throws (`ok` false).
     */
    method ParseData() returns (ok: bool)
      modifies this`data
      ensures ok <==> old(data) != Some([])
      ensures ParsedFrom(old(data), data)
    {
      if data.None? {
        return true;
      }
      var s := data.value;
      if s == [] {
        return false;
      }
      if s[0].summary.Some? {
        return true;
      }
      var out := s;
      for i := 0 to |s|
        invariant |out| == |s|
        invariant forall j :: 0 <= j < i ==> Parsed(out[j], s[j])
      {
        var summary := Summarize(DetailEntries(s[i].details));
        out := out[i := s[i].(summary := Some(summary))];
      }
      data := Some(out);
      ok := true;
    }

    /** The global view's effect on the state (drawGlobalOverview, lines 128-388). */
    twostate predicate GlobalDrawn(ok: bool, wasInTransition: bool)
      reads this
    {
      && old(history) != []
      && history == Pushed(old(history), overview)
      && dayItems == old(dayItems) && viewYear == old(viewYear)
      && (ok <==> GlobalReady(data))
      && (ok ==>
            && |yearBuckets| == YearSpan(FirstYear(data.value), LastYear(data.value))
            && BucketsFrom(yearBuckets, data.value, FirstYear(data.value))
            && pending == |yearBuckets|
            && inTransition == (wasInTransition && pending > 0))
      && (!ok ==> yearBuckets == old(yearBuckets) && pending == old(pending) && inTransition == wasInTransition)
    }

    /** The year view's effect on the state (drawYearOverview, lines 394-708). */
    twostate predicate YearDrawn(ok: bool, clockYear: int, wasInTransition: bool)
      reads this
    {
      && old(history) != []
      && history == Pushed(old(history), overview)
      && yearBuckets == old(yearBuckets)
      && (ok <==> data.Some?)
      && (ok ==>
            && viewYear == ViewYear(selected, clockYear)
            && dayItems == ViewRecords(data.value, viewYear)
            && pending == |dayItems|
            && inTransition == (wasInTransition && pending > 0))
      && (!ok ==> viewYear == old(viewYear) && dayItems == old(dayItems) && pending == old(pending) && inTransition == wasInTransition)
    }

    /**
     * Lines 128-330: record the view, bind one block per year, and start
     * one transition per block; with no blocks the countdown ends at once.
     */
    method DrawGlobalOverview() returns (ok: bool)
      requires Valid()
      modifies this`history, this`yearBuckets, this`pending, this`inTransition
      ensures Valid()
      ensures GlobalDrawn(ok, old(inTransition))
    {
      PushedNoRepeats(history, overview);
      history := Pushed(history, overview);
      if data.None? {
        return false;
      }
      var r := GlobalYearData(data.value);
      if r.None? {
        return false;
      }
      yearBuckets := r.value;
      pending := |yearBuckets|;
      if pending == 0 {
        inTransition := false;
      }
      ok := true;
    }

    /**
     * Lines 394-589: record the view, keep the selected year's records, and
     * start one transition per record. Filtering a missing dataset throws.
     */
    method DrawYearOverview(clockYear: int) returns (ok: bool)
      requires Valid()
      modifies this`history, this`viewYear, this`dayItems, this`pending, this`inTransition
      ensures Valid()
      ensures YearDrawn(ok, clockYear, old(inTransition))
    {
      PushedNoRepeats(history, overview);
      history := Pushed(history, overview);
      if data.None? {
        return false;
      }
      viewYear := ViewYear(selected, clockYear);
      dayItems := ViewRecords(data.value, viewYear);
      pending := |dayItems|;
      if pending == 0 {
        inTransition := false;
      }
      ok := true;
    }

    /**
     * drawChart (lines 110-122). The month, week and day views are not
     * part of this file, so dispatching to them throws; with no overview
     * set nothing happens.
     */
    method DrawChart(clockYear: int) returns (ok: bool)
      requires Valid()
      modifies this`history, this`yearBuckets, this`viewYear, this`dayItems, this`pending, this`inTransition
      ensures Valid()
      ensures overview == Global ==> GlobalDrawn(ok, old(inTransition))
      ensures overview == Year ==> YearDrawn(ok, clockYear, old(inTransition))
      ensures overview != Global && overview != Year ==> unchanged(this) && (ok <==> overview == Unset)
    {
      if overview == Global {
        ok := DrawGlobalOverview();
      } else if overview == Year {
        ok := DrawYearOverview(clockYear);
      } else {
        ok := overview == Unset;
      }
    }

    /**
     * calcDimensions (lines 65-77), run by createElements and on every
     * resize: the chart takes the container's width (at least 1000 pixels),
     * and once the records carry summaries the current view is redrawn.
     * Reading the first record of an empty array throws.
     */
    method CalcDimensions(containerWidth: int, clockYear: int) returns (ok: bool)
      requires Valid()
      modifies this`width, this`history, this`yearBuckets, this`viewYear, this`dayItems, this`pending, this`inTransition
      ensures Valid() && width == Widened(containerWidth)
      ensures data == Some([]) ==> !ok && ViewsKept()
      ensures data.None? || (data.value != [] && data.value[0].summary.None?) ==> ok && ViewsKept()
      ensures data.Some? && data.value != [] && data.value[0].summary.Some? ==>
        && (overview == Global ==> GlobalDrawn(ok, old(inTransition)))
        && (overview == Year ==> YearDrawn(ok, clockYear, old(inTransition)))
        && (overview != Global && overview != Year ==> ViewsKept() && (ok <==> overview == Unset))
    {
      width := Widened(containerWidth);
      if data.Some? {
        if data.value == [] {
          return false;
        }
        if data.value[0].summary.Some? {
          ok := DrawChart(clockYear);
          return;
        }
      }
      ok := true;
    }

    /**
     * Mounting (lines 32-38): createElements sizes the chart to its
     * container (the draw it may start does nothing while no view is set),
     * then the data is parsed and the chart drawn, which with no view set
     * draws nothing either.
     */
    method Mount(containerWidth: int, clockYear: int) returns (ok: bool)
      requires Valid()
      modifies this`data, this`width, this`history, this`yearBuckets, this`viewYear, this`dayItems, this`pending, this`inTransition
      ensures Valid()
      ensures old(overview) == Unset ==>
        && (ok <==> old(data) != Some([]))
        && ParsedFrom(old(data), data) && width == Widened(containerWidth) && ViewsKept()
    {
      ok := CalcDimensions(containerWidth, clockYear);
      if !ok {
        return;
      }
      ok := ParseData();
      if !ok {
        return;
      }
      ok := DrawChart(clockYear);
    }

    /**
     * A click on the block of year `k` (lines 216-234): ignored during a
     * transition; otherwise it selects the block and opens the year view,
     * which shows exactly that year's records.
     */
    method ClickYearBucket(k: nat, clockYear: int) returns (ok: bool)
      requires Valid() && k < |yearBuckets|
      modifies this
      ensures Valid()
      ensures old(inTransition) ==> unchanged(this) && ok
      ensures !old(inTransition) ==>
        && selected == SelectedBucket(old(yearBuckets[k])) && overview == Year && data == old(data) && width == old(width)
        && YearDrawn(ok, clockYear, true)
        && (ok ==> viewYear == Some(old(yearBuckets[k].year)) && dayItems == YearRecords(data.value, old(yearBuckets[k].year)))
    {
      if inTransition {
        return true;
      }
      inTransition := true;
      selected := SelectedBucket(yearBuckets[k]);
      overview := Year;
      ok := DrawYearOverview(clockYear);
    }

    /**
     * A click on the label of year `k` as written (lines 369-387): the
     * label's moment itself becomes the selection, and the year view, which
     * reads `selected.date`, finds no year and shows no records at all.
     */
    method ClickYearLabelAsWritten(k: nat, clockYear: int) returns (ok: bool)
      requires Valid() && k < |yearBuckets|
      modifies this
      ensures Valid()
      ensures old(inTransition) ==> unchanged(this) && ok
      ensures !old(inTransition) ==>
        && selected == SelectedMoment(old(yearBuckets[k].year)) && overview == Year && data == old(data) && width == old(width)
        && YearDrawn(ok, clockYear, true)
        && (ok ==> dayItems == [] && !inTransition)
    {
      if inTransition {
        return true;
      }
      inTransition := true;
      selected := SelectedMoment(yearBuckets[k].year);
      overview := Year;
      ok := DrawYearOverview(clockYear);
    }

    /**
     * A click on the label of year `k` as evidently intended: the selection
     * carries the year as its date, so the year view shows that year's
     * records, as a click on the year's block does.
     */
    method ClickYearLabel(k: nat, clockYear: int) returns (ok: bool)
      requires Valid() && k < |yearBuckets|
      modifies this
      ensures Valid()
      ensures old(inTransition) ==> unchanged(this) && ok
      ensures !old(inTransition) ==>
        && selected == SelectedYear(old(yearBuckets[k].year)) && overview == Year && data == old(data) && width == old(width)
        && YearDrawn(ok, clockYear, true)
        && (ok ==> viewYear == Some(old(yearBuckets[k].year)) && dayItems == YearRecords(data.value, old(yearBuckets[k].year)))
    {
      if inTransition {
        return true;
      }
      inTransition := true;
      selected := SelectedYear(yearBuckets[k].year);
      overview := Year;
      ok := DrawYearOverview(clockYear);
    }

    /**
     * A click on the circle of day `k` in the year view (lines 460-480):
     * ignored during a transition and for a day with total 0; otherwise it
     * selects the day and switches to the day view, whose draw is not part
     * of this file and throws.
     */
    method ClickDay(k: nat, clockYear: int) returns (ok: bool)
      requires Valid() && k < |dayItems|
      modifies this
      ensures Valid()
      ensures old(inTransition) || old(dayItems[k].total) == 0 ==> unchanged(this) && ok
      ensures !old(inTransition) && old(dayItems[k].total) != 0 ==>
        && inTransition && selected == SelectedDay(old(dayItems[k])) && overview == Day && !ok
        && history == old(history) && pending == old(pending) && dayItems == old(dayItems)
        && data == old(data) && yearBuckets == old(yearBuckets) && viewYear == old(viewYear) && width == old(width)
    {
      if inTransition {
        return true;
      }
      if dayItems[k].total == 0 {
        return true;
      }
      inTransition := true;
      selected := SelectedDay(dayItems[k]);
      overview := Day;
      ok := DrawChart(clockYear);
    }

    /**
     * A click on the label of month `m` of the shown year (lines 633-658):
     * ignored during a transition and when no record falls in that month;
     * otherwise it selects the month and switches to the month view, whose
     * draw is not part of this file and throws. Filtering a missing dataset
     * throws too.
     */
    method ClickMonthLabel(m: int, clockYear: int) returns (ok: bool)
      requires Valid() && viewYear.Some? && 1 <= m <= 12
      modifies this
      ensures Valid()
      ensures old(inTransition) ==> unchanged(this) && ok
      ensures !old(inTransition) && old(data).None? ==> unchanged(this) && !ok
      ensures !old(inTransition) && old(data).Some? && MonthRecords(old(data).value, old(viewYear.value), m) == [] ==> unchanged(this) && ok
      ensures !old(inTransition) && old(data).Some? && MonthRecords(old(data).value, old(viewYear.value), m) != [] ==>
        && inTransition && selected == SelectedMonth(old(viewYear.value), m) && overview == Month && !ok
        && history == old(history) && pending == old(pending) && dayItems == old(dayItems)
        && data == old(data) && yearBuckets == old(yearBuckets) && viewYear == old(viewYear) && width == old(width)
    {
      if inTransition {
        return true;
      }
      if data.None? {
        return false;
      }
      var monthData := MonthRecords(data.value, viewYear.value, m);
      if monthData == [] {
        return true;
      }
      selected := SelectedMonth(viewYear.value, m);
      inTransition := true;
      overview := Month;
      ok := DrawChart(clockYear);
    }

    /**
     * The end of one transition (lines 316-330 and 575-589): when the last
     * one of the countdown ends, the chart leaves its transition.
     */
    method TransitionEnded()
      requires pending > 0
      modifies this`pending, this`inTransition
      ensures pending == old(pending) - 1
      ensures inTransition == (old(inTransition) && pending > 0)
    {
      pending := pending - 1;
      if pending == 0 {
        inTransition := false;
      }
    }

    /**
     * The tooltip of year block `k` (lines 236-302) as written, whose band
     * starts at `left`: nothing during a transition; otherwise the total
     * time split into days, hours and minutes, the first five projects, an
     * "Other" row holding only the last project's value, and a left edge
     * moved left in steps of 10 pixels until the tooltip fits the chart.
     */
    method HoverYearBucketAsWritten(k: nat, left: int) returns (tip: Option<HoverTip>)
      requires k < |yearBuckets|
      ensures inTransition <==> tip.None?
      ensures tip.Some? ==>
        var b := yearBuckets[k];
        && tip.value.time == TimeLabel(b.total)
        && tip.value.listed == b.summary[..if |b.summary| <= Listed then |b.summary| else Listed]
        && tip.value.other == (if |b.summary| <= Listed then None else Some(b.summary[|b.summary| - 1].value))
        && tip.value.y == TooltipTop
      ensures tip.Some? ==> TipPlaced(tip.value.x, left + TooltipPadding * 2, width)
    {
      if inTransition {
        return None;
      }
      var b := yearBuckets[k];
      var listed, other := SplitSummaryAsWritten(b.summary);
      var x := ShiftTooltipX(left + TooltipPadding * 2, width);
      return Some(HoverTip(TimeLabel(b.total), listed, other, x, TooltipTop));
    }

    /**
     * The same tooltip as evidently intended: the "Other" row sums every
     * project past the fifth, so the rows add up to the block's summary.
     */
    method HoverYearBucket(k: nat, left: int) returns (tip: Option<HoverTip>)
      requires k < |yearBuckets|
      ensures inTransition <==> tip.None?
      ensures tip.Some? ==>
        var b := yearBuckets[k];
        && tip.value.time == TimeLabel(b.total)
        && tip.value.listed == b.summary[..if |b.summary| <= Listed then |b.summary| else Listed]
        && tip.value.other == (if |b.summary| <= Listed then None else Some(SumValues(b.summary[Listed..])))
        && SumValues(tip.value.listed) + (if tip.value.other.Some? then tip.value.other.value else 0) == SumValues(b.summary)
        && tip.value.y == TooltipTop
      ensures tip.Some? ==> TipPlaced(tip.value.x, left + TooltipPadding * 2, width)
    {
      if inTransition {
        return None;
      }
      var b := yearBuckets[k];
      var listed, other := SplitSummary(b.summary);
      var x := ShiftTooltipX(left + TooltipPadding * 2, width);
      return Some(HoverTip(TimeLabel(b.total), listed, other, x, TooltipTop));
    }
  }
}
