/**
 * The numbers behind the global view's tooltip (lines 243-291): the total
 * time written as days, hours and minutes, the projects listed (the first
 * five, then an "Other" row), and the tooltip's left edge moved left until
 * the tooltip fits in the chart.
 */
module Tooltip {
  import opened Calendar

  /** settings.tooltip_width */
  const TooltipWidth := 250
  /** settings.tooltip_padding */
  const TooltipPadding := 15
  /** How many projects the tooltip lists before the "Other" row. */
  const Listed := 5

  datatype Duration = Duration(days: int, hours: int, minutes: int)

  function Seconds(d: Duration): int
  {
    d.days * 86400 + d.hours * 3600 + d.minutes * 60
  }

  /**
   * Lines 243-256: whole days, then whole hours of what is left, then whole
   * minutes of what is left after that (`Math.floor` of a division by a
   * positive number, which is Dafny's `/`). Leftover seconds are dropped.
   */
  function Decompose(sec: int): (d: Duration)
    ensures 0 <= d.hours < 24 && 0 <= d.minutes < 60
    ensures Seconds(d) <= sec < Seconds(d) + 60
  {
    var days := sec / 86400;
    var hours := (sec - days * 86400) / 3600;
    var minutes := (sec - days * 86400 - hours * 3600) / 60;
    Duration(days, hours, minutes)
  }

  /** No other split into days, hours below 24 and minutes below 60 fits `sec`. */
  lemma DecomposeUnique(sec: int, d: Duration)
    requires 0 <= d.hours < 24 && 0 <= d.minutes < 60
    requires Seconds(d) <= sec < Seconds(d) + 60
    ensures d == Decompose(sec)
  {
    assert 0 <= sec - d.days * 86400 < 86400;
    assert d.days == sec / 86400;
    assert d.hours == (sec - d.days * 86400) / 3600;
  }

  datatype Unit = Days | Hours | Minutes

  function UnitSeconds(u: Unit): int
  {
    match u
    case Days => 86400
    case Hours => 3600
    case Minutes => 60
  }

  function Singular(u: Unit): string
  {
    match u
    case Days => "day"
    case Hours => "hour"
    case Minutes => "minute"
  }

  function Plural(u: Unit): string
  {
    Singular(u) + "s"
  }

  /** How many of unit `u` the duration holds. */
  function Part(d: Duration, u: Unit): int
  {
    match u
    case Days => d.days
    case Hours => d.hours
    case Minutes => d.minutes
  }

  /** One part of the time line: "1 day", "3 hours", ... */
  datatype TimePart = TimePart(count: int, unit: Unit, word: string)

  function PartsSeconds(r: seq<TimePart>): int
  {
    if r == [] then 0 else PartsSeconds(r[..|r| - 1]) + r[|r| - 1].count * UnitSeconds(r[|r| - 1].unit)
  }

  function Shown(d: Duration, u: Unit): seq<TimePart>
  {
    var n := Part(d, u);
    if n > 0 then [TimePart(n, u, if n == 1 then Singular(u) else Plural(u))] else []
  }

  /**
   * Lines 243-263: days, hours, minutes in that order, each only when it is
   * above 0, in the singular when it is exactly 1.
   */
  function TimeLabel(sec: int): (r: seq<TimePart>)
    ensures forall i :: 0 <= i < |r| ==> r[i].count > 0 && r[i].count == Part(Decompose(sec), r[i].unit)
    ensures forall i :: 0 <= i < |r| ==> (r[i].word == Singular(r[i].unit) <==> r[i].count == 1)
    ensures forall i :: 0 <= i < |r| ==> r[i].word == Singular(r[i].unit) || r[i].word == Plural(r[i].unit)
    ensures forall u :: Part(Decompose(sec), u) > 0 <==> exists i :: 0 <= i < |r| && r[i].unit == u
    ensures forall i, j :: 0 <= i < j < |r| ==> r[i].unit.Days? || r[j].unit.Minutes?
    ensures forall i, j :: 0 <= i < j < |r| ==> r[i].unit != r[j].unit
    ensures sec >= 0 ==> PartsSeconds(r) <= sec < PartsSeconds(r) + 60
  {
    var d := Decompose(sec);
    var r := Shown(d, Days) + Shown(d, Hours) + Shown(d, Minutes);
    ShownCounts(d);
    ShownOrder(d);
    ShownParts(d);
    ShownUnits(d);
    r
  }

  lemma ShownCounts(d: Duration)
    ensures var r := Shown(d, Days) + Shown(d, Hours) + Shown(d, Minutes);
      && (forall i :: 0 <= i < |r| ==> r[i].count > 0 && r[i].count == Part(d, r[i].unit))
      && (forall i :: 0 <= i < |r| ==> (r[i].word == Singular(r[i].unit) <==> r[i].count == 1))
      && (forall i :: 0 <= i < |r| ==> r[i].word == Singular(r[i].unit) || r[i].word == Plural(r[i].unit))
  {
  }

  lemma ShownOrder(d: Duration)
    ensures var r := Shown(d, Days) + Shown(d, Hours) + Shown(d, Minutes);
      && (forall i, j :: 0 <= i < j < |r| ==> r[i].unit.Days? || r[j].unit.Minutes?)
      && (forall i, j :: 0 <= i < j < |r| ==> r[i].unit != r[j].unit)
  {
  }

  lemma ShownUnits(d: Duration)
    ensures var r := Shown(d, Days) + Shown(d, Hours) + Shown(d, Minutes);
      forall u :: Part(d, u) > 0 <==> exists i :: 0 <= i < |r| && r[i].unit == u
  {
    var a, b, c := Shown(d, Days), Shown(d, Hours), Shown(d, Minutes);
    var r := a + b + c;
    forall u ensures Part(d, u) > 0 <==> exists i :: 0 <= i < |r| && r[i].unit == u {
      if Part(d, u) > 0 {
        var i := match u case Days => 0 case Hours => |a| case Minutes => |a| + |b|;
        assert r[i].unit == u;
      }
    }
  }

  lemma ShownParts(d: Duration)
    requires d.hours >= 0 && d.minutes >= 0
    ensures d.days >= 0 ==> PartsSeconds(Shown(d, Days) + Shown(d, Hours) + Shown(d, Minutes)) == Seconds(d)
  {
    var a, b, c := Shown(d, Days), Shown(d, Hours), Shown(d, Minutes);
    PartsSecondsAppend(a, b);
    PartsSecondsAppend(a + b, c);
  }

  lemma {:induction false} PartsSecondsAppend(a: seq<TimePart>, b: seq<TimePart>)
    ensures PartsSeconds(a + b) == PartsSeconds(a) + PartsSeconds(b)
    decreases |b|
  {
    if b == [] {
      assert a + b == a;
    } else {
      var b' := b[..|b| - 1];
      assert (a + b)[..|a + b| - 1] == a + b';
      PartsSecondsAppend(a, b');
    }
  }

  /**
   * Lines 266-285 as written: the first five projects are listed, and the
   * loop meant to add up the rest assigns (`=`) instead of adding (`+=`), so
   * the "Other" row shows only the last project's value.
   */
  method SplitSummaryAsWritten(summary: seq<Entry>) returns (listed: seq<Entry>, other: Option<int>)
    ensures |summary| <= Listed ==> listed == summary && other == None
    ensures |summary| > Listed ==> listed == summary[..Listed] && other == Some(summary[|summary| - 1].value)
  {
    listed := [];
    if |summary| <= Listed {
      for i := 0 to |summary|
        invariant listed == summary[..i]
      {
        listed := listed + [summary[i]];
      }
      other := None;
    } else {
      for i := 0 to Listed
        invariant listed == summary[..i]
      {
        listed := listed + [summary[i]];
      }
      var sum := 0;
      for i := Listed to |summary|
        invariant i > Listed ==> sum == summary[i - 1].value
      {
        sum := summary[i].value;
      }
      other := Some(sum);
    }
  }

  /**
   * Lines 266-285 as evidently intended: the first five projects are listed
   * and the "Other" row holds the sum of all the others, so the rows add up
   * to the whole summary.
   */
  method SplitSummary(summary: seq<Entry>) returns (listed: seq<Entry>, other: Option<int>)
    ensures |summary| <= Listed ==> listed == summary && other == None
    ensures |summary| > Listed ==> listed == summary[..Listed] && other == Some(SumValues(summary[Listed..]))
    ensures SumValues(listed) + (if other.Some? then other.value else 0) == SumValues(summary)
  {
    listed := [];
    if |summary| <= Listed {
      for i := 0 to |summary|
        invariant listed == summary[..i]
      {
        listed := listed + [summary[i]];
      }
      other := None;
    } else {
      for i := 0 to Listed
        invariant listed == summary[..i]
      {
        listed := listed + [summary[i]];
      }
      var sum := 0;
      for i := Listed to |summary|
        invariant sum == SumValues(summary[Listed..i])
      {
        assert summary[Listed..i + 1][..i - Listed] == summary[Listed..i];
        sum := sum + summary[i].value;
      }
      assert summary[Listed..|summary|] == summary[Listed..];
      other := Some(sum);
      assert summary[..Listed] + summary[Listed..] == summary;
      SumValuesAppend(summary[..Listed], summary[Listed..]);
    }
  }

  /** A non-empty run of positive values has a positive sum. */
  lemma {:induction false} SumPositive(s: seq<Entry>)
    requires s != []
    requires forall i :: 0 <= i < |s| ==> s[i].value > 0
    ensures SumValues(s) > 0
  {
    if |s| > 1 {
      SumPositive(s[..|s| - 1]);
    }
  }

  /**
   * Whenever more than one project falls into "Other" and all of them have
   * tracked time, the row as written shows less than the intended sum.
   */
  lemma OtherRowUndercounts(summary: seq<Entry>)
    requires |summary| > Listed + 1
    requires forall i :: Listed <= i < |summary| ==> summary[i].value > 0
    ensures summary[|summary| - 1].value < SumValues(summary[Listed..])
  {
    var rest := summary[Listed..];
    SumPositive(rest[..|rest| - 1]);
  }

  /** Seven projects of 7, 6, 5, 4, 3, 2 and 1 seconds: "Other" shows 1 instead of 3. */
  method OtherRowCounterexample() returns (asWritten: Option<int>, intended: Option<int>)
    ensures asWritten == Some(1) && intended == Some(3)
  {
    var s := [Entry("a", 7), Entry("b", 6), Entry("c", 5), Entry("d", 4), Entry("e", 3), Entry("f", 2), Entry("g", 1)];
    var l1, l2;
    l1, asWritten := SplitSummaryAsWritten(s);
    l2, intended := SplitSummary(s);
    assert s[Listed..] == [Entry("f", 2), Entry("g", 1)];
    assert [Entry("f", 2), Entry("g", 1)][..1] == [Entry("f", 2)];
  }

  /** The tooltip fits when the chart leaves room for its width and padding right of `x`. */
  predicate Fits(x: int, width: int)
  {
    width - x >= TooltipWidth + TooltipPadding * 5
  }

  /**
   * Lines 288-291: starting from `x0`, the tooltip's left edge moves left
   * in steps of 10 pixels until it fits; it ends at the first such step.
   */
  predicate TipPlaced(x: int, x0: int, width: int)
  {
    && Fits(x, width)
    && x <= x0 && (x0 - x) % 10 == 0
    && (x < x0 ==> !Fits(x + 10, width))
  }

  /** The loop of lines 288-291. */
  method ShiftTooltipX(x0: int, width: int) returns (x: int)
    ensures TipPlaced(x, x0, width)
  {
    x := x0;
    while !Fits(x, width)
      invariant x <= x0 && (x0 - x) % 10 == 0
      invariant x < x0 ==> !Fits(x + 10, width)
      decreases x - (width - TooltipWidth - TooltipPadding * 5)
    {
      x := x - 10;
    }
  }

  /** The vertical position of the tooltip (line 292). */
  const TooltipTop := TooltipPadding * 3
}
