/**
 * The data behind the global (multi-year) view and the guards of the year
 * view: one bucket per calendar year from the year of the first record to the
 * year of the last, each with the year's total and merged project summary,
 * the largest bucket total, and the filters that pick a year's or a month's
 * records.
 */
module Buckets {
  import opened Calendar
  import opened Summary

  /** One block of the global view: a calendar year, its total and its summary. */
  datatype YearBucket = YearBucket(year: int, total: int, summary: seq<Entry>)

  /** The records for which `keep` holds, in their given order. */
  function Filter(data: seq<DayRecord>, keep: DayRecord -> bool): (r: seq<DayRecord>)
    ensures |r| <= |data|
    ensures forall d :: d in r <==> d in data && keep(d)
  {
    if data == [] then []
    else
      var rest := data[..|data| - 1];
      var last := data[|data| - 1];
      assert data == rest + [last];
      Filter(rest, keep) + (if keep(last) then [last] else [])
  }

  /** Each kept record occurs as often as in `data`, every other record not at all. */
  lemma {:induction false} FilterCounts(data: seq<DayRecord>, keep: DayRecord -> bool)
    ensures forall d :: multiset(Filter(data, keep))[d] == if keep(d) then multiset(data)[d] else 0
    decreases |data|
  {
    if data != [] {
      var rest, last := data[..|data| - 1], data[|data| - 1];
      assert data == rest + [last];
      FilterCounts(rest, keep);
    }
  }

  /** Filtering keeps the order: the kept records of `a` come before those of `b`. */
  lemma {:induction false} FilterAppend(a: seq<DayRecord>, b: seq<DayRecord>, keep: DayRecord -> bool)
    ensures Filter(a + b, keep) == Filter(a, keep) + Filter(b, keep)
    decreases |b|
  {
    if b == [] {
      assert a + b == a;
      assert Filter(a, keep) + [] == Filter(a, keep);
    } else {
      var b' := b[..|b| - 1];
      assert (a + b)[..|a + b| - 1] == a + b' && (a + b)[|a + b| - 1] == b[|b| - 1];
      FilterAppend(a, b', keep);
      FilterSnoc(Filter(a, keep), a + b', b', b[|b| - 1], keep);
    }
  }

  /** One step of FilterAppend: appending the last record to both sides. */
  lemma FilterSnoc(x: seq<DayRecord>, s: seq<DayRecord>, t: seq<DayRecord>, last: DayRecord, keep: DayRecord -> bool)
    requires Filter(s, keep) == x + Filter(t, keep)
    ensures Filter(s + [last], keep) == x + Filter(t + [last], keep)
  {
    FilterLast(s, last, keep);
    FilterLast(t, last, keep);
    ConcatAssoc(x, Filter(t, keep), if keep(last) then [last] else []);
  }

  /** Kept as a lemma: as an assert inside `FilterSnoc` the solver runs out of resource. */
  lemma ConcatAssoc(x: seq<DayRecord>, y: seq<DayRecord>, z: seq<DayRecord>)
    ensures (x + y) + z == x + (y + z)
  {
  }

  lemma FilterLast(s: seq<DayRecord>, last: DayRecord, keep: DayRecord -> bool)
    ensures Filter(s + [last], keep) == Filter(s, keep) + (if keep(last) then [last] else [])
  {
    assert (s + [last])[..|s|] == s;
  }

  predicate InYear(d: DayRecord, y: int) { YearOf(d.date) == y }

  predicate InMonth(d: DayRecord, y: int, m: int) { MonthOf(d.date) == (y, m) }

  /**
   * The year view's records (lines 405-407): those dated from the start of
   * the selected year up to its end.
   */
  function YearRecords(data: seq<DayRecord>, y: int): (r: seq<DayRecord>)
    ensures forall d :: d in r <==> d in data && InYear(d, y)
    ensures forall d :: multiset(r)[d] == if InYear(d, y) then multiset(data)[d] else 0
  {
    FilterCounts(data, d => InYear(d, y));
    Filter(data, d => InYear(d, y))
  }

  /**
   * The records of the clicked month (lines 637-639): those dated from the
   * start of that month up to its end.
   */
  function MonthRecords(data: seq<DayRecord>, y: int, m: int): (r: seq<DayRecord>)
    ensures forall d :: d in r <==> d in data && InMonth(d, y, m)
    ensures forall d :: multiset(r)[d] == if InMonth(d, y, m) then multiset(data)[d] else 0
  {
    FilterCounts(data, d => InMonth(d, y, m));
    Filter(data, d => InMonth(d, y, m))
  }

  /** The sum of the day totals of some records. */
  function SumTotals(data: seq<DayRecord>): int
  {
    if data == [] then 0 else SumTotals(data[..|data| - 1]) + data[|data| - 1].total
  }

  /** The reduce of lines 144-149: add up the totals of the records dated in year `y`. */
  function YearTotal(data: seq<DayRecord>, y: int): (t: int)
    ensures (forall d | d in data && InYear(d, y) :: d.total >= 0) ==> t >= 0
    ensures (forall d | d in data :: !InYear(d, y)) ==> t == 0
  {
    if data == [] then 0
    else YearTotal(data[..|data| - 1], y) + (if InYear(data[|data| - 1], y) then data[|data| - 1].total else 0)
  }

  /** A year's total is the sum of the totals of the year view's records for that year. */
  lemma {:induction false} YearTotalIsYearRecordsTotal(data: seq<DayRecord>, y: int)
    ensures YearTotal(data, y) == SumTotals(YearRecords(data, y))
    decreases |data|
  {
    if data != [] {
      var rest, last := data[..|data| - 1], data[|data| - 1];
      YearTotalIsYearRecordsTotal(rest, y);
      YearRecordsLast(data, y);
      if InYear(last, y) {
        SumTotalsLast(YearRecords(rest, y), last);
      } else {
        assert YearRecords(rest, y) + [] == YearRecords(rest, y);
      }
    }
  }

  lemma YearRecordsLast(data: seq<DayRecord>, y: int)
    requires data != []
    ensures YearRecords(data, y) == YearRecords(data[..|data| - 1], y) + (if InYear(data[|data| - 1], y) then [data[|data| - 1]] else [])
  {
  }

  lemma SumTotalsLast(s: seq<DayRecord>, last: DayRecord)
    ensures SumTotals(s + [last]) == SumTotals(s) + last.total
  {
    assert (s + [last])[..|s|] == s;
  }

  /** Every record dated in the years `lo` to `hi` carries a summary. */
  predicate SummariesReady(data: seq<DayRecord>, lo: int, hi: int)
  {
    forall i :: 0 <= i < |data| && lo <= YearOf(data[i].date) <= hi ==> data[i].summary.Some?
  }

  /**
   * The entries the year summary of lines 151-164 folds, in the order it
   * folds them: the summaries of the year's records, one after the other.
   */
  function YearEntries(data: seq<DayRecord>, y: int): (r: seq<Entry>)
    requires SummariesReady(data, y, y)
    ensures forall i, e | 0 <= i < |data| && InYear(data[i], y) && e in data[i].summary.value :: e in r
    ensures forall e | e in r :: exists i :: 0 <= i < |data| && InYear(data[i], y) && e in data[i].summary.value
  {
    if data == [] then []
    else
      var last := data[|data| - 1];
      YearEntries(data[..|data| - 1], y) + (if InYear(last, y) then last.summary.value else [])
  }

  /** The year's entries come in data order: those of `a`'s records before those of `b`'s. */
  lemma {:induction false} YearEntriesAppend(a: seq<DayRecord>, b: seq<DayRecord>, y: int)
    requires SummariesReady(a + b, y, y)
    ensures SummariesReady(a, y, y) && SummariesReady(b, y, y)
    ensures YearEntries(a + b, y) == YearEntries(a, y) + YearEntries(b, y)
    decreases |b|
  {
    assert forall i | 0 <= i < |a| :: a[i] == (a + b)[i];
    assert forall i | 0 <= i < |b| :: b[i] == (a + b)[|a| + i];
    if b == [] {
      assert a + b == a;
    } else {
      var b' := b[..|b| - 1];
      var last := b[|b| - 1];
      var tail := if InYear(last, y) then last.summary.value else [];
      assert (a + b)[..|a + b| - 1] == a + b' && (a + b)[|a + b| - 1] == last;
      assert forall i | 0 <= i < |a + b'| :: (a + b')[i] == (a + b)[i];
      YearEntriesAppend(a, b', y);
      assert YearEntries(a + b, y) == (YearEntries(a, y) + YearEntries(b', y)) + tail;
      assert YearEntries(b, y) == YearEntries(b', y) + tail;
    }
  }

  /** A year without records has total 0 and nothing to summarise. */
  lemma {:induction false} YearWithoutRecords(data: seq<DayRecord>, y: int)
    requires forall d | d in data :: !InYear(d, y)
    ensures YearTotal(data, y) == 0
    ensures SummariesReady(data, y, y) && YearEntries(data, y) == []
    decreases |data|
  {
    if data != [] {
      var rest := data[..|data| - 1];
      assert forall d | d in rest :: d in data;
      assert data[|data| - 1] in data;
      YearWithoutRecords(rest, y);
    }
  }

  /**
   * When every record of the year has a total equal to the sum of its own
   * summary, the entries folded for the year add up to the year's total.
   */
  lemma {:induction false} YearEntriesBalance(data: seq<DayRecord>, y: int)
    requires forall d | d in data && InYear(d, y) :: d.summary.Some? && d.total == SumValues(d.summary.value)
    ensures SummariesReady(data, y, y) && SumValues(YearEntries(data, y)) == YearTotal(data, y)
    decreases |data|
  {
    if data != [] {
      var rest, last := data[..|data| - 1], data[|data| - 1];
      assert forall d | d in rest :: d in data;
      assert last in data;
      YearEntriesBalance(rest, y);
      SumValuesAppend(YearEntries(rest, y), if InYear(last, y) then last.summary.value else []);
    }
  }

  /** `b` is the global view's bucket for year `y`. */
  ghost predicate IsYearBucket(b: YearBucket, data: seq<DayRecord>, y: int)
    requires SummariesReady(data, y, y)
  {
    && b.year == y
    && b.total == YearTotal(data, y)
    && IsSummaryOf(b.summary, YearEntries(data, y))
  }

  /** A bucket's summary adds up to its total when each day's does. */
  lemma BucketBalanced(b: YearBucket, data: seq<DayRecord>)
    requires forall d | d in data && InYear(d, b.year) :: d.summary.Some? && d.total == SumValues(d.summary.value)
    requires SummariesReady(data, b.year, b.year) && IsYearBucket(b, data, b.year)
    ensures SumValues(b.summary) == b.total
  {
    YearEntriesBalance(data, b.year);
    SummaryConserves(b.summary, YearEntries(data, b.year));
  }

  /** A bucket for a year without records is empty. */
  lemma EmptyBucket(b: YearBucket, data: seq<DayRecord>)
    requires forall d | d in data :: !InYear(d, b.year)
    requires SummariesReady(data, b.year, b.year) && IsYearBucket(b, data, b.year)
    ensures b.total == 0 && b.summary == []
  {
    YearWithoutRecords(data, b.year);
    SummaryOfNothing(b.summary);
  }

  /** The number of calendar years from `first` to `last` (none when `last` is earlier). */
  function YearSpan(first: int, last: int): nat
  {
    if last < first then 0 else last - first + 1
  }

  /** The bucket at `k` is the one for the `k`-th year from `first`. */
  ghost predicate BucketAt(buckets: seq<YearBucket>, data: seq<DayRecord>, first: int, k: int)
    requires 0 <= k < |buckets|
  {
    SummariesReady(data, first + k, first + k) && IsYearBucket(buckets[k], data, first + k)
  }

  /** `buckets` are the buckets of consecutive years from `first` on. */
  ghost predicate BucketsFrom(buckets: seq<YearBucket>, data: seq<DayRecord>, first: int)
  {
    forall k :: 0 <= k < |buckets| ==> BucketAt(buckets, data, first, k)
  }

  lemma BucketsExtend(buckets: seq<YearBucket>, b: YearBucket, data: seq<DayRecord>, first: int)
    requires BucketsFrom(buckets, data, first)
    requires SummariesReady(data, first + |buckets|, first + |buckets|) && IsYearBucket(b, data, first + |buckets|)
    ensures BucketsFrom(buckets + [b], data, first)
  {
    var t := buckets + [b];
    forall k | 0 <= k < |t| ensures BucketAt(t, data, first, k) {
      if k < |buckets| {
        assert BucketAt(buckets, data, first, k);
        assert t[k] == buckets[k];
      } else {
        assert t[k] == b;
      }
    }
  }

  /** The year summary of lines 150-174. */
  method YearSummary(data: seq<DayRecord>, y: int) returns (summary: seq<Entry>)
    requires SummariesReady(data, y, y)
    ensures IsSummaryOf(summary, YearEntries(data, y))
  {
    summary := Summarize(YearEntries(data, y));
  }

  /**
   * The year data of drawGlobalOverview (lines 136-176): one bucket per year
   * from the first record's year to the last record's year. Reading the first
   * record of an empty dataset, or the summary of a record that has none,
   * throws; both give `None`.
   */
  method GlobalYearData(data: seq<DayRecord>) returns (r: Option<seq<YearBucket>>)
    ensures data == [] ==> r.None?
    ensures data != [] ==> (r.Some? <==> SummariesReady(data, YearOf(data[0].date), YearOf(data[|data| - 1].date)))
    ensures r.Some? ==>
      var first, last := YearOf(data[0].date), YearOf(data[|data| - 1].date);
      && |r.value| == YearSpan(first, last)
      && BucketsFrom(r.value, data, first)
  {
    if data == [] {
      return None;
    }
    var first, last := YearOf(data[0].date), YearOf(data[|data| - 1].date);
    if !SummariesReady(data, first, last) {
      return None;
    }
    var buckets: seq<YearBucket> := [];
    var y := first;
    while y <= last
      invariant first <= y <= if first <= last then last + 1 else first
      invariant |buckets| == y - first
      invariant BucketsFrom(buckets, data, first)
    {
      assert SummariesReady(data, y, y);
      var summary := YearSummary(data, y);
      var b := YearBucket(y, YearTotal(data, y), summary);
      assert IsYearBucket(b, data, first + |buckets|);
      BucketsExtend(buckets, b, data, first);
      buckets := buckets + [b];
      y := y + 1;
    }
    r := Some(buckets);
  }

  /** `d3.max` over the bucket totals (lines 179-181): undefined when there are no buckets. */
  function MaxTotal(buckets: seq<YearBucket>): (m: Option<int>)
    ensures m.None? <==> buckets == []
    ensures m.Some? ==> exists k :: 0 <= k < |buckets| && buckets[k].total == m.value
    ensures m.Some? ==> forall k :: 0 <= k < |buckets| ==> buckets[k].total <= m.value
  {
    if buckets == [] then None
    else
      var rest := MaxTotal(buckets[..|buckets| - 1]);
      var t := buckets[|buckets| - 1].total;
      if rest.Some? && rest.value >= t then rest else Some(t)
  }
}
