/**
 * The records the calendar heatmap works on: the day records handed to the
 * component, the project details inside them, and the (name, value) summary
 * entries derived from them. Dates are reduced to their calendar fields; the
 * `year()` and `month()` reads of moment become `YearOf` and `MonthOf`.
 */
module Calendar {

  datatype Option<T> = None | Some(value: T)

  /** A calendar day. */
  datatype Date = Date(year: int, month: int, day: int)

  function YearOf(d: Date): int { d.year }

  /** The (year, month) pair that moment's month boundaries compare. */
  function MonthOf(d: Date): (int, int) { (d.year, d.month) }

  /** One time-tracking detail: seconds spent on a project on a day. */
  datatype Detail = Detail(date: Date, name: string, value: int)

  /** One line of a summary: a project name and its tracked seconds. */
  datatype Entry = Entry(name: string, value: int)

  /**
   * A day record as the component receives it. `total` is supplied by the
   * caller; `summary` is absent until the component (or the caller) fills it.
   */
  datatype DayRecord = DayRecord(date: Date, total: int, details: seq<Detail>, summary: Option<seq<Entry>>)

  /** The details of a day seen as summary entries, in their given order. */
  function DetailEntries(details: seq<Detail>): (r: seq<Entry>)
    ensures |r| == |details|
    ensures forall i :: 0 <= i < |details| ==> r[i] == Entry(details[i].name, details[i].value)
  {
    if details == [] then []
    else DetailEntries(details[..|details| - 1]) + [Entry(details[|details| - 1].name, details[|details| - 1].value)]
  }

  /** The sum of the values of a sequence of entries. */
  function SumValues(s: seq<Entry>): int
  {
    if s == [] then 0 else SumValues(s[..|s| - 1]) + s[|s| - 1].value
  }

  /** The sum of the values of the entries named `n`. */
  function SumFor(s: seq<Entry>, n: string): int
  {
    if s == [] then 0
    else SumFor(s[..|s| - 1], n) + (if s[|s| - 1].name == n then s[|s| - 1].value else 0)
  }

  /** The project names occurring in a sequence of entries. */
  function Names(s: seq<Entry>): set<string>
  {
    set e | e in s :: e.name
  }

  /**
   * The position of the first entry named `n`, or `|s|` when there is none:
   * the order in which a JavaScript object first received the key `n`.
   */
  function NameIndex(s: seq<Entry>, n: string): (k: nat)
    ensures k <= |s|
    ensures forall j :: 0 <= j < k ==> s[j].name != n
    ensures k < |s| ==> s[k].name == n
  {
    if s == [] then 0
    else if s[0].name == n then 0
    else 1 + NameIndex(s[1..], n)
  }

  /** A name is found exactly when it occurs. */
  lemma NameIndexFound(s: seq<Entry>, n: string)
    ensures NameIndex(s, n) < |s| <==> n in Names(s)
  {
    var k := NameIndex(s, n);
    if k < |s| {
      assert s[k] in s;
    } else {
      forall e | e in s ensures e.name != n {
        var j :| 0 <= j < |s| && s[j] == e;
      }
    }
  }

  lemma {:induction false} SumValuesAppend(a: seq<Entry>, b: seq<Entry>)
    ensures SumValues(a + b) == SumValues(a) + SumValues(b)
    decreases |b|
  {
    if b == [] {
      assert a + b == a;
    } else {
      var b' := b[..|b| - 1];
      assert (a + b)[..|a + b| - 1] == a + b';
      SumValuesAppend(a, b');
    }
  }

  /** An entry whose name does not occur contributes nothing to that name's sum. */
  lemma {:induction false} SumForAbsent(s: seq<Entry>, n: string)
    requires n !in Names(s)
    ensures SumFor(s, n) == 0
  {
    if s != [] {
      var s' := s[..|s| - 1];
      assert Names(s') <= Names(s) by {
        forall e | e in s' ensures e in s { }
      }
      assert s[|s| - 1] in s;
      SumForAbsent(s', n);
    }
  }

  lemma NamesAppend(a: seq<Entry>, b: seq<Entry>)
    ensures Names(a + b) == Names(a) + Names(b)
  {
    assert forall e :: e in a + b <==> e in a || e in b;
  }

  /** Only the empty sequence has no names. */
  lemma NamesEmpty(s: seq<Entry>)
    ensures Names(s) == {} ==> s == []
  {
    if s != [] {
      assert s[0].name in Names(s);
    }
  }
}
