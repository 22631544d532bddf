/**
 * Summaries: grouping (name, value) entries by project name, summing the
 * values, and sorting the groups by value, highest first. The component does
 * this for each day's details (parseData) and for the day summaries of each
 * year (drawGlobalOverview); both are the same fold into an object followed
 * by Array.prototype.sort.
 */
module Summary {
  import opened Calendar

  /**
   * `a` comes before `b` in a summary of `pairs`: a larger value first, and
   * among equal values the project that appeared first in `pairs`. The sort is
   * stable and the grouped entries are in first-appearance order, so this is
   * the order the component produces.
   */
  predicate Precedes(a: Entry, b: Entry, pairs: seq<Entry>)
  {
    a.value > b.value || (a.value == b.value && NameIndex(pairs, a.name) < NameIndex(pairs, b.name))
  }

  predicate OrderedBy(s: seq<Entry>, pairs: seq<Entry>)
  {
    forall i, j :: 0 <= i < j < |s| ==> Precedes(s[i], s[j], pairs)
  }

  /**
   * `s` is the summary of `pairs`: one entry per project name of `pairs`, with
   * no name twice, each holding the sum of that project's values, sorted by
   * value from highest to lowest, ties in order of first appearance.
   */
  ghost predicate IsSummaryOf(s: seq<Entry>, pairs: seq<Entry>)
  {
    && Names(s) == Names(pairs)
    && (forall i, j :: 0 <= i < j < |s| ==> s[i].name != s[j].name)
    && (forall i :: 0 <= i < |s| ==> s[i].value == SumFor(pairs, s[i].name))
    && (forall i, j :: 0 <= i < j < |s| ==> s[i].value >= s[j].value)
    && OrderedBy(s, pairs)
  }

  /**
   * What the reduce into the `uniques` object holds after the first `i`
   * entries, the object written as its entries in key-insertion order: every
   * name seen so far once, in order of first appearance, with the sum of its
   * values so far.
   */
  ghost predicate Folded(pairs: seq<Entry>, i: nat, groups: seq<Entry>)
  {
    && i <= |pairs|
    && Names(groups) == Names(pairs[..i])
    && (forall a :: 0 <= a < |groups| ==> groups[a].value == SumFor(pairs[..i], groups[a].name))
    && (forall a :: 0 <= a < |groups| ==> NameIndex(pairs, groups[a].name) < i)
    && (forall a, b :: 0 <= a < b < |groups| ==> NameIndex(pairs, groups[a].name) < NameIndex(pairs, groups[b].name))
  }

  /** A name not seen before becomes a new key, after the others. */
  lemma FoldNew(pairs: seq<Entry>, i: nat, groups: seq<Entry>)
    requires i < |pairs| && Folded(pairs, i, groups)
    requires pairs[i].name !in Names(groups)
    ensures Folded(pairs, i + 1, groups + [pairs[i]])
  {
    var p := pairs[i];
    PrefixNames(pairs, i);
    NewSums(pairs, i, groups);
    NewOrder(pairs, i, groups);
    NamesAppend(groups, [p]);
    assert Names([p]) == {p.name};
  }

  lemma NewSums(pairs: seq<Entry>, i: nat, groups: seq<Entry>)
    requires i < |pairs| && Folded(pairs, i, groups)
    requires pairs[i].name !in Names(groups)
    ensures var g' := groups + [pairs[i]];
      forall a :: 0 <= a < |g'| ==> g'[a].value == SumFor(pairs[..i + 1], g'[a].name)
  {
    PrefixSums(pairs, i);
    SumForAbsent(pairs[..i], pairs[i].name);
    forall a | 0 <= a < |groups| ensures groups[a].name != pairs[i].name {
      assert groups[a] in groups;
    }
  }

  lemma NewOrder(pairs: seq<Entry>, i: nat, groups: seq<Entry>)
    requires i < |pairs| && Folded(pairs, i, groups)
    requires pairs[i].name !in Names(groups)
    ensures var g' := groups + [pairs[i]];
      && (forall a :: 0 <= a < |g'| ==> NameIndex(pairs, g'[a].name) < i + 1)
      && (forall a, b :: 0 <= a < b < |g'| ==> NameIndex(pairs, g'[a].name) < NameIndex(pairs, g'[b].name))
  {
    PrefixNames(pairs, i);
    FirstAppearance(pairs, i);
  }

  /** A name seen before has the value added to its key. */
  lemma FoldKnown(pairs: seq<Entry>, i: nat, groups: seq<Entry>, k: nat)
    requires i < |pairs| && Folded(pairs, i, groups)
    requires k < |groups| && groups[k].name == pairs[i].name
    ensures Folded(pairs, i + 1, groups[k := Entry(pairs[i].name, groups[k].value + pairs[i].value)])
  {
    PrefixNames(pairs, i);
    UpdateKeepsNames(groups, k, pairs[i].value);
    KnownSums(pairs, i, groups, k);
    KnownOrder(pairs, i, groups, k);
  }

  /** The update changes no key, so the keys keep their first-appearance order. */
  lemma KnownOrder(pairs: seq<Entry>, i: nat, groups: seq<Entry>, k: nat)
    requires i < |pairs| && Folded(pairs, i, groups)
    requires k < |groups| && groups[k].name == pairs[i].name
    ensures var g' := groups[k := Entry(pairs[i].name, groups[k].value + pairs[i].value)];
      && (forall a :: 0 <= a < |g'| ==> NameIndex(pairs, g'[a].name) < i + 1)
      && (forall a, b :: 0 <= a < b < |g'| ==> NameIndex(pairs, g'[a].name) < NameIndex(pairs, g'[b].name))
  {
    var g' := groups[k := Entry(pairs[i].name, groups[k].value + pairs[i].value)];
    assert forall a :: 0 <= a < |g'| ==> g'[a].name == groups[a].name;
  }

  /** After the update every key holds its sum over one more entry. */
  lemma KnownSums(pairs: seq<Entry>, i: nat, groups: seq<Entry>, k: nat)
    requires i < |pairs| && Folded(pairs, i, groups)
    requires k < |groups| && groups[k].name == pairs[i].name
    ensures var g' := groups[k := Entry(pairs[i].name, groups[k].value + pairs[i].value)];
      forall a :: 0 <= a < |g'| ==> g'[a].value == SumFor(pairs[..i + 1], g'[a].name)
  {
    var p := pairs[i];
    var g' := groups[k := Entry(p.name, groups[k].value + p.value)];
    PrefixSums(pairs, i);
    forall a | 0 <= a < |g'| ensures g'[a].value == SumFor(pairs[..i + 1], g'[a].name) {
      if a != k {
        assert NameIndex(pairs, groups[a].name) != NameIndex(pairs, groups[k].name);
      }
    }
  }

  /**
   * One step of the reduce into the `uniques` object: the first time a name
   * is seen it becomes a new key holding that value, afterwards the value is
   * added to its key.
   */
  function AddEntry(groups: seq<Entry>, p: Entry): seq<Entry>
  {
    var k := NameIndex(groups, p.name);
    if k == |groups| then groups + [p]
    else groups[k := Entry(p.name, groups[k].value + p.value)]
  }

  /**
   * One step of the reduce: the name joins the keys; a new name adds one
   * entry holding the step at the end; a known one keeps every key in place
   * and only the value of the key with that name grows, by the step's value;
   * so the values grow by exactly the step's value.
   */
  lemma AddEntryStep(groups: seq<Entry>, p: Entry)
    ensures var r := AddEntry(groups, p);
      && Names(r) == Names(groups) + {p.name}
      && |r| == (if p.name in Names(groups) then |groups| else |groups| + 1)
      && (forall i :: 0 <= i < |groups| ==> r[i].name == groups[i].name)
      && (forall i :: 0 <= i < |groups| ==>
            r[i].value == groups[i].value + (if i == NameIndex(groups, p.name) then p.value else 0))
      && (p.name !in Names(groups) ==> r[|groups|] == p)
      && SumValues(r) == SumValues(groups) + p.value
  {
    var k := NameIndex(groups, p.name);
    NameIndexFound(groups, p.name);
    if k == |groups| {
      assert AddEntry(groups, p) == groups + [p];
      AddNew(groups, p);
    } else {
      assert AddEntry(groups, p) == groups[k := Entry(p.name, groups[k].value + p.value)];
      AddKnown(groups, k, p);
    }
  }

  lemma AddNew(groups: seq<Entry>, p: Entry)
    ensures Names(groups + [p]) == Names(groups) + {p.name}
    ensures SumValues(groups + [p]) == SumValues(groups) + p.value
    ensures forall i :: 0 <= i < |groups| ==> (groups + [p])[i] == groups[i]
  {
    NamesAppend(groups, [p]);
    SumValuesAppend(groups, [p]);
  }

  lemma AddKnown(groups: seq<Entry>, k: nat, p: Entry)
    requires k < |groups| && groups[k].name == p.name
    ensures Names(groups[k := Entry(p.name, groups[k].value + p.value)]) == Names(groups) + {p.name}
    ensures SumValues(groups[k := Entry(p.name, groups[k].value + p.value)]) == SumValues(groups) + p.value
    ensures var r := groups[k := Entry(p.name, groups[k].value + p.value)];
      forall i :: 0 <= i < |groups| ==> r[i].name == groups[i].name && r[i].value == groups[i].value + (if i == k then p.value else 0)
  {
    UpdateKeepsNames(groups, k, p.value);
    assert groups[k] in groups;
    SumValuesUpdate(groups, k, Entry(p.name, groups[k].value + p.value));
  }

  lemma FoldStep(pairs: seq<Entry>, i: nat, groups: seq<Entry>)
    requires i < |pairs| && Folded(pairs, i, groups)
    ensures Folded(pairs, i + 1, AddEntry(groups, pairs[i]))
  {
    var p := pairs[i];
    var k := NameIndex(groups, p.name);
    NameIndexFound(groups, p.name);
    if k == |groups| {
      FoldNew(pairs, i, groups);
      assert AddEntry(groups, p) == groups + [p];
    } else {
      FoldKnown(pairs, i, groups, k);
      assert AddEntry(groups, p) == groups[k := Entry(p.name, groups[k].value + p.value)];
    }
  }

  /** After the last entry, the folded groups are the grouping of all of `pairs`. */
  lemma FoldedAll(pairs: seq<Entry>, groups: seq<Entry>)
    requires Folded(pairs, |pairs|, groups)
    ensures Names(groups) == Names(pairs)
    ensures forall i :: 0 <= i < |groups| ==> groups[i].value == SumFor(pairs, groups[i].name)
    ensures forall i, j :: 0 <= i < j < |groups| ==> NameIndex(pairs, groups[i].name) < NameIndex(pairs, groups[j].name)
  {
    assert pairs[..|pairs|] == pairs;
  }

  /**
   * The reduce into the `uniques` object. The object is held as its entries
   * in key-insertion order, which is the order the `Object.keys(...).map(...)`
   * walk that follows the reduce lists them in.
   */
  method Group(pairs: seq<Entry>) returns (groups: seq<Entry>)
    ensures Names(groups) == Names(pairs)
    ensures forall i :: 0 <= i < |groups| ==> groups[i].value == SumFor(pairs, groups[i].name)
    ensures forall i, j :: 0 <= i < j < |groups| ==> NameIndex(pairs, groups[i].name) < NameIndex(pairs, groups[j].name)
  {
    groups := [];
    var i := 0;
    while i < |pairs|
      invariant Folded(pairs, i, groups)
    {
      FoldStep(pairs, i, groups);
      groups := AddEntry(groups, pairs[i]);
      i := i + 1;
    }
    FoldedAll(pairs, groups);
  }

  lemma UpdateKeepsNames(s: seq<Entry>, k: nat, v: int)
    requires k < |s|
    ensures Names(s[k := Entry(s[k].name, s[k].value + v)]) == Names(s)
  {
    var t := s[k := Entry(s[k].name, s[k].value + v)];
    forall n | n in Names(s) ensures n in Names(t) {
      var e :| e in s && e.name == n;
      var j :| 0 <= j < |s| && s[j] == e;
      assert t[j] in t;
    }
    forall n | n in Names(t) ensures n in Names(s) {
      var e :| e in t && e.name == n;
      var j :| 0 <= j < |t| && t[j] == e;
      assert s[j] in s;
    }
  }

  /** An entry whose name is not in the prefix before it is that name's first appearance. */
  lemma FirstAppearance(pairs: seq<Entry>, i: nat)
    requires i < |pairs| && pairs[i].name !in Names(pairs[..i])
    ensures NameIndex(pairs, pairs[i].name) == i
  {
    forall j | 0 <= j < i ensures pairs[j].name != pairs[i].name {
      assert pairs[j] in pairs[..i];
    }
  }

  /** What one more entry adds to the names of a prefix. */
  lemma PrefixNames(pairs: seq<Entry>, i: nat)
    requires i < |pairs|
    ensures Names(pairs[..i + 1]) == Names(pairs[..i]) + {pairs[i].name}
  {
    assert pairs[..i + 1] == pairs[..i] + [pairs[i]];
    NamesAppend(pairs[..i], [pairs[i]]);
    assert Names([pairs[i]]) == {pairs[i].name};
  }

  /** What one more entry adds to the sums of a prefix. */
  lemma PrefixSums(pairs: seq<Entry>, i: nat)
    requires i < |pairs|
    ensures forall n :: SumFor(pairs[..i + 1], n) == SumFor(pairs[..i], n) + (if pairs[i].name == n then pairs[i].value else 0)
  {
    assert pairs[..i + 1][..i] == pairs[..i];
  }

  /** Places `x` after every entry whose value is at least `x.value`. */
  function Insert(r: seq<Entry>, x: Entry): (t: seq<Entry>)
    ensures multiset(t) == multiset(r) + multiset{x}
  {
    if r == [] then [x]
    else if r[0].value < x.value then [x] + r
    else
      assert r == [r[0]] + r[1..];
      [r[0]] + Insert(r[1..], x)
  }

  /**
   * `Array.prototype.sort` with the comparator `b.value - a.value`: a stable
   * sort, highest value first (an insertion sort gives the same result).
   */
  function SortDesc(s: seq<Entry>): (r: seq<Entry>)
    ensures multiset(r) == multiset(s)
  {
    if s == [] then []
    else
      assert s == s[..|s| - 1] + [s[|s| - 1]];
      Insert(SortDesc(s[..|s| - 1]), s[|s| - 1])
  }

  lemma {:induction false} InsertOrdered(r: seq<Entry>, x: Entry, pairs: seq<Entry>)
    requires OrderedBy(r, pairs)
    requires forall e | e in r :: NameIndex(pairs, e.name) < NameIndex(pairs, x.name)
    ensures OrderedBy(Insert(r, x), pairs)
    decreases |r|
  {
    if r == [] {
    } else if r[0].value < x.value {
      forall k | 0 <= k < |r| ensures Precedes(x, r[k], pairs) {
        if k > 0 {
          assert Precedes(r[0], r[k], pairs);
        }
      }
      ConsOrdered(x, r, pairs);
    } else {
      var t := r[1..];
      TailOrdered(r, pairs);
      forall e | e in t ensures NameIndex(pairs, e.name) < NameIndex(pairs, x.name) {
        assert e in r;
      }
      InsertOrdered(t, x, pairs);
      InsertBehind(r, x, pairs);
    }
  }

  lemma TailOrdered(r: seq<Entry>, pairs: seq<Entry>)
    requires r != [] && OrderedBy(r, pairs)
    ensures OrderedBy(r[1..], pairs)
  {
    var t := r[1..];
    forall i, j | 0 <= i < j < |t| ensures Precedes(t[i], t[j], pairs) {
      assert Precedes(r[i + 1], r[j + 1], pairs);
    }
  }

  lemma ConsOrdered(h: Entry, s: seq<Entry>, pairs: seq<Entry>)
    requires OrderedBy(s, pairs)
    requires forall k :: 0 <= k < |s| ==> Precedes(h, s[k], pairs)
    ensures OrderedBy([h] + s, pairs)
  {
    var t := [h] + s;
    forall i, j | 0 <= i < j < |t| ensures Precedes(t[i], t[j], pairs) {
      assert t[j] == s[j - 1];
      if i > 0 {
        assert t[i] == s[i - 1];
      }
    }
  }

  /** When `x` goes behind the head, the head still precedes everything after it. */
  lemma InsertBehind(r: seq<Entry>, x: Entry, pairs: seq<Entry>)
    requires OrderedBy(r, pairs) && r != [] && r[0].value >= x.value
    requires forall e | e in r :: NameIndex(pairs, e.name) < NameIndex(pairs, x.name)
    requires OrderedBy(Insert(r[1..], x), pairs)
    ensures OrderedBy(Insert(r, x), pairs)
  {
    var t := r[1..];
    var ins := Insert(t, x);
    assert r[0] in r;
    forall j | 0 <= j < |ins| ensures Precedes(r[0], ins[j], pairs) {
      var k := InsertSource(t, x, j);
      if k >= 0 {
        assert Precedes(r[0], r[k + 1], pairs);
      }
    }
    assert Insert(r, x) == [r[0]] + ins;
    ConsOrdered(r[0], ins, pairs);
  }

  /** Every entry of `Insert(t, x)` is `x` (k = -1) or the entry at `k` of `t`. */
  lemma InsertSource(t: seq<Entry>, x: Entry, j: nat) returns (k: int)
    requires j < |Insert(t, x)|
    ensures (k == -1 && Insert(t, x)[j] == x) || (0 <= k < |t| && t[k] == Insert(t, x)[j])
  {
    var ins := Insert(t, x);
    assert ins[j] in multiset(ins);
    if ins[j] == x {
      k := -1;
    } else {
      assert ins[j] in multiset(t);
      k :| 0 <= k < |t| && t[k] == ins[j];
    }
  }

  /**
   * Sorting entries that are in first-appearance order yields them highest
   * value first, ties kept in first-appearance order.
   */
  lemma {:induction false} SortDescOrdered(s: seq<Entry>, pairs: seq<Entry>)
    requires forall i, j :: 0 <= i < j < |s| ==> NameIndex(pairs, s[i].name) < NameIndex(pairs, s[j].name)
    ensures OrderedBy(SortDesc(s), pairs)
    decreases |s|
  {
    if s != [] {
      var s', x := s[..|s| - 1], s[|s| - 1];
      SortDescOrdered(s', pairs);
      var r := SortDesc(s');
      forall e | e in r ensures NameIndex(pairs, e.name) < NameIndex(pairs, x.name) {
        assert e in multiset(s');
        var k :| 0 <= k < |s'| && s'[k] == e;
      }
      InsertOrdered(r, x, pairs);
    }
  }

  /**
   * The day summary of parseData (lines 86-104) and the year summary of
   * drawGlobalOverview (lines 151-173): group, then sort.
   */
  method Summarize(pairs: seq<Entry>) returns (summary: seq<Entry>)
    ensures IsSummaryOf(summary, pairs)
  {
    var groups := Group(pairs);
    summary := SortDesc(groups);
    SortDescOrdered(groups, pairs);
    assert forall e :: e in summary <==> e in groups by {
      forall e ensures e in summary <==> e in groups {
        assert e in summary <==> e in multiset(summary);
        assert e in groups <==> e in multiset(groups);
      }
    }
    forall i | 0 <= i < |summary| ensures summary[i].value == SumFor(pairs, summary[i].name) {
      assert summary[i] in groups;
    }
    assert Names(summary) == Names(groups);
    forall i, j | 0 <= i < j < |summary| ensures summary[i].name != summary[j].name {
      assert Precedes(summary[i], summary[j], pairs);
    }
    forall i, j | 0 <= i < j < |summary| ensures summary[i].value >= summary[j].value {
      assert Precedes(summary[i], summary[j], pairs);
    }
  }

  lemma {:induction false} SumValuesZero(s: seq<Entry>)
    requires forall i :: 0 <= i < |s| ==> s[i].value == 0
    ensures SumValues(s) == 0
  {
    if s != [] {
      SumValuesZero(s[..|s| - 1]);
    }
  }

  lemma {:induction false} SumValuesUpdate(s: seq<Entry>, k: nat, e: Entry)
    requires k < |s|
    ensures SumValues(s[k := e]) == SumValues(s) - s[k].value + e.value
    decreases |s|
  {
    var last := |s| - 1;
    if k == last {
      assert s[k := e][..last] == s[..last];
    } else {
      assert s[k := e][..last] == s[..last][k := e];
      SumValuesUpdate(s[..last], k, e);
    }
  }

  /**
   * Entries with distinct names, each carrying its name's sum in `pairs` and
   * covering every name of `pairs`, add up to the sum of `pairs`.
   */
  lemma {:induction false} DistinctSumsConserve(s: seq<Entry>, pairs: seq<Entry>)
    requires forall i, j :: 0 <= i < j < |s| ==> s[i].name != s[j].name
    requires forall i :: 0 <= i < |s| ==> s[i].value == SumFor(pairs, s[i].name)
    requires Names(pairs) <= Names(s)
    ensures SumValues(s) == SumValues(pairs)
    decreases |pairs|
  {
    if pairs == [] {
      SumValuesZero(s);
    } else {
      var pairs', p := pairs[..|pairs| - 1], pairs[|pairs| - 1];
      assert p in pairs;
      var k := NameAt(s, p.name);
      var s' := s[k := Entry(p.name, s[k].value - p.value)];
      SumValuesUpdate(s, k, Entry(p.name, s[k].value - p.value));
      ConserveStep(s, pairs, k);
      DistinctSumsConserve(s', pairs');
    }
  }

  /** The position of an entry carrying a name that occurs. */
  lemma NameAt(s: seq<Entry>, n: string) returns (k: nat)
    requires n in Names(s)
    ensures k < |s| && s[k].name == n
  {
    var e :| e in s && e.name == n;
    k :| k < |s| && s[k] == e;
  }

  /** Taking the last entry off `pairs` and its value off its name's entry keeps the requirements. */
  lemma ConserveStep(s: seq<Entry>, pairs: seq<Entry>, k: nat)
    requires pairs != [] && k < |s| && s[k].name == pairs[|pairs| - 1].name
    requires forall i, j :: 0 <= i < j < |s| ==> s[i].name != s[j].name
    requires forall i :: 0 <= i < |s| ==> s[i].value == SumFor(pairs, s[i].name)
    requires Names(pairs) <= Names(s)
    ensures var p := pairs[|pairs| - 1];
      var s' := s[k := Entry(p.name, s[k].value - p.value)];
      && (forall i, j :: 0 <= i < j < |s'| ==> s'[i].name != s'[j].name)
      && (forall i :: 0 <= i < |s'| ==> s'[i].value == SumFor(pairs[..|pairs| - 1], s'[i].name))
      && Names(pairs[..|pairs| - 1]) <= Names(s')
  {
    var pairs', p := pairs[..|pairs| - 1], pairs[|pairs| - 1];
    assert pairs' + [p] == pairs;
    NamesAppend(pairs', [p]);
    UpdateKeepsNames(s, k, -p.value);
    assert s[k := Entry(p.name, s[k].value - p.value)] == s[k := Entry(s[k].name, s[k].value + -p.value)];
  }

  /** The values of a summary add up to the values summarised. */
  lemma SummaryConserves(s: seq<Entry>, pairs: seq<Entry>)
    requires IsSummaryOf(s, pairs)
    ensures SumValues(s) == SumValues(pairs)
  {
    DistinctSumsConserve(s, pairs);
  }

  /**
   * Two facts kept as lemmas rather than asserts at their call sites: as
   * asserts inside `OrderedUnique` they are proved from the branch's
   * impossible cases rather than from the sequences.
   */
  lemma HeadPrecedes(s: seq<Entry>, pairs: seq<Entry>, m: nat)
    requires OrderedBy(s, pairs) && m < |s|
    ensures m == 0 || Precedes(s[0], s[m], pairs)
  {
  }

  lemma HeadIsMember(s: seq<Entry>)
    ensures s != [] ==> s[0] in s
  {
  }

  lemma {:induction false} OrderedUnique(a: seq<Entry>, b: seq<Entry>, pairs: seq<Entry>)
    requires OrderedBy(a, pairs) && OrderedBy(b, pairs)
    requires forall e :: e in a <==> e in b
    ensures a == b
    decreases |a|
  {
    if a == [] || b == [] {
      HeadIsMember(a);
      HeadIsMember(b);
    } else {
      assert a[0] in b;
      var k :| 0 <= k < |b| && b[k] == a[0];
      HeadPrecedes(b, pairs, k);
      assert b[0] in a;
      var m :| 0 <= m < |a| && a[m] == b[0];
      HeadPrecedes(a, pairs, m);
      assert a[0] == b[0];
      var a', b' := a[1..], b[1..];
      assert OrderedBy(a', pairs) by {
        forall i, j | 0 <= i < j < |a'| ensures Precedes(a'[i], a'[j], pairs) {
          assert Precedes(a[i + 1], a[j + 1], pairs);
        }
      }
      assert OrderedBy(b', pairs) by {
        forall i, j | 0 <= i < j < |b'| ensures Precedes(b'[i], b'[j], pairs) {
          assert Precedes(b[i + 1], b[j + 1], pairs);
        }
      }
      assert a == [a[0]] + a' && b == [b[0]] + b';
      forall e ensures e in a' <==> e in b' {
        if e in a' {
          var j :| 0 <= j < |a'| && a'[j] == e;
          assert Precedes(a[0], a[j + 1], pairs);
          assert e in a && e != a[0] && e in b;
        }
        if e in b' {
          var j :| 0 <= j < |b'| && b'[j] == e;
          assert Precedes(b[0], b[j + 1], pairs);
          assert e in b && e != b[0] && e in a;
        }
      }
      OrderedUnique(a', b', pairs);
    }
  }

  /** A summary of `pairs` is determined by `pairs`: there is only one. */
  lemma SummaryUnique(a: seq<Entry>, b: seq<Entry>, pairs: seq<Entry>)
    requires IsSummaryOf(a, pairs) && IsSummaryOf(b, pairs)
    ensures a == b
  {
    forall e | e in a ensures e in b {
      assert e.name in Names(b);
      var f :| f in b && f.name == e.name;
    }
    forall e | e in b ensures e in a {
      assert e.name in Names(a);
      var f :| f in a && f.name == e.name;
    }
    OrderedUnique(a, b, pairs);
  }

  /** Nothing to summarise gives the empty summary. */
  lemma SummaryOfNothing(s: seq<Entry>)
    requires IsSummaryOf(s, [])
    ensures s == []
  {
    NamesEmpty(s);
  }
}
