/**
 * `ImmutableMultiset.copyOf(values)`, abstracted to its entry list: each
 * distinct value once, in order of first occurrence, with its count. The
 * library's `toString` is a rendering of exactly this list.
 */
module Multisets {

  datatype Entry = Entry(element: string, count: nat)

  function Elements(entries: seq<Entry>): (es: seq<string>)
    ensures |es| == |entries| && forall i :: 0 <= i < |entries| ==> es[i] == entries[i].element
  {
    if entries == [] then [] else [entries[0].element] + Elements(entries[1..])
  }

  /** The sum of the counts: the size of the multiset. */
  function TotalCount(entries: seq<Entry>): nat
  {
    if entries == [] then 0 else TotalCount(entries[..|entries| - 1]) + entries[|entries| - 1].count
  }

  /** Position of the first occurrence of `x`, or `|values|` when it does not occur. */
  function FirstIndex(values: seq<string>, x: string): (i: nat)
    ensures i <= |values|
    ensures i < |values| <==> x in values
    ensures i < |values| ==> values[i] == x && x !in values[..i]
  {
    if values == [] then 0
    else if values[0] == x then 0
    else
      assert values == [values[0]] + values[1..];
      1 + FirstIndex(values[1..], x)
  }

  /** Each entry counts the occurrences of its element. */
  ghost predicate CountsMatch(entries: seq<Entry>, values: seq<string>)
  {
    forall i :: 0 <= i < |entries| ==> 0 < entries[i].count == multiset(values)[entries[i].element]
  }

  /** No element has two entries. */
  predicate Distinct(entries: seq<Entry>)
  {
    forall i, j :: 0 <= i < j < |entries| ==> entries[i].element != entries[j].element
  }

  /** Every value has an entry. */
  predicate Covers(entries: seq<Entry>, values: seq<string>)
  {
    forall x :: x in values ==> x in Elements(entries)
  }

  /** Entries come in the order of their elements' first occurrences. */
  predicate InFirstOccurrenceOrder(entries: seq<Entry>, values: seq<string>)
  {
    forall i, j :: 0 <= i < j < |entries| ==>
      FirstIndex(values, entries[i].element) < FirstIndex(values, entries[j].element)
  }

  /** `entries` is the entry list of the multiset of `values`, in first-occurrence order. */
  ghost predicate Tallies(entries: seq<Entry>, values: seq<string>)
  {
    CountsMatch(entries, values) && Distinct(entries) && Covers(entries, values) && InFirstOccurrenceOrder(entries, values)
  }

  /** Adds one occurrence of `x`: bump its entry, or append a new entry with count one. */
  function AddOccurrence(entries: seq<Entry>, x: string): (r: seq<Entry>)
  {
    if x in Elements(entries) then
      var k := FirstIndex(Elements(entries), x);
      entries[k := Entry(x, entries[k].count + 1)]
    else
      entries + [Entry(x, 1)]
  }

  /** The entry list built by copying `values` in order. */
  function MultisetEntries(values: seq<string>): seq<Entry>
  {
    if values == [] then [] else AddOccurrence(MultisetEntries(values[..|values| - 1]), values[|values| - 1])
  }

  lemma {:induction false} FirstIndexAppend(values: seq<string>, x: string, y: string)
    ensures y in values ==> FirstIndex(values + [x], y) == FirstIndex(values, y)
    ensures y !in values && y == x ==> FirstIndex(values + [x], y) == |values|
  {
    if values != [] && values[0] != y {
      assert (values + [x])[1..] == values[1..] + [x];
      FirstIndexAppend(values[1..], x, y);
    }
  }

  lemma {:induction false} TotalCountAppend(entries: seq<Entry>, e: Entry)
    ensures TotalCount(entries + [e]) == TotalCount(entries) + e.count
  {
    assert (entries + [e])[..|entries|] == entries;
  }

  lemma {:induction false} TotalCountBump(entries: seq<Entry>, k: nat, e: Entry)
    requires k < |entries| && e.count == entries[k].count + 1
    ensures TotalCount(entries[k := e]) == TotalCount(entries) + 1
  {
    var n := |entries|;
    if k < n - 1 {
      assert entries[k := e][..n - 1] == entries[..n - 1][k := e];
      TotalCountBump(entries[..n - 1], k, e);
    }
  }

  /** Every entry's element occurs among the values. */
  lemma EntriesOccur(e: seq<Entry>, p: seq<string>)
    requires CountsMatch(e, p)
    ensures forall i :: 0 <= i < |e| ==> e[i].element in p
  {
    forall i | 0 <= i < |e| ensures e[i].element in p {
      assert multiset(p)[e[i].element] > 0;
    }
  }

  /** Appending a value keeps the first occurrence of every element already present. */
  lemma FirstIndicesKept(e: seq<Entry>, p: seq<string>, x: string)
    requires forall i :: 0 <= i < |e| ==> e[i].element in p
    ensures forall i :: 0 <= i < |e| ==> FirstIndex(p + [x], e[i].element) == FirstIndex(p, e[i].element) < |p|
  {
    forall i | 0 <= i < |e| ensures FirstIndex(p + [x], e[i].element) == FirstIndex(p, e[i].element) < |p| {
      FirstIndexAppend(p, x, e[i].element);
    }
  }

  lemma BumpCounts(e: seq<Entry>, p: seq<string>, x: string)
    requires CountsMatch(e, p) && Distinct(e) && x in Elements(e)
    ensures CountsMatch(AddOccurrence(e, x), p + [x])
  {
    var values, r := p + [x], AddOccurrence(e, x);
    var k := FirstIndex(Elements(e), x);
    assert multiset(values) == multiset(p) + multiset{x};
    forall i | 0 <= i < |r|
      ensures 0 < r[i].count == multiset(values)[r[i].element]
    {
      if i != k {
        assert e[i].element != e[k].element;
      }
    }
  }

  lemma BumpOrder(e: seq<Entry>, p: seq<string>, x: string)
    requires CountsMatch(e, p) && InFirstOccurrenceOrder(e, p) && x in Elements(e)
    ensures InFirstOccurrenceOrder(AddOccurrence(e, x), p + [x])
  {
    var r := AddOccurrence(e, x);
    assert Elements(r) == Elements(e);
    EntriesOccur(e, p);
    FirstIndicesKept(e, p, x);
    assert forall i :: 0 <= i < |r| ==> r[i].element == e[i].element;
  }

  /** Bumping the entry of a value already seen keeps the tally. */
  lemma TallyBump(e: seq<Entry>, p: seq<string>, x: string)
    requires Tallies(e, p) && x in Elements(e)
    ensures Tallies(AddOccurrence(e, x), p + [x])
  {
    var r := AddOccurrence(e, x);
    BumpCounts(e, p, x);
    BumpOrder(e, p, x);
    assert Elements(r) == Elements(e);
  }

  lemma AppendCounts(e: seq<Entry>, p: seq<string>, x: string)
    requires CountsMatch(e, p) && x !in Elements(e) && x !in p
    ensures CountsMatch(AddOccurrence(e, x), p + [x])
  {
    assert multiset(p + [x]) == multiset(p) + multiset{x};
  }

  lemma AppendOrder(e: seq<Entry>, p: seq<string>, x: string)
    requires CountsMatch(e, p) && InFirstOccurrenceOrder(e, p) && x !in p
    ensures InFirstOccurrenceOrder(AddOccurrence(e, x), p + [x])
  {
    var values, r := p + [x], AddOccurrence(e, x);
    assert r == e + [Entry(x, 1)];
    EntriesOccur(e, p);
    FirstIndicesKept(e, p, x);
    FirstIndexAppend(p, x, x);
    forall i, j | 0 <= i < j < |r|
      ensures FirstIndex(values, r[i].element) < FirstIndex(values, r[j].element)
    {
      assert r[i] == e[i];
      if j < |e| {
        assert r[j] == e[j];
      }
    }
  }

  /** Appending an entry for a new value keeps the tally. */
  lemma TallyAppend(e: seq<Entry>, p: seq<string>, x: string)
    requires Tallies(e, p) && x !in Elements(e)
    ensures Tallies(AddOccurrence(e, x), p + [x])
  {
    assert x !in p;
    AppendCounts(e, p, x);
    AppendOrder(e, p, x);
    assert Elements(AddOccurrence(e, x)) == Elements(e) + [x];
  }

  /** Copying values one at a time keeps the entry list a tally of what was copied. */
  lemma {:induction false} MultisetEntriesTally(values: seq<string>)
    ensures Tallies(MultisetEntries(values), values)
  {
    if values != [] {
      var p, x := values[..|values| - 1], values[|values| - 1];
      assert values == p + [x];
      MultisetEntriesTally(p);
      if x in Elements(MultisetEntries(p)) {
        TallyBump(MultisetEntries(p), p, x);
      } else {
        TallyAppend(MultisetEntries(p), p, x);
      }
    }
  }

  /** The counts add up to the number of values copied. */
  lemma {:induction false} MultisetEntriesTotal(values: seq<string>)
    ensures TotalCount(MultisetEntries(values)) == |values|
  {
    if values != [] {
      var p, x := values[..|values| - 1], values[|values| - 1];
      MultisetEntriesTotal(p);
      var e := MultisetEntries(p);
      assert MultisetEntries(values) == AddOccurrence(e, x);
      if x in Elements(e) {
        var k := FirstIndex(Elements(e), x);
        TotalCountBump(e, k, Entry(x, e[k].count + 1));
      } else {
        TotalCountAppend(e, Entry(x, 1));
      }
    }
  }
}
