/**
 * `java.util.TreeMap<String, V>` as the environment getter uses it: a mutable
 * map whose iteration order is the ascending order of `String.compareTo`.
 * The red-black tree is abstracted to its in-order sequence of entries.
 */
module TreeMaps {
  import opened JavaStrings

  /** Each key is below its successor: the in-order invariant of the tree. */
  predicate Sorted<V>(entries: seq<(string, V)>)
  {
    forall i :: 0 < i < |entries| ==> Less(entries[i - 1].0, entries[i].0)
  }

  /** The keys in iteration order. */
  function Keys<V>(entries: seq<(string, V)>): (ks: seq<string>)
    ensures |ks| == |entries| && forall i :: 0 <= i < |entries| ==> ks[i] == entries[i].0
  {
    if entries == [] then [] else [entries[0].0] + Keys(entries[1..])
  }

  /** The keys present, whatever their order. */
  function KeySet<V>(entries: seq<(string, V)>): set<string>
  {
    set k | k in Keys(entries)
  }

  lemma KeySetEmpty<V>(entries: seq<(string, V)>)
    ensures KeySet(entries) == {} <==> entries == []
  {
    if entries != [] {
      assert Keys(entries)[0] in KeySet(entries);
    }
  }

  /** The abstract map the entries stand for; an earlier entry shadows a later one. */
  function ToMap<V>(entries: seq<(string, V)>): map<string, V>
  {
    if entries == [] then map[] else ToMap(entries[1..])[entries[0].0 := entries[0].1]
  }

  /** Sorted entries iterate in strictly ascending key order, so no key repeats. */
  lemma {:induction false} SortedIsStrict<V>(entries: seq<(string, V)>, i: nat, j: nat)
    requires Sorted(entries)
    requires i < j < |entries|
    ensures Less(entries[i].0, entries[j].0) && entries[i].0 != entries[j].0
    decreases j - i
  {
    if i + 1 < j {
      SortedIsStrict(entries, i + 1, j);
      LessTransitive(entries[i].0, entries[i + 1].0, entries[j].0);
    }
    LessIrreflexive(entries[i].0);
  }

  /** The keys of `ToMap` are exactly the keys listed. */
  lemma {:induction false} ToMapKeys<V>(entries: seq<(string, V)>)
    ensures ToMap(entries).Keys == KeySet(entries)
  {
    if entries != [] {
      ToMapKeys(entries[1..]);
      assert Keys(entries) == [entries[0].0] + Keys(entries[1..]);
    }
  }

  /** Two non-empty sorted sequences over the same keys start with the same key: the least one. */
  lemma SameFirstKey<V>(a: seq<(string, V)>, b: seq<(string, V)>)
    requires Sorted(a) && Sorted(b) && a != [] && b != []
    requires KeySet(a) == KeySet(b)
    ensures a[0].0 == b[0].0
  {
    var ka, kb := Keys(a), Keys(b);
    assert ka[0] in KeySet(a) && kb[0] in KeySet(b);
    if ka[0] != kb[0] {
      var i :| 0 <= i < |kb| && kb[i] == ka[0];
      var j :| 0 <= j < |ka| && ka[j] == kb[0];
      SortedIsStrict(b, 0, i);
      SortedIsStrict(a, 0, j);
      LessAsymmetric(ka[0], kb[0]);
      assert false;
    }
  }

  /** Dropping the first entry of a sorted sequence removes exactly its key. */
  lemma KeySetTail<V>(a: seq<(string, V)>)
    requires Sorted(a) && a != []
    ensures Sorted(a[1..]) && KeySet(a[1..]) == KeySet(a) - {a[0].0}
  {
    forall i | 0 < i < |a| ensures a[i].0 != a[0].0 { SortedIsStrict(a, 0, i); }
    assert Keys(a) == [a[0].0] + Keys(a[1..]);
  }

  /**
   * Two sorted entry sequences over the same key set list their keys in the
   * same order: iteration order depends only on which keys are present.
   */
  lemma {:induction false} SortedKeysUnique<V>(a: seq<(string, V)>, b: seq<(string, V)>)
    requires Sorted(a) && Sorted(b)
    requires KeySet(a) == KeySet(b)
    ensures Keys(a) == Keys(b)
  {
    KeySetEmpty(a);
    KeySetEmpty(b);
    if a != [] && b != [] {
      SameFirstKey(a, b);
      KeySetTail(a);
      KeySetTail(b);
      SortedKeysUnique(a[1..], b[1..]);
      assert Keys(a) == [a[0].0] + Keys(a[1..]);
      assert Keys(b) == [b[0].0] + Keys(b[1..]);
    }
  }

  /** `TreeMap.put` on the in-order sequence: replace the entry for `key`, or insert it in place. */
  function Insert<V>(entries: seq<(string, V)>, key: string, value: V): (r: seq<(string, V)>)
    requires Sorted(entries)
    ensures Sorted(r) && r != []
    ensures ToMap(r) == ToMap(entries)[key := value]
    ensures r[0].0 == key || (entries != [] && r[0].0 == entries[0].0)
  {
    if entries == [] then [(key, value)]
    else if entries[0].0 == key then [(key, value)] + entries[1..]
    else if Less(key, entries[0].0) then [(key, value)] + entries
    else
      LessTotal(key, entries[0].0);
      var rest := Insert(entries[1..], key, value);
      assert ToMap([entries[0]] + rest) == ToMap(rest)[entries[0].0 := entries[0].1];
      [entries[0]] + rest
  }

  /** The mutable sorted map; `entries` is its in-order view. */
  class TreeMap<V> {
    var entries: seq<(string, V)>

    ghost predicate Valid()
      reads this
    {
      Sorted(entries)
    }

    /** The map the tree holds. */
    function Contents(): map<string, V>
      reads this
    {
      ToMap(entries)
    }

    /** `Maps.newTreeMap()`. */
    constructor ()
      ensures Valid() && Contents() == map[] && entries == []
    {
      entries := [];
    }

    /** `put(key, value)`: afterwards `key` maps to `value` and every other key is untouched. */
    method Put(key: string, value: V)
      requires Valid()
      modifies this
      ensures Valid()
      ensures Contents() == old(Contents())[key := value]
    {
      entries := Insert(entries, key, value);
    }
  }
}
