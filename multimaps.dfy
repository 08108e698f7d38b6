/**
 * The `ImmutableMultimap` that the properties-file parser builds: a key maps
 * to every value recorded for it, in insertion order, duplicates kept.
 */
module Multimaps {

  type Multimap = map<string, seq<string>>

  /** A key is present only while it has at least one value. */
  predicate Valid(m: Multimap)
  {
    forall k :: k in m ==> m[k] != []
  }

  /** `get(key)`: the values of `key`, empty for a key never recorded. */
  function Get(m: Multimap, key: string): (values: seq<string>)
    ensures Valid(m) ==> (values == [] <==> key !in m)
  {
    if key in m then m[key] else []
  }

  /** `Builder.put(key, value)`: appends `value` to the values of `key` and leaves every other key alone. */
  function Put(m: Multimap, key: string, value: string): (r: Multimap)
    requires Valid(m)
    ensures Valid(r)
    ensures Get(r, key) == Get(m, key) + [value]
    ensures forall k :: k != key ==> Get(r, k) == Get(m, k)
  {
    m[key := Get(m, key) + [value]]
  }
}
