/** How a JavaScript object lists its own keys (`Object.entries`, `Object.keys`). */
module JsObjects {
  import opened Seqs
  import opened Sorting

  function DigitsValue(s: string): int
    decreases |s|
  {
    if s == [] then 0 else 10 * DigitsValue(s[..|s| - 1]) + (s[|s| - 1] as int - '0' as int)
  }

  /**
   * Whether an object key is an array index (the canonical decimal form of a
   * number below 2^32 - 1): a JavaScript object lists such keys first, in
   * numeric order, and its other keys in the order they were added.
   */
  predicate IsArrayIndex(key: string) {
    |key| > 0 && (forall i :: 0 <= i < |key| ==> '0' <= key[i] <= '9')
    && (key[0] != '0' || |key| == 1) && DigitsValue(key) < 0xFFFF_FFFF
  }

  predicate IsOtherKey(key: string) {
    !IsArrayIndex(key)
  }

  /** The order `Object.entries` lists keys that were added in the order `keys`. */
  function KeyOrder(keys: seq<string>): (r: seq<string>)
    ensures multiset(r) == multiset(keys)
  {
    var indices, others := Filter(keys, IsArrayIndex), Filter(keys, IsOtherKey);
    var sorted := SortBy(indices, DigitsValue);
    var r := sorted + others;
    calc {
      multiset(r);
      multiset(sorted) + multiset(others);
      multiset(indices) + multiset(others);
      { FilterSplits(keys, IsArrayIndex, IsOtherKey); }
      multiset(keys);
    }
    r
  }

  /** The keys of an object, as listed, after setting the keys `added` in turn. */
  function EntryKeys(added: seq<string>): (r: seq<string>)
    ensures NoDuplicates(r)
    ensures forall k :: k in r <==> k in added
  {
    var r := KeyOrder(Distinct(added));
    PermutationNoDuplicates(Distinct(added), r);
    SameElements(r, Distinct(added));
    r
  }

  /** Without array-index keys an object lists its keys in the order they were added. */
  lemma InsertionOrderWithoutIndices(keys: seq<string>)
    requires forall i :: 0 <= i < |keys| ==> !IsArrayIndex(keys[i])
    ensures KeyOrder(keys) == keys
  {
    FilterKeepsAll(keys, IsOtherKey);
    FilterDropsAll(keys, IsArrayIndex);
  }
}
