/**
 * A `Dictionary<string, V>` built with `StringComparer.OrdinalIgnoreCase`,
 * as a list of entries in insertion order. Keys are compared with
 * `EqualsIgnoreCase`; the indexer's set keeps the key an entry was first
 * added with and replaces its value, or appends a new entry.
 */
module CaseInsensitiveDictionary {
  import opened Wrappers
  import opened Text

  type Dict<V> = seq<(string, V)>

  /** No two keys are equal ignoring case. */
  predicate DistinctKeys<V>(d: Dict<V>) {
    forall i, j | 0 <= i < j < |d| :: !EqualsIgnoreCase(d[i].0, d[j].0)
  }

  /** Where `key` sits, or `|d|` when it is absent. */
  function Position<V>(d: Dict<V>, key: string): (k: nat)
    ensures k <= |d|
    ensures k < |d| ==> EqualsIgnoreCase(d[k].0, key)
    ensures forall j | 0 <= j < k :: !EqualsIgnoreCase(d[j].0, key)
  {
    if d == [] then 0
    else if EqualsIgnoreCase(d[0].0, key) then 0
    else 1 + Position(d[1..], key)
  }

  /** `TryGetValue`. */
  function Get<V>(d: Dict<V>, key: string): (r: Option<V>)
    ensures r.Some? <==> exists j | 0 <= j < |d| :: EqualsIgnoreCase(d[j].0, key)
    ensures r.Some? ==> exists j | 0 <= j < |d| :: EqualsIgnoreCase(d[j].0, key) && d[j].1 == r.value
  {
    var k := Position(d, key);
    if k < |d| then Some(d[k].1) else None
  }

  /** `d[key] = value`. */
  function Set<V>(d: Dict<V>, key: string, value: V): Dict<V> {
    var k := Position(d, key);
    if k < |d| then d[k := (d[k].0, value)] else d + [(key, value)]
  }

  /** The values in enumeration order. */
  function Values<V>(d: Dict<V>): (r: seq<V>)
    ensures |r| == |d| && forall j | 0 <= j < |d| :: r[j] == d[j].1
  {
    seq(|d|, j requires 0 <= j < |d| => d[j].1)
  }

  /** Under distinct keys, the entry whose key matches is the one `Get` gives. */
  lemma GetOfDistinct<V>(d: Dict<V>, j: nat)
    requires DistinctKeys(d) && j < |d|
    ensures Get(d, d[j].0) == Some(d[j].1)
  {
    var k := Position(d, d[j].0);
    if k < j {
      assert false;
    }
  }

  /**
   * After `d[key] = value`, `key` (and every key equal to it ignoring case)
   * gives `value`, every other key gives what it gave before, and keys stay
   * distinct.
   */
  lemma SetFacts<V>(d: Dict<V>, key: string, value: V, other: string)
    ensures Get(Set(d, key, value), key) == Some(value)
    ensures EqualsIgnoreCase(key, other) ==> Get(Set(d, key, value), other) == Some(value)
    ensures !EqualsIgnoreCase(key, other) ==> Get(Set(d, key, value), other) == Get(d, other)
    ensures DistinctKeys(d) ==> DistinctKeys(Set(d, key, value))
    ensures |Set(d, key, value)| == |d| + (if Position(d, key) < |d| then 0 else 1)
  {
    SetGets(d, key, value, key);
    SetGets(d, key, value, other);
    if DistinctKeys(d) {
      SetKeepsDistinct(d, key, value);
    }
  }

  /** What a key gives after `d[key] = value`. */
  lemma SetGets<V>(d: Dict<V>, key: string, value: V, other: string)
    ensures EqualsIgnoreCase(key, other) ==> Get(Set(d, key, value), other) == Some(value)
    ensures !EqualsIgnoreCase(key, other) ==> Get(Set(d, key, value), other) == Get(d, other)
  {
    var k := Position(d, key);
    var r := Set(d, key, value);
    if k < |d| {
      assert forall j | 0 <= j < |d| :: r[j].0 == d[j].0;
      SamePosition(d, r, other);
      SamePosition(d, r, key);
    } else {
      PositionAppended(d, key, value, other);
    }
  }

  /** `d[key] = value` keeps keys distinct. */
  lemma SetKeepsDistinct<V>(d: Dict<V>, key: string, value: V)
    requires DistinctKeys(d)
    ensures DistinctKeys(Set(d, key, value))
  {
    var k := Position(d, key);
    var r := Set(d, key, value);
    if k < |d| {
      assert forall j | 0 <= j < |d| :: r[j].0 == d[j].0;
    } else {
      assert forall j | 0 <= j < |d| :: r[j] == d[j];
    }
  }

  /** Positions only depend on the keys. */
  lemma {:induction false} SamePosition<V>(d: Dict<V>, r: Dict<V>, key: string)
    requires |r| == |d| && forall j | 0 <= j < |d| :: r[j].0 == d[j].0
    ensures Position(r, key) == Position(d, key)
  {
    if d != [] {
      SamePosition(d[1..], r[1..], key);
    }
  }

  lemma {:induction false} PositionAppended<V>(d: Dict<V>, key: string, value: V, other: string)
    requires Position(d, key) == |d|
    ensures EqualsIgnoreCase(key, other) ==> Position(d + [(key, value)], other) == |d|
    ensures !EqualsIgnoreCase(key, other) ==> Position(d + [(key, value)], other) == Position(d, other) + (if Position(d, other) == |d| then 1 else 0)
  {
    if d != [] {
      assert (d + [(key, value)])[1..] == d[1..] + [(key, value)];
      PositionAppended(d[1..], key, value, other);
    }
  }
}
