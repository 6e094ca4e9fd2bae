/**
 * The generic key-value form that configuration-serializable types write and
 * read. A `serialize` call produces an ordered list of entries
 * (`Vector.serialize` builds a `LinkedHashMap` and `Pattern.serialize` an
 * `ImmutableMap`, both of which keep insertion order); a deserializing
 * constructor receives the entries as a map.
 */
module Serialization {

  /** The values a serialized map can hold, as far as the readers tell them apart. */
  datatype Value =
    | StringValue(s: string)
    | DoubleValue(d: real)
    | IntegerValue(i: int)
    | NullValue

  datatype Entry = Entry(key: string, value: Value)

  /** The keys of `entries`, in insertion order. */
  function KeysOf(entries: seq<Entry>): (keys: seq<string>)
    ensures |keys| == |entries|
    ensures forall i :: 0 <= i < |entries| ==> keys[i] == entries[i].key
  {
    seq(|entries|, i requires 0 <= i < |entries| => entries[i].key)
  }

  predicate DistinctKeys(entries: seq<Entry>) {
    forall i, j :: 0 <= i < j < |entries| ==> entries[i].key != entries[j].key
  }

  /** The map obtained by putting `entries` one after another into an empty
      map: a later put of the same key replaces the earlier value. */
  function ToMap(entries: seq<Entry>): (m: map<string, Value>)
    ensures forall k :: k in m <==> k in KeysOf(entries)
    ensures |entries| > 0 ==> m[entries[|entries| - 1].key] == entries[|entries| - 1].value
    decreases |entries|
  {
    if |entries| == 0 then map[]
    else
      var last := entries[|entries| - 1];
      ToMap(entries[..|entries| - 1])[last.key := last.value]
  }

  /** With distinct keys every entry survives into the map unchanged. */
  lemma ToMapHoldsEveryEntry(entries: seq<Entry>)
    requires DistinctKeys(entries)
    ensures forall i :: 0 <= i < |entries| ==> ToMap(entries)[entries[i].key] == entries[i].value
  {
    forall i | 0 <= i < |entries|
      ensures ToMap(entries)[entries[i].key] == entries[i].value
    {
      ToMapHoldsEntry(entries, i);
    }
  }

  /** The entry at index `i` survives: no later put has the same key. */
  lemma {:induction false} ToMapHoldsEntry(entries: seq<Entry>, i: nat)
    requires DistinctKeys(entries)
    requires i < |entries|
    ensures ToMap(entries)[entries[i].key] == entries[i].value
    decreases |entries|
  {
    var n := |entries| - 1;
    if i < n {
      var front := entries[..n];
      assert front[i] == entries[i];
      assert DistinctKeys(front) by {
        forall j, k | 0 <= j < k < |front| ensures front[j].key != front[k].key {
          assert front[j] == entries[j] && front[k] == entries[k];
        }
      }
      ToMapHoldsEntry(front, i);
      assert entries[i].key != entries[n].key;
    }
  }
}
