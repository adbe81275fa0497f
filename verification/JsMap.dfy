/** The types a lookup or a failing call returns. */
module Wrappers {
  datatype Option<+T> = None | Some(value: T)
  datatype Result<+T, +E> = Ok(value: T) | Err(error: E)
}

/** A JavaScript `Map` as section 24.1 of ECMA-262 stores it: a list of records in insertion
    order, where deleting a record empties its slot in place. A live iterator is a cursor into
    that list, so it meets records appended while it runs and skips emptied ones. */
module JsMaps {
  import opened Wrappers

  datatype Slot<+K, +V> = Empty | Full(key: K, value: V)

  type JsMap<+K, +V> = seq<Slot<K, V>>

  /** The slot that holds `k`, or the length of the list when no slot does. */
  function Find<K(==), V>(m: JsMap<K, V>, k: K): (i: nat)
    ensures i <= |m|
    ensures i < |m| ==> m[i].Full? && m[i].key == k
    ensures forall j :: 0 <= j < i ==> m[j].Empty? || m[j].key != k
  {
    if m == [] then 0
    else if m[0].Full? && m[0].key == k then 0
    else 1 + Find(m[1..], k)
  }

  predicate Has<K(==), V>(m: JsMap<K, V>, k: K) {
    Find(m, k) < |m|
  }

  function Get<K(==), V>(m: JsMap<K, V>, k: K): Option<V> {
    if Has(m, k) then Some(m[Find(m, k)].value) else None
  }

  function Set<K(==), V>(m: JsMap<K, V>, k: K, v: V): JsMap<K, V> {
    if Has(m, k) then m[Find(m, k) := Full(k, v)] else m + [Full(k, v)]
  }

  function Delete<K(==), V>(m: JsMap<K, V>, k: K): JsMap<K, V> {
    if Has(m, k) then m[Find(m, k) := Empty] else m
  }

  function Clear<K, V>(m: JsMap<K, V>): JsMap<K, V> {
    seq(|m|, i => Empty)
  }

  /** What an iteration over the whole map yields, in order. */
  function Values<K, V>(m: JsMap<K, V>): seq<V> {
    if m == [] then []
    else
      var last := m[|m| - 1];
      Values(m[..|m| - 1]) + if last.Full? then [last.value] else []
  }

  function Keys<K, V>(m: JsMap<K, V>): seq<K> {
    if m == [] then []
    else
      var last := m[|m| - 1];
      Keys(m[..|m| - 1]) + if last.Full? then [last.key] else []
  }

  ghost predicate UniqueKeys<K(!new), V(!new)>(m: JsMap<K, V>) {
    forall i, j :: 0 <= i < j < |m| && m[i].Full? && m[j].Full? ==> m[i].key != m[j].key
  }

  /** `v` is the value of some record. */
  ghost predicate Holds<K(!new), V(!new)>(m: JsMap<K, V>, v: V) {
    exists i :: 0 <= i < |m| && m[i].Full? && m[i].value == v
  }

  lemma ValuesAppend<K, V>(m: JsMap<K, V>, s: Slot<K, V>)
    ensures Values(m + [s]) == Values(m) + if s.Full? then [s.value] else []
  {
    assert (m + [s])[..|m|] == m;
  }

  lemma {:induction false} ValuesHold<K(!new), V(!new)>(m: JsMap<K, V>, v: V)
    ensures v in Values(m) <==> Holds(m, v)
  {
    if m != [] {
      var n := |m| - 1;
      ValuesHold(m[..n], v);
      if Holds(m, v) {
        var i :| 0 <= i < |m| && m[i].Full? && m[i].value == v;
        if i < n {
          assert m[..n][i] == m[i];
        }
      }
      if v in Values(m[..n]) {
        var i :| 0 <= i < n && m[..n][i].Full? && m[..n][i].value == v;
        assert m[i] == m[..n][i];
      }
    }
  }
}
