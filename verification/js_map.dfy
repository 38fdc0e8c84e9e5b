/**
  A JavaScript `Map` with string keys: a finite map whose keys iterate
  in the order they were first inserted. Setting a present key keeps
  its place; deleting a key removes it from the order.
 */
module JsMap {
  import opened StringUtil
  import opened Options

  datatype OrderedMap<V> = OrderedMap(keys: seq<string>, entries: map<string, V>)

  /** The order lists every key once and nothing else. */
  predicate Valid<V>(m: OrderedMap<V>) {
    NoDuplicates(m.keys)
    && (forall i :: 0 <= i < |m.keys| ==> m.keys[i] in m.entries)
    && (forall k :: k in m.entries ==> k in m.keys)
  }

  function Empty<V>(): (m: OrderedMap<V>)
    ensures Valid(m) && m.keys == [] && m.entries == map[]
  {
    OrderedMap([], map[])
  }

  /** `map.get(k)`. */
  function Get<V>(m: OrderedMap<V>, k: string): (r: Option<V>)
    ensures r.Some? <==> k in m.entries
    ensures r.Some? ==> r.value == m.entries[k]
  {
    if k in m.entries then Some(m.entries[k]) else None
  }

  /** `map.set(k, v)`: a new key goes last, a present key keeps its place. */
  function Set<V>(m: OrderedMap<V>, k: string, v: V): (r: OrderedMap<V>)
    requires Valid(m)
    ensures Valid(r)
    ensures r.entries == m.entries[k := v]
    ensures k in m.entries ==> r.keys == m.keys
    ensures k !in m.entries ==> r.keys == m.keys + [k]
  {
    if k in m.entries then OrderedMap(m.keys, m.entries[k := v])
    else
      var keys := m.keys + [k];
      assert forall i :: 0 <= i < |m.keys| ==> keys[i] == m.keys[i];
      OrderedMap(keys, m.entries[k := v])
  }

  /** The keys other than `k`, in order. */
  function Without(keys: seq<string>, k: string): (r: seq<string>)
    ensures forall x :: x in r <==> x in keys && x != k
    ensures NoDuplicates(keys) ==> NoDuplicates(r)
  {
    if |keys| == 0 then []
    else
      var rest := Without(keys[1..], k);
      assert forall x :: x in keys <==> x == keys[0] || x in keys[1..];
      if keys[0] == k then rest
      else
        assert NoDuplicates(keys) ==> keys[0] !in keys[1..];
        [keys[0]] + rest
  }

  /** `map.delete(k)`. */
  function Delete<V>(m: OrderedMap<V>, k: string): (r: OrderedMap<V>)
    requires Valid(m)
    ensures Valid(r)
    ensures r.entries == m.entries - {k}
  {
    var keys := Without(m.keys, k);
    assert forall i :: 0 <= i < |keys| ==> keys[i] in keys;
    OrderedMap(keys, m.entries - {k})
  }

  /** `Array.from(map.values())`. */
  function Values<V>(m: OrderedMap<V>): (vs: seq<V>)
    requires Valid(m)
    ensures |vs| == |m.keys|
    ensures forall i :: 0 <= i < |vs| ==> vs[i] == m.entries[m.keys[i]]
  {
    ValuesOf(m.keys, m.entries)
  }

  function ValuesOf<V>(keys: seq<string>, entries: map<string, V>): (vs: seq<V>)
    requires forall i :: 0 <= i < |keys| ==> keys[i] in entries
    ensures |vs| == |keys|
    ensures forall i :: 0 <= i < |vs| ==> vs[i] == entries[keys[i]]
  {
    if |keys| == 0 then [] else [entries[keys[0]]] + ValuesOf(keys[1..], entries)
  }

  /** Listing the values of one more key appends its value, when the other keys keep theirs. */
  lemma {:induction false} ValuesOfAppend<V>(keys: seq<string>, k: string, before: map<string, V>, after: map<string, V>)
    requires forall i :: 0 <= i < |keys| ==> keys[i] in before && keys[i] in after && after[keys[i]] == before[keys[i]]
    requires k in after
    ensures ValuesOf(keys + [k], after) == ValuesOf(keys, before) + [after[k]]
  {
    if |keys| == 0 {
      assert keys + [k] == [k];
    } else {
      assert (keys + [k])[1..] == keys[1..] + [k];
      ValuesOfAppend(keys[1..], k, before, after);
    }
  }

  /** The position of a present key in the order. */
  function IndexOf(keys: seq<string>, k: string): (i: nat)
    requires k in keys
    ensures i < |keys| && keys[i] == k
  {
    if keys[0] == k then 0 else 1 + IndexOf(keys[1..], k)
  }

  /** Setting a present key changes its value in place and no other value. */
  lemma ValuesAfterSet<V>(m: OrderedMap<V>, k: string, v: V)
    requires Valid(m) && k in m.entries
    ensures var vs := Values(m); var ws := Values(Set(m, k, v));
      var i := IndexOf(m.keys, k);
      |ws| == |vs| && ws[i] == v && forall j :: 0 <= j < |vs| && j != i ==> ws[j] == vs[j]
  {
    var i := IndexOf(m.keys, k);
    forall j | 0 <= j < |m.keys| && j != i ensures m.keys[j] != k {
    }
  }
}
