/** The JavaScript `Map`: a finite map that also remembers the order in which its keys were first set. */
module OrderedMaps {

  datatype OrderedMap<K(==), V> = OrderedMap(order: seq<K>, entries: map<K, V>) {

    ghost predicate Valid() {
      && (forall i, j :: 0 <= i < j < |order| ==> order[i] != order[j])
      && (forall k :: k in order ==> k in entries)
      && (forall k :: k in entries ==> k in order)
    }

    /** `set`: a key already present keeps its place. */
    function Put(k: K, v: V): OrderedMap<K, V> {
      OrderedMap(if k in entries then order else order + [k], entries[k := v])
    }
  }

  function Empty<K(==), V>(): OrderedMap<K, V> {
    OrderedMap([], map[])
  }

  /** `Array.from(map.values())` */
  function Values<K(==), V>(m: OrderedMap<K, V>): (r: seq<V>)
    requires m.Valid()
    ensures |r| == |m.order|
    ensures forall i :: 0 <= i < |r| ==> m.order[i] in m.entries && r[i] == m.entries[m.order[i]]
  {
    assert forall i :: 0 <= i < |m.order| ==> m.order[i] in m.order;
    seq(|m.order|, i requires 0 <= i < |m.order| => m.entries[m.order[i]])
  }
}
