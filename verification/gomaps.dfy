/** Go's `for k, v := range m` visits every key once, in an unspecified
    order. The model takes that order as an explicit argument. */
module GoMaps {

  /** `order` lists every key of `keys` exactly once. */
  ghost predicate Enumerates<K(!new)>(order: seq<K>, keys: set<K>) {
    && (forall i, j :: 0 <= i < j < |order| ==> order[i] != order[j])
    && (forall k :: k in order <==> k in keys)
  }

  /** The (key, value) pairs a range loop over `m` visits in `order`. */
  function Entries<K, V>(m: map<K, V>, order: seq<K>): (es: seq<(K, V)>)
    requires forall i :: 0 <= i < |order| ==> order[i] in m
    ensures |es| == |order|
    ensures forall i :: 0 <= i < |es| ==> es[i] == (order[i], m[order[i]])
  {
    seq(|order|, i requires 0 <= i < |order| => (order[i], m[order[i]]))
  }

  /** Whatever the order, the loop visits exactly the pairs of the map. */
  lemma {:induction false} EntriesOfEnumeration<K(!new), V>(m: map<K, V>, order: seq<K>)
    requires Enumerates(order, m.Keys)
    ensures forall e: (K, V) :: e in Entries(m, order) <==> e.0 in m && e.1 == m[e.0]
  {
    var es := Entries(m, order);
    forall e: (K, V) | e.0 in m && e.1 == m[e.0] ensures e in es {
      var i :| 0 <= i < |order| && order[i] == e.0;
      assert es[i] == e;
    }
  }
}
