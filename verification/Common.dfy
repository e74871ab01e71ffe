module Common {

  datatype Option<+V> = None | Some(value: V) {
    function GetOr(default: V): V {
      if Some? then value else default
    }
  }

  /** `a` and `b` agree at `k`: both lack it, or both hold the same value there. */
  predicate SameAt<K, V(==)>(a: map<K, V>, b: map<K, V>, k: K) {
    (k in a <==> k in b) && (k in a ==> a[k] == b[k])
  }

  lemma SameEverywhere<K(!new), V>(a: map<K, V>, b: map<K, V>)
    requires forall k :: SameAt(a, b, k)
    ensures a == b
  {
    assert forall k | k in a :: SameAt(a, b, k);
    assert forall k | k in b :: SameAt(a, b, k);
  }
}
