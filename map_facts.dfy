/** A fact about maps that store each value under a key computed from the
    value itself, as the room and customer registries do. */
module MapFacts {

  /** When every value is stored under its own key, distinct keys hold
      distinct values, so there are as many values as keys. */
  lemma {:induction false} KeyedValuesCount<K, V>(m: map<K, V>, key: V -> K)
    requires forall k :: k in m ==> key(m[k]) == k
    ensures |m.Values| == |m.Keys|
    decreases |m.Keys|
  {
    if m.Keys != {} {
      var k :| k in m.Keys;
      var rest := m - {k};
      assert rest.Keys == m.Keys - {k};
      KeyedValuesCount(rest, key);
      assert m.Values == rest.Values + {m[k]} by {
        forall v | v in m.Values ensures v in rest.Values + {m[k]} {
          var j :| j in m && m[j] == v;
          if j != k { assert rest[j] == v; }
        }
      }
      assert m[k] !in rest.Values;
    }
  }
}
