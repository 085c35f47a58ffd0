/** What several models share. */
module Common {
  import opened Sorting

  datatype Option<T> = None | Some(value: T)

  /** A new key makes a map one larger. */
  lemma OneMore<K, V>(m: map<K, V>, k: K, v: V)
    requires k !in m
    ensures |m[k := v]| == |m| + 1
  {
    assert m[k := v].Keys == m.Keys + {k};
    assert |m| == |m.Keys| && |m[k := v]| == |m[k := v].Keys|;
  }

  lemma Associative<T>(a: seq<T>, b: seq<T>, c: seq<T>)
    ensures a + (b + c) == (a + b) + c
  {
  }

  ghost predicate ListsKeys<K(!new), V>(keys: seq<K>, m: map<K, V>) {
    Distinct(keys) && (forall k :: k in keys <==> k in m) && |keys| == |m|
  }

  /** The keys of a map, in some order. */
  method KeysOf<K(!new), V>(m: map<K, V>) returns (keys: seq<K>)
    ensures ListsKeys(keys, m)
  {
    keys := [];
    var left := m.Keys;
    while left != {}
      invariant left <= m.Keys && Distinct(keys) && |keys| + |left| == |m.Keys|
      invariant forall k :: k in keys <==> k in m && k !in left
    {
      var k :| k in left;
      keys := keys + [k];
      left := left - {k};
    }
  }
}
