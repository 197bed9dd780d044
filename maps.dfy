/**
 * Rebuilding a map under new keys and values, as the renaming, saving and
 * loading loops of the engines do.
 */
module Maps {

  /** `list(s)`: the members of a set in some order, each once. */
  method SeqOf<T(==,!new)>(s: set<T>) returns (r: seq<T>)
    ensures forall x :: x in r <==> x in s
    ensures forall i, j :: 0 <= i < j < |r| ==> r[i] != r[j]
  {
    r := [];
    var rest := s;
    while rest != {}
      invariant rest <= s
      invariant forall x :: x in r <==> x in s - rest
      invariant forall i, j :: 0 <= i < j < |r| ==> r[i] != r[j]
      decreases rest
    {
      var x :| x in rest;
      assert x !in r;
      var r' := r + [x];
      assert forall i :: 0 <= i < |r| ==> r'[i] == r[i] != x;
      r, rest := r', rest - {x};
    }
  }

  /**
   * `r` is built from the entries of `t` whose keys are in `dom` and pass
   * `keep`: each such entry is written under `key(k)` with value `val(t[k])`,
   * and when two entries land on the same key one of them wins.
   */
  ghost predicate ReindexedOn<K(!new), K2(!new), V, V2>(t: map<K, V>, dom: set<K>, keep: K -> bool,
                                                        key: K -> K2, val: V -> V2, r: map<K2, V2>)
  {
    && dom <= t.Keys
    && (forall j :: j in r <==> exists k :: k in dom && keep(k) && key(k) == j)
    && (forall j :: j in r ==> exists k :: k in dom && keep(k) && key(k) == j && r[j] == val(t[k]))
  }

  /** Writing one more entry keeps the map a reindexing of the entries seen so far. */
  lemma ReindexStep<K(!new), K2(!new), V, V2>(t: map<K, V>, dom: set<K>, keep: K -> bool,
                                              key: K -> K2, val: V -> V2, r: map<K2, V2>, k: K)
    requires ReindexedOn(t, dom, keep, key, val, r) && k in t
    ensures ReindexedOn(t, dom + {k}, keep, key, val, if keep(k) then r[key(k) := val(t[k])] else r)
  {
    var r' := if keep(k) then r[key(k) := val(t[k])] else r;
    forall j | j in r'
      ensures exists k' :: k' in dom + {k} && keep(k') && key(k') == j && r'[j] == val(t[k'])
    {
      if keep(k) && j == key(k) {
        assert k in dom + {k};
      } else {
        var k' :| k' in dom && keep(k') && key(k') == j && r[j] == val(t[k']);
        assert k' in dom + {k};
      }
    }
  }

  /** When no two kept keys of `t` collide, every kept entry survives the reindexing. */
  lemma ReindexedKeeps<K(!new), K2(!new), V, V2>(t: map<K, V>, keep: K -> bool,
                                                 key: K -> K2, val: V -> V2, r: map<K2, V2>, k: K)
    requires ReindexedOn(t, t.Keys, keep, key, val, r) && k in t && keep(k)
    requires forall k1, k2 :: k1 in t && k2 in t && keep(k1) && keep(k2) && key(k1) == key(k2) ==> k1 == k2
    ensures key(k) in r && r[key(k)] == val(t[k])
  {
    assert k in t.Keys;
  }

  /** No two kept keys of `t` land on the same new key. */
  ghost predicate Apart<K(!new), K2, V>(t: map<K, V>, keep: K -> bool, key: K -> K2)
  {
    forall k1, k2 :: k1 in t && k2 in t && keep(k1) && keep(k2) && key(k1) == key(k2) ==> k1 == k2
  }

  /** When no two kept keys of `t` collide, the reindexing is determined: any two are equal. */
  lemma ReindexedUnique<K(!new), K2(!new), V, V2>(t: map<K, V>, keep: K -> bool,
                                                  key: K -> K2, val: V -> V2, r: map<K2, V2>, r': map<K2, V2>)
    requires ReindexedOn(t, t.Keys, keep, key, val, r) && ReindexedOn(t, t.Keys, keep, key, val, r')
    requires Apart(t, keep, key)
    ensures r == r'
  {
    forall j | j in r
      ensures j in r' && r[j] == r'[j]
    {
      var k :| k in t.Keys && keep(k) && key(k) == j && r[j] == val(t[k]);
      var k' :| k' in t.Keys && keep(k') && key(k') == j && r'[j] == val(t[k']);
    }
  }

  /**
   * The loops that rebuild a map under new keys (renaming, saving, loading):
   * visit every entry once, and write the kept ones under their new key.
   */
  method Reindex<K(==,!new), K2(==,!new), V(!new), V2(!new)>(t: map<K, V>, keep: K -> bool, key: K -> K2, val: V -> V2)
    returns (r: map<K2, V2>)
    ensures ReindexedOn(t, t.Keys, keep, key, val, r)
  {
    r := map[];
    var done: set<K> := {};
    var todo := t.Keys;
    while todo != {}
      invariant todo == t.Keys - done
      invariant ReindexedOn(t, done, keep, key, val, r)
      decreases todo
    {
      var k :| k in todo;
      ReindexStep(t, done, keep, key, val, r, k);
      if keep(k) {
        r := r[key(k) := val(t[k])];
      }
      done := done + {k};
      todo := todo - {k};
    }
  }

  /** Keep every entry. */
  function Always<K>(): K -> bool
  {
    _ => true
  }

  /** Values unchanged. */
  function Same<V>(): V -> V
  {
    v => v
  }
}
