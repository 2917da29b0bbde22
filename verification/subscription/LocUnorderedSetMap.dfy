/** A map from keys to sets of values that drops a key when its set runs empty. */
module LocUnorderedSetMap {

  /** The values of a key; a key that is not in the map has none. */
  ghost function Vals<K, V>(m: map<K, set<V>>, key: K): set<V> { if key in m then m[key] else {} }

  ghost predicate NoEmptySet<K, V>(m: map<K, set<V>>) { forall k :: k in m ==> m[k] != {} }

  /** vals added to every key of keys. */
  ghost function Added<K, V>(m: map<K, set<V>>, keys: set<K>, vals: set<V>): map<K, set<V>> {
    if vals == {} then m
    else map k | k in m.Keys + keys :: if k in keys then Vals(m, k) + vals else Vals(m, k)
  }

  /** vals taken out of every key of keys; keys left without values are gone. */
  ghost function Trimmed<K, V>(m: map<K, set<V>>, keys: set<K>, vals: set<V>): map<K, set<V>> {
    map k | k in m && (k in keys ==> m[k] - vals != {}) :: if k in keys then m[k] - vals else m[k]
  }

  /** All that Trimmed takes out. */
  ghost function Gone<K, V>(m: map<K, set<V>>, keys: set<K>, vals: set<V>): set<V> {
    set k, v | k in keys && k in m && v in m[k] && v in vals :: v
  }

  /** trimSet: what is left of fromSet, and what was in it of rVals. */
  method TrimSet<V(==)>(fromSet: set<V>, rVals: set<V>) returns (left: set<V>, gone: set<V>)
    ensures left == fromSet - rVals && gone == fromSet * rVals
  {
    left, gone := fromSet, {};
    var todo := rVals;
    while todo != {}
      invariant todo <= rVals
      invariant left == fromSet - (rVals - todo) && gone == fromSet * (rVals - todo)
    {
      var val :| val in todo;
      todo := todo - {val};
      if val in left {
        left := left - {val};
        gone := gone + {val};
      }
    }
  }

  class LocUnorderedSetMap<K(==), V(==)> {
    var mMap: map<K, set<V>>

    constructor ()
      ensures mMap == map[]
    {
      mMap := map[];
    }

    predicate Empty()
      reads this
    {
      mMap == map[]
    }

    method GetValSet(key: K) returns (vals: set<V>)
      ensures vals == Vals(mMap, key)
    {
      vals := if key in mMap then mMap[key] else {};
    }

    method GetKeys() returns (keys: set<K>)
      ensures keys == mMap.Keys
    {
      keys := {};
      var todo := mMap.Keys;
      while todo != {}
        invariant todo <= mMap.Keys && keys == mMap.Keys - todo
      {
        var key :| key in todo;
        todo, keys := todo - {key}, keys + {key};
      }
    }

    method Remove(key: K) returns (removed: bool)
      modifies this
      ensures mMap == old(mMap) - {key} && (removed <==> key in old(mMap))
    {
      removed := key in mMap;
      mMap := mMap - {key};
    }

    /** The private trimOrRemove, on the entry of one key. */
    method TrimOrRemoveEntry(key: K, rVals: set<V>) returns (removeEntry: bool, gone: set<V>)
      requires key in mMap
      modifies this
      ensures mMap == Trimmed(old(mMap), {key}, rVals)
      ensures removeEntry <==> key !in mMap
      ensures gone == old(mMap)[key] * rVals
    {
      var left;
      left, gone := TrimSet(mMap[key], rVals);
      removeEntry := left == {};
      mMap := if removeEntry then mMap - {key} else mMap[key := left];
    }

    method TrimOrRemove(keys: set<K>, rVals: set<V>) returns (goneKeys: set<K>, goneVals: set<V>)
      modifies this
      ensures mMap == Trimmed(old(mMap), keys, rVals)
      ensures goneKeys == old(mMap).Keys - mMap.Keys
      ensures goneVals == Gone(old(mMap), keys, rVals)
    {
      goneKeys, goneVals := {}, {};
      var todo := keys;
      while todo != {}
        invariant todo <= keys
        invariant mMap == Trimmed(old(mMap), keys - todo, rVals)
        invariant goneKeys == old(mMap).Keys - mMap.Keys
        invariant goneVals == Gone(old(mMap), keys - todo, rVals)
      {
        var key :| key in todo;
        ghost var done := keys - todo;
        todo := todo - {key};
        assert keys - todo == done + {key};
        if key in mMap {
          var removed, gone := TrimOrRemoveEntry(key, rVals);
          goneVals := goneVals + gone;
          if removed {
            goneKeys := goneKeys + {key};
          }
        }
      }
      assert keys - todo == keys;
    }

    /** add of one key: true if the key is new to the map. */
    method AddEntry(key: K, newVals: set<V>) returns (newEntryAdded: bool)
      modifies this
      ensures mMap == Added(old(mMap), {key}, newVals)
      ensures newEntryAdded <==> newVals != {} && key !in old(mMap)
    {
      newEntryAdded := false;
      if newVals != {} {
        if key in mMap {
          mMap := mMap[key := mMap[key] + newVals];
        } else {
          mMap := mMap[key := newVals];
          assert Vals(old(mMap), key) + newVals == newVals;
          newEntryAdded := true;
        }
      }
    }

    method Add(keys: set<K>, newVals: set<V>) returns (newKeys: set<K>)
      modifies this
      ensures mMap == Added(old(mMap), keys, newVals)
      ensures newKeys == mMap.Keys - old(mMap).Keys
    {
      newKeys := {};
      var todo := keys;
      while todo != {}
        invariant todo <= keys
        invariant mMap == Added(old(mMap), keys - todo, newVals)
        invariant newKeys == mMap.Keys - old(mMap).Keys
      {
        var key :| key in todo;
        ghost var done := keys - todo;
        todo := todo - {key};
        assert keys - todo == done + {key};
        var added := AddEntry(key, newVals);
        if added {
          newKeys := newKeys + {key};
        }
      }
      assert keys - todo == keys;
    }
  }

  // ---------------------------------------------------------------- two maps, inverse to each other

  ghost predicate Inverse<K(!new), V(!new)>(a: map<K, set<V>>, b: map<V, set<K>>) {
    forall k, v :: v in Vals(a, k) <==> k in Vals(b, v)
  }

  ghost predicate Paired<K(!new), V(!new)>(a: map<K, set<V>>, b: map<V, set<K>>) {
    NoEmptySet(a) && NoEmptySet(b) && Inverse(a, b)
  }

  lemma AddKeepsPairing<K(!new), V(!new)>(a: map<K, set<V>>, b: map<V, set<K>>, key: K, vals: set<V>)
    requires Paired(a, b)
    ensures Paired(Added(a, {key}, vals), Added(b, vals, {key}))
  {
    var a', b' := Added(a, {key}, vals), Added(b, vals, {key});
    forall k, v ensures v in Vals(a', k) <==> k in Vals(b', v) {
      assert v in Vals(a, k) <==> k in Vals(b, v);
      AfterAdd(a, {key}, vals, k, v);
      AfterAdd(b, vals, {key}, v, k);
    }
  }

  lemma AfterTrim<K, V>(m: map<K, set<V>>, keys: set<K>, vals: set<V>, k: K, v: V)
    requires NoEmptySet(m)
    ensures NoEmptySet(Trimmed(m, keys, vals))
    ensures v in Vals(Trimmed(m, keys, vals), k) <==> v in Vals(m, k) && !(k in keys && v in vals)
  {
    if v in Vals(m, k) && !(k in keys && v in vals) && k in keys {
      assert v in m[k] - vals;
    }
  }

  /** What a trim reports as lost is what some key has no longer. */
  lemma GoneIsLost<K, V>(m: map<K, set<V>>, keys: set<K>, vals: set<V>, v: V)
    ensures v in Gone(m, keys, vals) <==>
      exists k :: k in keys && v in Vals(m, k) && v !in Vals(Trimmed(m, keys, vals), k)
  {
    if v in Gone(m, keys, vals) {
      var k :| k in keys && k in m && v in m[k] && v in vals;
      assert v in Vals(m, k) && v !in Vals(Trimmed(m, keys, vals), k);
    }
  }

  lemma AfterAdd<K, V>(m: map<K, set<V>>, keys: set<K>, vals: set<V>, k: K, v: V)
    ensures v in Vals(Added(m, keys, vals), k) <==> v in Vals(m, k) || (k in keys && v in vals)
  {
  }

  /** Trim one key, then take that key out of exactly the values it lost. */
  lemma TrimKeepsPairing<K(!new), V(!new)>(a: map<K, set<V>>, b: map<V, set<K>>, key: K, vals: set<V>)
    requires Paired(a, b)
    ensures Paired(Trimmed(a, {key}, vals), Trimmed(b, Gone(a, {key}, vals), {key}))
  {
    var gone := Gone(a, {key}, vals);
    forall k, v ensures v in Vals(Trimmed(a, {key}, vals), k) <==> k in Vals(Trimmed(b, gone, {key}), v) {
      assert v in Vals(a, k) <==> k in Vals(b, v);
      assert v in gone <==> v in Vals(a, key) && v in vals;
      AfterTrim(a, {key}, vals, k, v);
      AfterTrim(b, gone, {key}, v, k);
    }
  }

  lemma RemoveKeepsPairing<K(!new), V(!new)>(a: map<K, set<V>>, b: map<V, set<K>>, key: K)
    requires Paired(a, b)
    ensures Paired(a - {key}, Trimmed(b, Vals(a, key), {key}))
  {
    forall k, v ensures v in Vals(a - {key}, k) <==> k in Vals(Trimmed(b, Vals(a, key), {key}), v) {
      assert v in Vals(a, k) <==> k in Vals(b, v);
      AfterTrim(b, Vals(a, key), {key}, v, k);
    }
  }
}
