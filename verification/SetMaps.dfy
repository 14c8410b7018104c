/** Maps from keys to non-empty sets of values, as the code updates them. */
module SetMaps {

  function Get<K, V>(m: map<K, set<V>>, k: K): set<V> {
    if k in m then m[k] else {}
  }

  ghost predicate NoEmptyEntry<K, V>(m: map<K, set<V>>) {
    forall k :: k in m ==> m[k] != {}
  }

  /** The map after vals were removed from the entries of keys, and entries left empty with them. */
  function Trimmed<K, V>(m: map<K, set<V>>, keys: set<K>, vals: set<V>): map<K, set<V>> {
    map k | k in m && (k in keys ==> m[k] - vals != {}) :: if k in keys then m[k] - vals else m[k]
  }

  function AddedOne<K, V>(m: map<K, set<V>>, key: K, vals: set<V>): map<K, set<V>> {
    if vals == {} then m else m[key := Get(m, key) + vals]
  }

  function AddedAll<K, V>(m: map<K, set<V>>, keys: set<K>, vals: set<V>): map<K, set<V>> {
    if vals == {} then m else map k | k in m.Keys + keys :: if k in keys then Get(m, k) + vals else m[k]
  }

  /** All values the entries of keys hold. */
  function UnionOf<K, V>(m: map<K, set<V>>, keys: set<K>): set<V> {
    set k, v | k in keys && k in m && v in m[k] :: v
  }

  lemma UnionOneMore<K, V>(m: map<K, set<V>>, keys: set<K>, todo: set<K>, key: K)
    requires key in todo && todo <= keys
    ensures UnionOf(m, keys - (todo - {key})) == UnionOf(m, keys - todo) + Get(m, key)
  {
    assert keys - (todo - {key}) == keys - todo + {key};
  }

  /** The keys whose entries trimming removes. */
  function Emptied<K, V>(m: map<K, set<V>>, keys: set<K>, vals: set<V>): set<K> {
    set k | k in keys && k in m && m[k] <= vals
  }

  /** The values trimming takes out of some entry. */
  function Taken<K, V>(m: map<K, set<V>>, keys: set<K>, vals: set<V>): set<V> {
    set k, v | k in keys && k in m && v in m[k] && v in vals :: v
  }

  lemma NothingTrimmed<K, V>(m: map<K, set<V>>, keys: set<K>, vals: set<V>)
    requires keys == {}
    ensures Trimmed(m, keys, vals) == m && Emptied(m, keys, vals) == {} && Taken(m, keys, vals) == {}
  {
  }

  lemma TrimOneMore<K, V>(m: map<K, set<V>>, done: set<K>, key: K, vals: set<V>)
    requires key !in done
    ensures var t := Trimmed(m, done, vals);
      && (key in t <==> key in m) && (key in m ==> t[key] == m[key])
      && Trimmed(m, done + {key}, vals) ==
           if key !in m then t else if m[key] - vals == {} then t - {key} else t[key := m[key] - vals]
  {
  }

  lemma EmptyOneMore<K, V>(m: map<K, set<V>>, done: set<K>, key: K, vals: set<V>)
    ensures Emptied(m, done + {key}, vals) ==
      Emptied(m, done, vals) + if key in m && m[key] - vals == {} then {key} else {}
  {
    NothingLeft(Get(m, key), vals);
  }

  lemma NothingLeft<T>(a: set<T>, b: set<T>)
    ensures a - b == {} <==> a <= b
  {
    if a - b == {} {
      forall x | x in a
        ensures x in b
      {
        assert x !in a - b;
      }
    }
  }

  lemma TakeOneMore<K, V>(m: map<K, set<V>>, done: set<K>, key: K, vals: set<V>)
    ensures Taken(m, done + {key}, vals) == Taken(m, done, vals) + Get(m, key) * vals
  {
    forall v | v in Taken(m, done + {key}, vals)
      ensures v in Taken(m, done, vals) + Get(m, key) * vals
    {
      var k :| k in done + {key} && k in m && v in m[k] && v in vals;
    }
    forall v | v in Taken(m, done, vals) + Get(m, key) * vals
      ensures v in Taken(m, done + {key}, vals)
    {
      if v in Taken(m, done, vals) {
        var k :| k in done && k in m && v in m[k] && v in vals;
        assert k in done + {key};
      } else {
        assert key in done + {key} && key in m && v in m[key];
      }
    }
  }

  lemma AddOneMore<K, V>(m: map<K, set<V>>, keys: set<K>, todo: set<K>, key: K, vals: set<V>)
    requires key in todo && todo <= keys
    ensures key in AddedAll(m, keys - todo, vals) <==> key in m
    ensures AddedAll(m, keys - (todo - {key}), vals) == AddedOne(AddedAll(m, keys - todo, vals), key, vals)
  {
    assert keys - (todo - {key}) == (keys - todo) + {key};
  }

  class LocUnorderedSetMap<K(==), V(==)> {
    var mMap: map<K, set<V>>

    constructor ()
      ensures mMap == map[]
    {
      mMap := map[];
    }

    method GetValSet(key: K) returns (vals: set<V>)
      ensures vals == Get(mMap, key)
    {
      vals := if key in mMap then mMap[key] else {};
    }

    method Remove(key: K) returns (removed: bool)
      modifies this
      ensures mMap == old(mMap) - {key} && (removed <==> key in old(mMap))
    {
      removed := key in mMap;
      mMap := mMap - {key};
    }

    /** Removes rVals from the entry of key, and the entry if that empties it. */
    method TrimEntry(key: K, rVals: set<V>) returns (removed: bool, gone: set<V>)
      requires key in mMap
      modifies this
      ensures removed <==> old(mMap)[key] - rVals == {}
      ensures mMap == if removed then old(mMap) - {key} else old(mMap)[key := old(mMap)[key] - rVals]
      ensures gone == old(mMap)[key] * rVals
    {
      var left;
      left, gone := TrimSet(mMap[key], rVals);
      removed := left == {};
      mMap := if removed then mMap - {key} else mMap[key := left];
    }

    /** Removes rVals from the entries of keys. goneKeys are the entries that became empty
        and were removed, goneVals the values removed anywhere. */
    method TrimOrRemove(keys: set<K>, rVals: set<V>) returns (goneKeys: set<K>, goneVals: set<V>)
      modifies this
      ensures mMap == Trimmed(old(mMap), keys, rVals)
      ensures goneKeys == Emptied(old(mMap), keys, rVals)
      ensures goneVals == Taken(old(mMap), keys, rVals)
    {
      goneKeys, goneVals := {}, {};
      ghost var before := mMap;
      var todo := keys;
      NothingTrimmed(before, keys - todo, rVals);
      while todo != {}
        invariant todo <= keys
        invariant mMap == Trimmed(before, keys - todo, rVals)
        invariant goneKeys == Emptied(before, keys - todo, rVals)
        invariant goneVals == Taken(before, keys - todo, rVals)
        decreases |todo|
      {
        var key :| key in todo;
        TrimOneMore(before, keys - todo, key, rVals);
        EmptyOneMore(before, keys - todo, key, rVals);
        TakeOneMore(before, keys - todo, key, rVals);
        assert keys - (todo - {key}) == keys - todo + {key};
        if key in mMap {
          var removed, gone := TrimEntry(key, rVals);
          goneVals := goneVals + gone;
          if removed {
            goneKeys := goneKeys + {key};
          }
        }
        todo := todo - {key};
      }
      assert keys - todo == keys;
    }

    method Add(key: K, newVals: set<V>) returns (newEntryAdded: bool)
      modifies this
      ensures mMap == AddedOne(old(mMap), key, newVals)
      ensures newEntryAdded <==> newVals != {} && key !in old(mMap)
    {
      newEntryAdded := false;
      if newVals != {} {
        if key in mMap {
          mMap := mMap[key := mMap[key] + newVals];
        } else {
          mMap := mMap[key := newVals];
          newEntryAdded := true;
          assert {} + newVals == newVals;
        }
      }
    }

    method AddAll(keys: set<K>, newVals: set<V>) returns (newKeys: set<K>)
      modifies this
      ensures mMap == AddedAll(old(mMap), keys, newVals)
      ensures newKeys == if newVals == {} then {} else keys - old(mMap).Keys
    {
      newKeys := {};
      ghost var before := mMap;
      var todo := keys;
      assert AddedAll(before, keys - todo, newVals) == before;
      while todo != {}
        invariant todo <= keys
        invariant mMap == AddedAll(before, keys - todo, newVals)
        invariant forall k :: k in newKeys ==> k in keys
        invariant forall k :: k in keys ==> (k in newKeys <==> newVals != {} && k !in todo && k !in before)
        decreases |todo|
      {
        var key :| key in todo;
        AddOneMore(before, keys, todo, key, newVals);
        var added := Add(key, newVals);
        if added {
          newKeys := newKeys + {key};
        }
        todo := todo - {key};
      }
      assert keys - todo == keys;
    }

    /** Puts newVals into the map under key. gone is what the code returns as no longer
        used, and fresh what it leaves of newVals: the values the entry had and keeps, and
        the ones it did not have. */
    method Update(key: K, newVals: set<V>) returns (gone: set<V>, added: set<V>)
      modifies this
      ensures newVals == {} ==> mMap == old(mMap) - {key} && gone == {} && added == {}
      ensures newVals != {} ==>
        && mMap == old(mMap)[key := newVals]
        && gone == Get(old(mMap), key) * newVals && added == newVals - Get(old(mMap), key)
    {
      gone, added := {}, newVals;
      if newVals == {} {
        mMap := mMap - {key};
      } else {
        var curVals := if key in mMap then mMap[key] else {};
        mMap := mMap[key := newVals];
        gone, curVals, added := RemoveAndReturnInterset(curVals, newVals);
      }
    }
  }

  /** Trims the elements of rVals from fromSet; gone are those that were there. */
  method TrimSet<T(==)>(fromSet: set<T>, rVals: set<T>) returns (left: set<T>, gone: set<T>)
    ensures left == fromSet - rVals && gone == fromSet * rVals
  {
    left, gone := fromSet, {};
    var todo := rVals;
    while todo != {}
      invariant todo <= rVals
      invariant left == fromSet - (rVals - todo) && gone == fromSet * (rVals - todo)
      decreases |todo|
    {
      var val :| val in todo;
      if val in left {
        left, gone := left - {val}, gone + {val};
      }
      todo := todo - {val};
    }
  }

  /** Takes the common elements out of both sets and returns them. */
  method RemoveAndReturnInterset<T(==)>(s1: set<T>, s2: set<T>) returns (common: set<T>, rest1: set<T>, rest2: set<T>)
    ensures common == s1 * s2 && rest1 == s1 - s2 && rest2 == s2 - s1
  {
    common, rest1, rest2 := {}, s1, s2;
    var todo := s2;
    while todo != {}
      invariant todo <= s2
      invariant common == s1 * (s2 - todo) && rest1 == s1 - (s2 - todo) && rest2 == s2 - common
      decreases |todo|
    {
      var b :| b in todo;
      if b in rest1 {
        common, rest1, rest2 := common + {b}, rest1 - {b}, rest2 - {b};
      }
      todo := todo - {b};
    }
  }
}
