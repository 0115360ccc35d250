// KeyToListMap: a multimap from keys to the list of values added under
// them, keys enumerated in the order they were first added.
module KeyToListMaps {
  import opened Errors

  /** The values of `m` under `k`, or none. */
  function ListOf<K, V>(m: map<K, seq<V>>, k: K): seq<V> {
    if k in m then m[k] else []
  }

  /** The lists of the keys `ks`, one after the other. */
  function Concat<K, V>(ks: seq<K>, m: map<K, seq<V>>): seq<V> {
    if |ks| == 0 then [] else Concat(ks[..|ks| - 1], m) + ListOf(m, ks[|ks| - 1])
  }

  /** Every value listed under a key of `ks` is among the concatenated values. */
  lemma {:induction false} ConcatContains<K, V>(ks: seq<K>, m: map<K, seq<V>>, i: nat, v: V)
    requires i < |ks| && v in ListOf(m, ks[i])
    ensures v in Concat(ks, m)
  {
    var n := |ks| - 1;
    if i < n {
      assert ks[..n][i] == ks[i];
      ConcatContains(ks[..n], m, i, v);
    }
  }

  /** Every concatenated value is listed under some key of `ks`. */
  lemma {:induction false} ConcatOrigin<K, V>(ks: seq<K>, m: map<K, seq<V>>, v: V) returns (i: nat)
    requires v in Concat(ks, m)
    ensures i < |ks| && v in ListOf(m, ks[i])
  {
    var n := |ks| - 1;
    if v in ListOf(m, ks[n]) {
      i := n;
    } else {
      i := ConcatOrigin(ks[..n], m, v);
      assert ks[..n][i] == ks[i];
    }
  }

  /** The number of values is the sum of the list lengths, key by key. */
  function TotalLength<K, V>(ks: seq<K>, m: map<K, seq<V>>): nat {
    if |ks| == 0 then 0 else TotalLength(ks[..|ks| - 1], m) + |ListOf(m, ks[|ks| - 1])|
  }

  lemma {:induction false} ConcatLength<K, V>(ks: seq<K>, m: map<K, seq<V>>)
    ensures |Concat(ks, m)| == TotalLength(ks, m)
  {
    if |ks| > 0 {
      ConcatLength(ks[..|ks| - 1], m);
    }
  }

  /** Keys compare with the comparer given at construction, modelled as
      equality of `K`; keys are values (the generator's keys are expression
      trees). */
  class KeyToListMap<K(==, !new), V> {
    /** The keys, in the order they were first added. */
    var keys: seq<K>
    var lists: map<K, seq<V>>

    ghost predicate Valid()
      reads this
    {
      (forall k :: k in lists <==> k in keys) &&
      (forall i, j :: 0 <= i < j < |keys| ==> keys[i] != keys[j])
    }

    constructor ()
      ensures Valid() && keys == [] && lists == map[]
    {
      keys := [];
      lists := map[];
    }

    /** Appends `value` to the list of `key`, creating the list (and
        enumerating the key last) on its first use. */
    method Add(key: K, value: V)
      requires Valid()
      modifies this
      ensures Valid()
      ensures lists == old(lists)[key := ListOf(old(lists), key) + [value]]
      ensures keys == if key in old(lists) then old(keys) else old(keys) + [key]
    {
      if key !in lists {
        keys := keys + [key];
        lists := lists[key := []];
      }
      lists := lists[key := lists[key] + [value]];
    }

    /** Adds the values one by one, in order, under `key`. */
    method AddRange(key: K, values: seq<V>)
      requires Valid()
      modifies this
      ensures Valid()
      ensures |values| == 0 ==> lists == old(lists) && keys == old(keys)
      ensures |values| > 0 ==> lists == old(lists)[key := ListOf(old(lists), key) + values]
      ensures |values| > 0 ==> keys == if key in old(lists) then old(keys) else old(keys) + [key]
    {
      var i := 0;
      while i < |values|
        invariant 0 <= i <= |values| && Valid()
        invariant i == 0 ==> lists == old(lists) && keys == old(keys)
        invariant i > 0 ==> lists == old(lists)[key := ListOf(old(lists), key) + values[..i]]
        invariant i > 0 ==> keys == if key in old(lists) then old(keys) else old(keys) + [key]
      {
        ghost var before := ListOf(lists, key);
        Add(key, values[i]);
        assert values[..i + 1] == values[..i] + [values[i]];
        assert i == 0 ==> values[..i + 1] == [values[i]] && before == ListOf(old(lists), key);
        assert i > 0 ==> before == ListOf(old(lists), key) + values[..i];
        assert lists[key] == ListOf(old(lists), key) + values[..i + 1];
        i := i + 1;
      }
      assert values[..i] == values;
    }

    /** ContainsKey: the key has a list. */
    function ContainsKey(key: K): (r: bool)
      requires Valid()
      reads this
      ensures r <==> key in keys
    {
      key in lists
    }

    /** EnumerateValues: the key's values, or none for an absent key. */
    function EnumerateValues(key: K): (r: seq<V>)
      requires Valid()
      reads this
      ensures key !in keys ==> r == []
      ensures key in keys ==> r == lists[key]
    {
      if key in lists then lists[key] else []
    }

    /** ListForKey: the key's values; an absent key is a KeyNotFoundException. */
    function ListForKey(key: K): (r: Result<seq<V>>)
      requires Valid()
      reads this
      ensures r.Fail? <==> key !in keys
      ensures r.Fail? ==> r.error == KeyNotFound
      ensures r.Ok? ==> r.value == lists[key]
    {
      if key in lists then Ok(lists[key]) else Fail(KeyNotFound)
    }

    /** TryGetListForKey: false (None) for an absent key. */
    function TryGetListForKey(key: K): (r: Option<seq<V>>)
      requires Valid()
      reads this
      ensures r.None? <==> key !in keys
      ensures r.Some? ==> ListForKey(key) == Ok(r.value)
    {
      if key in lists then Some(lists[key]) else None
    }

    /** Drops every value of `key`; the result says whether it had any. */
    method RemoveKey(key: K) returns (existed: bool)
      requires Valid()
      modifies this
      ensures Valid()
      ensures existed <==> key in old(keys)
      ensures lists == old(lists) - {key}
      ensures forall k :: k in keys <==> k in old(keys) && k != key
      ensures existed ==> exists i :: 0 <= i < |old(keys)| && old(keys)[i] == key &&
                                     keys == old(keys)[..i] + old(keys)[i + 1..]
      ensures !existed ==> keys == old(keys)
    {
      existed := key in lists;
      if existed {
        var i :| 0 <= i < |keys| && keys[i] == key;
        RemoveAtKeeps(keys, i);
        keys := keys[..i] + keys[i + 1..];
        lists := lists - {key};
      }
    }

    /** AllValues: the lists of all keys, key after key. */
    method AllValues() returns (r: seq<V>)
      requires Valid()
      ensures r == Concat(keys, lists)
    {
      r := [];
      var i := 0;
      while i < |keys|
        invariant 0 <= i <= |keys|
        invariant r == Concat(keys[..i], lists)
      {
        var values := lists[keys[i]];
        var j := 0;
        while j < |values|
          invariant 0 <= j <= |values|
          invariant r == Concat(keys[..i], lists) + values[..j]
        {
          r := r + [values[j]];
          assert values[..j + 1] == values[..j] + [values[j]];
          j := j + 1;
        }
        assert values[..j] == values;
        assert keys[..i + 1][..i] == keys[..i];
        i := i + 1;
      }
      assert keys[..i] == keys;
    }
  }

  /** Dropping the i-th of distinct keys keeps the others, in their order,
      and keeps them distinct. */
  lemma RemoveAtKeeps<K>(keys: seq<K>, i: nat)
    requires i < |keys| && forall a, b :: 0 <= a < b < |keys| ==> keys[a] != keys[b]
    ensures var rest := keys[..i] + keys[i + 1..];
            (forall k :: k in rest <==> k in keys && k != keys[i]) &&
            (forall a, b :: 0 <= a < b < |rest| ==> rest[a] != rest[b])
  {
    var rest := keys[..i] + keys[i + 1..];
    forall k | k in keys && k != keys[i]
      ensures k in rest
    {
      var j :| 0 <= j < |keys| && keys[j] == k;
      if j < i { assert rest[j] == k; } else { assert rest[j - 1] == k; }
    }
    forall a, b | 0 <= a < b < |rest|
      ensures rest[a] != rest[b]
    {
      var a' := if a < i then a else a + 1;
      var b' := if b < i then b else b + 1;
      assert rest[a] == keys[a'] && rest[b] == keys[b'];
    }
  }
}
