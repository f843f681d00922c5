/** A map for keys a client chooses: past its size the key set longest ago is dropped. */
module BoundedMap {
  import opened Options

  /** The map's entries in the order their keys were last set. */
  type Slots<K, V> = seq<(K, V)>

  function Filter<T>(s: seq<T>, keep: T -> bool): seq<T> {
    if s == [] then [] else Filter(s[..|s| - 1], keep) + if keep(s[|s| - 1]) then [s[|s| - 1]] else []
  }

  lemma FilterStep<T>(s: seq<T>, i: nat, keep: T -> bool)
    requires i < |s|
    ensures Filter(s[..i + 1], keep) == Filter(s[..i], keep) + if keep(s[i]) then [s[i]] else []
  {
    assert s[..i + 1][..i] == s[..i];
  }

  lemma {:induction false} FilterMember<T>(s: seq<T>, keep: T -> bool)
    ensures forall x :: x in Filter(s, keep) <==> x in s && keep(x)
    ensures |Filter(s, keep)| <= |s|
    ensures |Filter(s, keep)| == |s| <==> forall x :: x in s ==> keep(x)
  {
    if s != [] {
      var n := |s| - 1;
      FilterMember(s[..n], keep);
      assert forall x :: x in s <==> x == s[n] || x in s[..n];
    }
  }

  ghost predicate Pairwise<T(!new)>(s: seq<T>, r: (T, T) -> bool) {
    forall i, j :: 0 <= i < j < |s| ==> r(s[i], s[j])
  }

  /** A pairwise property of a sequence holds of what is kept of it. */
  lemma {:induction false} FilterPairwise<T(!new)>(s: seq<T>, keep: T -> bool, r: (T, T) -> bool)
    requires Pairwise(s, r)
    ensures Pairwise(Filter(s, keep), r)
  {
    if s != [] {
      var n := |s| - 1;
      var rest := s[..n];
      FilterPairwise(rest, keep, r);
      FilterMember(rest, keep);
      forall j | 0 <= j < |Filter(rest, keep)| ensures r(Filter(rest, keep)[j], s[n]) {
        assert Filter(rest, keep)[j] in rest;
      }
    }
  }

  function OtherKey<K(==), V>(key: K): ((K, V)) -> bool { (s: (K, V)) => s.0 != key }

  function Without<K(==), V>(slots: Slots<K, V>, key: K): Slots<K, V> {
    Filter<(K, V)>(slots, OtherKey(key))
  }

  function Find<K(==), V>(slots: Slots<K, V>, key: K): Option<V> {
    if slots == [] then None
    else if slots[0].0 == key then Some(slots[0].1)
    else Find(slots[1..], key)
  }

  /** The value under a key changed where it is; the key keeps its place. */
  function Replaced<K(==), V>(slots: Slots<K, V>, key: K, value: V): Slots<K, V> {
    if slots == [] then []
    else [if slots[0].0 == key then (key, value) else slots[0]] + Replaced(slots[1..], key, value)
  }

  /** The newest `max` entries. */
  function Newest<K, V>(slots: Slots<K, V>, max: int): Slots<K, V> {
    if |slots| <= max then slots else if max <= 0 then [] else slots[|slots| - max..]
  }

  /** `set`: the key moves to the end, and what no longer fits is dropped from the front. */
  function Put<K(==), V>(slots: Slots<K, V>, key: K, value: V, max: int): Slots<K, V> {
    Newest(Without(slots, key) + [(key, value)], max)
  }

  ghost predicate DistinctKeys<K, V>(slots: Slots<K, V>) {
    forall i, j :: 0 <= i < j < |slots| ==> slots[i].0 != slots[j].0
  }

  lemma {:induction false} FindIsMember<K, V>(slots: Slots<K, V>, key: K)
    requires DistinctKeys(slots)
    ensures Find(slots, key).None? <==> forall s :: s in slots ==> s.0 != key
    ensures forall v :: Find(slots, key) == Some(v) <==> (key, v) in slots
  {
    if slots != [] {
      var rest := slots[1..];
      assert forall i :: 0 <= i < |rest| ==> rest[i] == slots[i + 1];
      FindIsMember(rest, key);
      assert forall s :: s in slots <==> s == slots[0] || s in rest;
    }
  }

  lemma {:induction false} ReplacedAt<K, V>(slots: Slots<K, V>, key: K, value: V)
    ensures |Replaced(slots, key, value)| == |slots|
    ensures forall i :: 0 <= i < |slots| ==>
              Replaced(slots, key, value)[i] == if slots[i].0 == key then (key, value) else slots[i]
  {
    if slots != [] { ReplacedAt(slots[1..], key, value); }
  }

  lemma WithoutIsRest<K(!new), V(!new)>(slots: Slots<K, V>, key: K)
    requires DistinctKeys(slots)
    ensures DistinctKeys(Without(slots, key))
    ensures forall s :: s in Without(slots, key) <==> s in slots && s.0 != key
  {
    KeepsDistinct(slots, OtherKey(key));
    FilterMember(slots, OtherKey(key));
  }

  lemma KeepsDistinct<K(!new), V(!new)>(slots: Slots<K, V>, keep: ((K, V)) -> bool)
    requires DistinctKeys(slots)
    ensures DistinctKeys(Filter(slots, keep))
  {
    var distinct := (a: (K, V), b: (K, V)) => a.0 != b.0;
    FilterPairwise(slots, keep, distinct);
    var rest := Filter(slots, keep);
    assert forall i, j :: 0 <= i < j < |rest| ==> distinct(rest[i], rest[j]);
  }

  class BoundedMap<K(==, !new), V(!new)> {
    const maxKeys: int
    var entries: Slots<K, V>

    ghost predicate Valid()
      reads this
    {
      DistinctKeys(entries)
    }

    constructor (maxKeys: int)
      ensures Valid() && entries == [] && this.maxKeys == maxKeys
    {
      this.maxKeys := maxKeys;
      entries := [];
    }

    function Get(key: K): Option<V>
      reads this
    {
      Find(entries, key)
    }

    method Delete(key: K)
      requires Valid()
      modifies this
      ensures Valid() && entries == Without(old(entries), key)
    {
      WithoutIsRest(entries, key);
      entries := Without(entries, key);
    }

    /** Goes through the entries in order, deleting each that `keep` refuses. */
    method DeleteRefused(keep: ((K, V)) -> bool)
      requires Valid()
      modifies this
      ensures Valid() && entries == Filter(old(entries), keep)
    {
      ghost var k, all := 0, entries;
      var i := 0;
      while i < |entries|
        invariant k <= |all| && i <= |entries|
        invariant entries[..i] == Filter(all[..k], keep) && entries[i..] == all[k..]
        decreases |all| - k
      {
        FilterStep(all, k, keep);
        assert entries[i] == all[k];
        ghost var done, rest := entries[..i], entries[i + 1..];
        if keep(entries[i]) {
          assert entries[..i + 1] == done + [entries[i]];
          i := i + 1;
        } else {
          entries := entries[..i] + entries[i + 1..];
          assert entries[..i] == done && entries[i..] == rest;
        }
        k := k + 1;
      }
      assert entries[..i] == entries && all[..k] == all;
      KeepsDistinct(all, keep);
    }

    /** Writes to the value object held under `key`, which stays where it is in the order. */
    method Update(key: K, value: V)
      requires Valid()
      modifies this
      ensures Valid() && entries == Replaced(old(entries), key, value)
    {
      ReplacedAt(entries, key, value);
      entries := Replaced(entries, key, value);
    }

    /** Sets `key` last; `evicted` are the values handed to `onEvict`, oldest first. */
    method Set(key: K, value: V) returns (evicted: seq<V>)
      requires Valid()
      modifies this
      ensures Valid() && entries == Put(old(entries), key, value, maxKeys)
      ensures |evicted| == |Without(old(entries), key)| + 1 - |entries|
      ensures forall i :: 0 <= i < |evicted| ==> evicted[i] == (Without(old(entries), key) + [(key, value)])[i].1
    {
      WithoutIsRest(entries, key);
      entries := Without(entries, key) + [(key, value)];
      evicted := [];
      ghost var all := entries;
      while |entries| > maxKeys
        invariant |evicted| <= |all| && entries == all[|evicted|..]
        invariant evicted != [] ==> |entries| >= maxKeys
        invariant forall i :: 0 <= i < |evicted| ==> evicted[i] == all[i].1
        decreases |entries|
      {
        if entries == [] { break; }
        evicted := evicted + [entries[0].1];
        entries := entries[1..];
      }
    }
  }

  /** The map never holds more than it may, and the key just set is held unless nothing may be. */
  lemma PutIsBounded<K(!new), V(!new)>(slots: Slots<K, V>, key: K, value: V, max: int)
    requires DistinctKeys(slots)
    ensures var after := Put(slots, key, value, max);
            && DistinctKeys(after)
            && (max >= 1 ==> |after| <= max && Find(after, key) == Some(value))
            && (max < 1 ==> after == [])
            && (forall s :: s in after ==> s == (key, value) || s in Without(slots, key))
            && (|slots| < max || (|slots| <= max && Find(slots, key).Some?) ==> forall s :: s in Without(slots, key) ==> s in after)
  {
    WithoutIsRest(slots, key);
    var rest := Without(slots, key);
    var all := rest + [(key, value)];
    FilterMember(slots, OtherKey(key));
    if Find(slots, key).Some? {
      FindIsMember(slots, key);
      assert (key, Find(slots, key).value) in slots;
    }
    NewestKeeps(rest, key, value, max);
  }

  lemma NewestKeeps<K(!new), V(!new)>(rest: Slots<K, V>, key: K, value: V, max: int)
    requires DistinctKeys(rest) && forall s :: s in rest ==> s.0 != key
    ensures var after := Newest(rest + [(key, value)], max);
            && DistinctKeys(after)
            && (max >= 1 ==> |after| <= max && Find(after, key) == Some(value))
            && (max < 1 ==> after == [])
            && (forall s :: s in after ==> s == (key, value) || s in rest)
            && (|rest| < max ==> forall s :: s in rest ==> s in after)
  {
    var after := Newest(rest + [(key, value)], max);
    if max >= 1 {
      assert after[|after| - 1] == (key, value);
      FindIsMember(after, key);
    }
  }
}
