/** Sequences read as bags: flat maps over them, and what survives a reordering. */
module Bags {
  function FlatMap<T, U>(s: seq<T>, f: T -> seq<U>): seq<U> {
    if s == [] then [] else FlatMap(s[..|s| - 1], f) + f(s[|s| - 1])
  }

  function Single<T, K>(key: T -> K): T -> seq<K> { x => [key(x)] }

  /** The bag of the elements' keys. */
  function Keys<T, K>(s: seq<T>, key: T -> K): multiset<K> { multiset(FlatMap(s, Single(key))) }

  lemma FlatMapStep<T, U>(s: seq<T>, i: nat, f: T -> seq<U>)
    requires i < |s|
    ensures FlatMap(s[..i + 1], f) == FlatMap(s[..i], f) + f(s[i])
  {
    assert s[..i + 1][..i] == s[..i];
  }

  lemma {:induction false} FlatMapMember<T, U>(s: seq<T>, f: T -> seq<U>, y: U)
    ensures y in FlatMap(s, f) <==> exists x :: x in s && y in f(x)
  {
    if s != [] {
      var rest, last := s[..|s| - 1], s[|s| - 1];
      FlatMapMember(rest, f, y);
      assert s == rest + [last];
    }
  }

  lemma FlatMapLast<T, U>(s: seq<T>, x: T, f: T -> seq<U>)
    ensures FlatMap(s + [x], f) == FlatMap(s, f) + f(x)
  {
    assert (s + [x])[..|s|] == s;
  }

  lemma Grouped<U>(x: seq<U>, y: seq<U>, z: seq<U>)
    ensures x + (y + z) == x + y + z
  {
  }

  lemma {:induction false} FlatMapConcat<T, U>(a: seq<T>, b: seq<T>, f: T -> seq<U>)
    ensures FlatMap(a + b, f) == FlatMap(a, f) + FlatMap(b, f)
  {
    if b == [] {
      assert a + b == a;
    } else {
      var init, last := b[..|b| - 1], b[|b| - 1];
      FlatMapConcat(a, init, f);
      FlatMapLast(a + init, last, f);
      Grouped(a, init, [last]);
      assert b == init + [last];
      Grouped(FlatMap(a, f), FlatMap(init, f), f(last));
    }
  }

  lemma OneFlat<T, U>(x: T, f: T -> seq<U>)
    ensures FlatMap([x], f) == f(x) && FlatMap([], f) == []
  {
    FlatMapLast([], x, f);
    assert [] + [x] == [x];
  }

  lemma BagSwap<U>(a: seq<U>, b: seq<U>, y: seq<U>, z: seq<U>)
    requires multiset(a) == multiset(b) + multiset(y)
    ensures multiset(a + z) == multiset(b + z) + multiset(y)
  {
  }

  lemma {:induction false} FlatMapWithout<T, U>(s: seq<T>, f: T -> seq<U>, j: nat)
    requires j < |s|
    ensures multiset(FlatMap(s, f)) == multiset(FlatMap(s[..j] + s[j + 1..], f)) + multiset(f(s[j]))
  {
    var n := |s| - 1;
    var init, last := s[..n], s[n];
    assert s == init + [last];
    FlatMapLast(init, last, f);
    if j == n {
      assert s[..j] + s[j + 1..] == init;
    } else {
      FlatMapWithout(init, f, j);
      var t := init[..j] + init[j + 1..];
      FlatMapLast(t, last, f);
      assert s[..j] + s[j + 1..] == t + [last];
      BagSwap(FlatMap(init, f), FlatMap(t, f), f(s[j]), f(last));
    }
  }

  lemma KeyIn<T, K>(s: seq<T>, key: T -> K, k: K)
    ensures k in Keys(s, key) <==> exists x :: x in s && key(x) == k
  {
    FlatMapMember(s, Single(key), k);
  }

  lemma {:induction false} SingleLength<T, K>(s: seq<T>, key: T -> K)
    ensures |FlatMap(s, Single(key))| == |s| == |Keys(s, key)|
  {
    if s != [] { SingleLength(s[..|s| - 1], key); }
  }

  lemma KeysWithout<T, K>(s: seq<T>, key: T -> K, j: nat)
    requires j < |s|
    ensures Keys(s, key) == Keys(s[..j] + s[j + 1..], key) + multiset{key(s[j])}
  {
    FlatMapWithout(s, Single(key), j);
  }

  /** A flat map whose pieces depend on an element's key alone gives the same bag for the same bag of keys. */
  lemma {:induction false} FlatMapBag<T, U, K>(s: seq<T>, t: seq<T>, f: T -> seq<U>, key: T -> K)
    requires Keys(s, key) == Keys(t, key)
    requires forall x, y :: x in s && y in t && key(x) == key(y) ==> multiset(f(x)) == multiset(f(y))
    ensures multiset(FlatMap(s, f)) == multiset(FlatMap(t, f))
    decreases |s|, 1
  {
    SingleLength(s, key);
    SingleLength(t, key);
    if s != [] {
      var n := |s| - 1;
      var k := key(s[n]);
      assert s[..n] + s[n + 1..] == s[..n];
      KeysWithout(s, key, n);
      KeyIn(t, key, k);
      var y :| y in t && key(y) == k;
      var j :| 0 <= j < |t| && t[j] == y;
      FlatMapBagStep(s, t, f, key, n, j);
    }
  }

  lemma CancelOne<K>(a: multiset<K>, b: multiset<K>, k: K)
    requires a + multiset{k} == b + multiset{k}
    ensures a == b
  {
    assert a == (a + multiset{k}) - multiset{k};
  }

  lemma FlatMapBagStep<T, U, K>(s: seq<T>, t: seq<T>, f: T -> seq<U>, key: T -> K, n: nat, j: nat)
    requires n + 1 == |s| && j < |t| && key(s[n]) == key(t[j])
    requires Keys(s, key) == Keys(t, key)
    requires forall x, y :: x in s && y in t && key(x) == key(y) ==> multiset(f(x)) == multiset(f(y))
    ensures multiset(FlatMap(s, f)) == multiset(FlatMap(t, f))
    decreases |s|, 0
  {
    var rest := t[..j] + t[j + 1..];
    assert s[..n] + s[n + 1..] == s[..n];
    KeysWithout(s, key, n);
    KeysWithout(t, key, j);
    CancelOne(Keys(s[..n], key), Keys(rest, key), key(t[j]));
    forall x, y | x in s[..n] && y in rest && key(x) == key(y) ensures multiset(f(x)) == multiset(f(y)) {
      assert x in s && y in t;
    }
    FlatMapBag(s[..n], rest, f, key);
    FlatMapWithout(t, f, j);
  }

  function Identity<T>(): T -> T { x => x }

  lemma {:induction false} IdentityKeys<T>(s: seq<T>)
    ensures FlatMap(s, Single(Identity<T>())) == s
  {
    if s != [] { IdentityKeys(s[..|s| - 1]); }
  }

  /** The same for a plain reordering: the key is the element itself. */
  lemma FlatMapReordered<T, U>(s: seq<T>, t: seq<T>, f: T -> seq<U>)
    requires multiset(s) == multiset(t)
    ensures multiset(FlatMap(s, f)) == multiset(FlatMap(t, f))
    ensures |FlatMap(s, f)| == |FlatMap(t, f)|
  {
    IdentityKeys(s);
    IdentityKeys(t);
    FlatMapBag(s, t, f, Identity<T>());
    assert |FlatMap(s, f)| == |multiset(FlatMap(s, f))|;
  }
}
