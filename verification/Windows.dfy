/**
 * Fixed windows per key: the limiters' bounded, lazily pruned entries against an unbounded counter
 * that never forgets. Times are the milliseconds a call was made at, never going back.
 */
module Windows {
  import opened BoundedMap
  import opened Options

  datatype Entry = Entry(count: int, startedAt: int)
  datatype Decision = Decision(allowed: bool, retryAfterSeconds: int)

  const ALLOWED := Decision(true, 0)

  /** Milliseconds as whole seconds, rounded up. */
  function CeilSeconds(ms: int): int { -((-ms) / 1000) }

  /** The least whole number of seconds that is not shorter than the time. */
  lemma CeilSecondsIsLeast(ms: int)
    ensures 1000 * CeilSeconds(ms) >= ms
    ensures forall seconds :: 1000 * seconds >= ms ==> CeilSeconds(ms) <= seconds
  {
  }

  predicate Live(entry: Entry, now: int, windowMs: int) { now - entry.startedAt < windowMs }

  type Counter = map<string, Entry>

  ghost function LiveKeys(counter: Counter, now: int, windowMs: int): set<string> {
    set k | k in counter && Live(counter[k], now, windowMs)
  }

  predicate InOrder(a: (string, Entry), b: (string, Entry)) { a.1.startedAt <= b.1.startedAt }

  /**
   * The bounded entries stand for the counter at `now`: they agree with it, lie in the order their
   * windows opened, and miss only keys whose window is over.
   */
  ghost predicate Follows(slots: Slots<string, Entry>, counter: Counter, now: int, windowMs: int) {
    && DistinctKeys(slots)
    && Pairwise(slots, InOrder)
    && (forall s :: s in slots ==> s.1.startedAt <= now && s.0 in counter && counter[s.0] == s.1)
    && (forall k :: k in counter && Live(counter[k], now, windowMs) ==> (k, counter[k]) in slots)
  }

  lemma FollowsLater(slots: Slots<string, Entry>, counter: Counter, now: int, later: int, windowMs: int)
    requires Follows(slots, counter, now, windowMs) && now <= later
    ensures Follows(slots, counter, later, windowMs)
  {
  }

  /** What the limiter finds under a key, once an ended window counts as nothing, is what the counter has. */
  lemma FoundIsLive(slots: Slots<string, Entry>, counter: Counter, now: int, windowMs: int, key: string)
    requires Follows(slots, counter, now, windowMs)
    ensures var found := Find(slots, key);
            && (found.Some? && Live(found.value, now, windowMs) <==> key in counter && Live(counter[key], now, windowMs))
            && (found.Some? ==> key in counter && found.value == counter[key])
  {
    FindIsMember(slots, key);
  }

  /** Forgetting entries whose windows are over changes nothing that is still to be seen. */
  lemma FollowsPruned(slots: Slots<string, Entry>, counter: Counter, now: int, windowMs: int, keep: ((string, Entry)) -> bool)
    requires Follows(slots, counter, now, windowMs)
    requires forall s :: s in slots && Live(s.1, now, windowMs) ==> keep(s)
    ensures Follows(Filter(slots, keep), counter, now, windowMs)
  {
    FilterMember(slots, keep);
    FilterPairwise(slots, keep, InOrder);
    KeepsDistinct(slots, keep);
  }

  /** Counting on inside a window. */
  lemma FollowsCounted(slots: Slots<string, Entry>, counter: Counter, now: int, windowMs: int, key: string, entry: Entry)
    requires Follows(slots, counter, now, windowMs)
    requires key in counter && Live(counter[key], now, windowMs) && entry.startedAt == counter[key].startedAt
    ensures Follows(Replaced(slots, key, entry), counter[key := entry], now, windowMs)
  {
    var after, counter' := Replaced(slots, key, entry), counter[key := entry];
    ReplacedAt(slots, key, entry);
    assert (key, counter[key]) in slots;
    forall k | k in counter' && Live(counter'[k], now, windowMs) ensures (k, counter'[k]) in after {
      var i :| 0 <= i < |slots| && slots[i] == (k, counter[k]);
      assert after[i] == (k, counter'[k]);
    }
  }

  ghost function KeySet(slots: Slots<string, Entry>): set<string> {
    if slots == [] then {} else KeySet(slots[..|slots| - 1]) + {slots[|slots| - 1].0}
  }

  lemma {:induction false} KeySetSize(slots: Slots<string, Entry>)
    requires DistinctKeys(slots)
    ensures |KeySet(slots)| == |slots|
    ensures forall k :: k in KeySet(slots) <==> exists s :: s in slots && s.0 == k
  {
    if slots != [] {
      var n := |slots| - 1;
      KeySetSize(slots[..n]);
      assert slots == slots[..n] + [slots[n]];
      assert slots[n].0 !in KeySet(slots[..n]);
    }
  }

  lemma SubsetSize<T>(a: set<T>, b: set<T>)
    requires a <= b
    ensures |a| <= |b|
  {
    assert b == a + (b - a);
  }

  /** Opening a window: the entries that no longer fit are the oldest, and with room for every live key they are over. */
  lemma FollowsOpened(slots: Slots<string, Entry>, counter: Counter, now: int, windowMs: int, key: string, max: int)
    requires Follows(slots, counter, now, windowMs) && windowMs > 0
    requires |LiveKeys(counter[key := Entry(1, now)], now, windowMs)| <= max
    ensures Follows(Put(slots, key, Entry(1, now), max), counter[key := Entry(1, now)], now, windowMs)
  {
    var entry := Entry(1, now);
    var counter' := counter[key := entry];
    var all := Without(slots, key) + [(key, entry)];
    WithoutIsRest(slots, key);
    FilterPairwise(slots, OtherKey(key), InOrder);
    assert Follows(all, counter', now, windowMs) by {
      assert forall s :: s in all <==> s in Without(slots, key) || s == (key, entry);
      assert Pairwise(all, InOrder);
    }
    FollowsNewest(all, counter', now, windowMs, max);
  }

  lemma FollowsNewest(all: Slots<string, Entry>, counter: Counter, now: int, windowMs: int, max: int)
    requires Follows(all, counter, now, windowMs)
    requires |LiveKeys(counter, now, windowMs)| <= max
    ensures Follows(Newest(all, max), counter, now, windowMs)
  {
    var after := Newest(all, max);
    var cut := |all| - |after|;
    assert after == all[cut..];
    forall k | k in counter && Live(counter[k], now, windowMs) ensures (k, counter[k]) in after {
      var i :| 0 <= i < |all| && all[i] == (k, counter[k]);
      if i < cut { TooManyLive(all, counter, now, windowMs, max, i); }
      assert after[i - cut] == all[i];
    }
  }

  /** If an entry past the newest `max` were live, all after it would be: more live keys than there are. */
  lemma TooManyLive(all: Slots<string, Entry>, counter: Counter, now: int, windowMs: int, max: int, i: nat)
    requires Follows(all, counter, now, windowMs) && |LiveKeys(counter, now, windowMs)| <= max
    requires i < |all| - max
    ensures !Live(all[i].1, now, windowMs)
  {
    if Live(all[i].1, now, windowMs) {
      var tail := all[i..];
      KeySetSize(tail);
      forall k | k in KeySet(tail) ensures k in LiveKeys(counter, now, windowMs) {
        var s :| s in tail && s.0 == k;
        var j :| 0 <= j < |tail| && tail[j] == s;
        assert s in all && (j == 0 || InOrder(all[i], all[i + j]));
      }
      SubsetSize(KeySet(tail), LiveKeys(counter, now, windowMs));
    }
  }

  /** The room is needed: entries that stand for the counter are at least as many as its live keys. */
  lemma RoomIsNeeded(slots: Slots<string, Entry>, counter: Counter, now: int, windowMs: int)
    requires Follows(slots, counter, now, windowMs)
    ensures |LiveKeys(counter, now, windowMs)| <= |slots|
  {
    KeySetSize(slots);
    forall k | k in LiveKeys(counter, now, windowMs) ensures k in KeySet(slots) {
      assert (k, counter[k]) in slots;
    }
    SubsetSize(LiveKeys(counter, now, windowMs), KeySet(slots));
  }
}
