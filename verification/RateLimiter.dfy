/** The fixed-window rate limiter over a bounded map, against an unbounded per-key counter. */
module RateLimiter {
  import opened Arithmetic
  import opened BoundedMap
  import opened Options
  import opened Windows

  datatype Config = Config(limit: int, windowMs: int, maxEntries: int) {
    predicate Enabled() { limit > 0 && windowMs > 0 }
  }

  datatype Call = Call(key: string, now: int)

  // ---------------------------------------------------------------- the reference counter

  /** One call on a counter that keeps every key for ever. */
  function SimpleCheck(config: Config, counter: Counter, call: Call): (Counter, Decision) {
    if !config.Enabled() then (counter, ALLOWED)
    else if call.key !in counter || !Live(counter[call.key], call.now, config.windowMs) then
      (counter[call.key := Entry(1, call.now)], ALLOWED)
    else
      var entry := counter[call.key];
      (counter[call.key := entry.(count := entry.count + 1)],
       Decision(entry.count + 1 <= config.limit,
                CeilSeconds(config.windowMs - (call.now - entry.startedAt))))
  }

  // ---------------------------------------------------------------- the limiter

  datatype State = State(slots: Slots<string, Entry>, lastPruneAt: int)

  const INITIAL := State([], 0)

  /** The pruning pass keeps an entry until its window has been over for a moment. */
  function NotOver(now: int, windowMs: int): ((string, Entry)) -> bool {
    (s: (string, Entry)) => now - s.1.startedAt <= windowMs
  }

  function Prune(config: Config, s: State, now: int): State {
    if now - s.lastPruneAt >= config.windowMs then State(Filter(s.slots, NotOver(now, config.windowMs)), now) else s
  }

  function Checked(config: Config, s: State, call: Call): (State, Decision) {
    if !config.Enabled() then (s, ALLOWED)
    else
      var pruned := Prune(config, s, call.now);
      var found := Find(pruned.slots, call.key);
      if found.None? || call.now - found.value.startedAt >= config.windowMs then
        (pruned.(slots := Put(pruned.slots, call.key, Entry(1, call.now), config.maxEntries)), ALLOWED)
      else
        var counted := found.value.(count := found.value.count + 1);
        (pruned.(slots := Replaced(pruned.slots, call.key, counted)),
         Decision(counted.count <= config.limit,
                  CeilSeconds(config.windowMs - (call.now - found.value.startedAt))))
  }

  class RateLimiter {
    const config: Config
    const entries: BoundedMap<string, Entry>
    var lastPruneAt: int

    ghost predicate Valid()
      reads this, entries
    {
      entries.Valid() && entries.maxKeys == config.maxEntries
    }

    ghost function Abstract(): State
      reads this, entries
    {
      State(entries.entries, lastPruneAt)
    }

    constructor (config: Config)
      ensures Valid() && this.config == config && Abstract() == INITIAL && fresh(entries)
    {
      this.config := config;
      entries := new BoundedMap(config.maxEntries);
      lastPruneAt := 0;
    }

    method Check(key: string, now: int) returns (decision: Decision)
      requires Valid()
      modifies this, entries
      ensures Valid()
      ensures (Abstract(), decision) == Checked(config, old(Abstract()), Call(key, now))
    {
      if config.limit <= 0 || config.windowMs <= 0 { return ALLOWED; }
      if now - lastPruneAt >= config.windowMs {
        entries.DeleteRefused(NotOver(now, config.windowMs));
        lastPruneAt := now;
      }
      var current := entries.Get(key);
      if current.None? || now - current.value.startedAt >= config.windowMs {
        var _ := entries.Set(key, Entry(1, now));
        return ALLOWED;
      }
      var counted := current.value.(count := current.value.count + 1);
      entries.Update(key, counted);
      decision := Decision(counted.count <= config.limit,
                           CeilSeconds(config.windowMs - (now - current.value.startedAt)));
    }
  }

  // ---------------------------------------------------------------- refinement

  /** A pruning runs once a window has passed since the last, and leaves what is live and what ends at this very moment. */
  lemma PrunedExactly(config: Config, s: State, now: int, slot: (string, Entry))
    ensures var due := now - s.lastPruneAt >= config.windowMs;
            && Prune(config, s, now).lastPruneAt == (if due then now else s.lastPruneAt)
            && (slot in Prune(config, s, now).slots
                <==> slot in s.slots && (due ==> slot.1.startedAt + config.windowMs >= now))
  {
    FilterMember(s.slots, NotOver(now, config.windowMs));
  }

  /** One call decides as the counter does, and keeps standing for it while every live key has room. */
  lemma CheckRefines(config: Config, s: State, counter: Counter, before: int, call: Call)
    requires Follows(s.slots, counter, before, config.windowMs) && before <= call.now
    requires config.Enabled() ==>
               |LiveKeys(SimpleCheck(config, counter, call).0, call.now, config.windowMs)| <= config.maxEntries
    ensures Checked(config, s, call).1 == SimpleCheck(config, counter, call).1
    ensures Follows(Checked(config, s, call).0.slots, SimpleCheck(config, counter, call).0, call.now, config.windowMs)
  {
    var now, windowMs := call.now, config.windowMs;
    FollowsLater(s.slots, counter, before, now, windowMs);
    if config.Enabled() {
      FollowsPruned(s.slots, counter, now, windowMs, NotOver(now, windowMs));
      var pruned := Prune(config, s, now).slots;
      FoundIsLive(pruned, counter, now, windowMs, call.key);
      var found := Find(pruned, call.key);
      if found.None? || !Live(found.value, now, windowMs) {
        FollowsOpened(pruned, counter, now, windowMs, call.key, config.maxEntries);
      } else {
        FollowsCounted(pruned, counter, now, windowMs, call.key, found.value.(count := found.value.count + 1));
      }
    }
  }

  function Run(config: Config, s: State, calls: seq<Call>): seq<Decision>
    decreases |calls|
  {
    if calls == [] then []
    else [Checked(config, s, calls[0]).1] + Run(config, Checked(config, s, calls[0]).0, calls[1..])
  }

  function SimpleRun(config: Config, counter: Counter, calls: seq<Call>): (decisions: seq<Decision>)
    ensures |decisions| == |calls|
    decreases |calls|
  {
    if calls == [] then []
    else [SimpleCheck(config, counter, calls[0]).1]
         + SimpleRun(config, SimpleCheck(config, counter, calls[0]).0, calls[1..])
  }

  /** The clock never goes back. */
  predicate Forward(from: int, calls: seq<Call>)
    decreases |calls|
  {
    calls == [] || (from <= calls[0].now && Forward(calls[0].now, calls[1..]))
  }

  /** At no call are more than `maxEntries` keys live. */
  ghost predicate Fits(config: Config, counter: Counter, calls: seq<Call>)
    decreases |calls|
  {
    calls == [] ||
    (var after := SimpleCheck(config, counter, calls[0]).0;
     && |LiveKeys(after, calls[0].now, config.windowMs)| <= config.maxEntries
     && Fits(config, after, calls[1..]))
  }

  lemma {:induction false} RunRefines(config: Config, s: State, counter: Counter, from: int, calls: seq<Call>)
    requires Follows(s.slots, counter, from, config.windowMs) && Forward(from, calls)
    requires config.Enabled() ==> Fits(config, counter, calls)
    ensures Run(config, s, calls) == SimpleRun(config, counter, calls)
    decreases |calls|
  {
    if calls != [] {
      CheckRefines(config, s, counter, from, calls[0]);
      RunRefines(config, Checked(config, s, calls[0]).0, SimpleCheck(config, counter, calls[0]).0, calls[0].now, calls[1..]);
    }
  }

  // ---------------------------------------------------------------- when to try again

  function After(config: Config, counter: Counter, calls: seq<Call>): Counter
    decreases |calls|
  {
    if calls == [] then counter else After(config, SimpleCheck(config, counter, calls[0]).0, calls[1..])
  }

  /** Until a key's window is over no call of any key moves it, and its count only grows. */
  lemma {:induction false} WindowStands(config: Config, counter: Counter, calls: seq<Call>, key: string)
    requires config.Enabled() && key in counter
    requires forall c :: c in calls ==> Live(counter[key], c.now, config.windowMs)
    ensures var after := After(config, counter, calls);
            key in after && after[key].startedAt == counter[key].startedAt && after[key].count >= counter[key].count
    decreases |calls|
  {
    if calls != [] {
      assert calls[0] in calls && forall c :: c in calls[1..] ==> c in calls;
      WindowStands(config, SimpleCheck(config, counter, calls[0]).0, calls[1..], key);
    }
  }

  /**
   * A refused key is told the least whole number of seconds after which it is let through again: whatever is tried
   * while its window lasts, it is let through that many seconds later and refused one second before.
   */
  lemma RetryAfterIsLeast(config: Config, counter: Counter, call: Call, between: seq<Call>, later: int)
    requires config.Enabled() && !SimpleCheck(config, counter, call).1.allowed
    requires forall c :: c in between ==> Live(counter[call.key], c.now, config.windowMs)
    ensures var (refused, decision) := SimpleCheck(config, counter, call);
            var again := SimpleCheck(config, After(config, refused, between), Call(call.key, later)).1;
            && decision.retryAfterSeconds >= 1
            && (later >= call.now + 1000 * decision.retryAfterSeconds ==> again.allowed)
            && (later <= call.now + 1000 * (decision.retryAfterSeconds - 1) ==> !again.allowed)
  {
    WindowStands(config, SimpleCheck(config, counter, call).0, between, call.key);
    CeilSecondsIsLeast(config.windowMs - (call.now - counter[call.key].startedAt));
  }

  // ---------------------------------------------------------------- how many get through

  /** The calls of `key` admitted at a moment in [t, t + windowMs). */
  ghost function Admitted(config: Config, counter: Counter, calls: seq<Call>, key: string, t: int): nat
    decreases |calls|
  {
    if calls == [] then 0
    else
      var (after, decision) := SimpleCheck(config, counter, calls[0]);
      (if calls[0].key == key && decision.allowed && t <= calls[0].now < t + config.windowMs then 1 else 0)
      + Admitted(config, after, calls[1..], key, t)
  }

  /**
   * The most calls of a key admitted in a half-open span of one window: the call that opens the earlier of two
   * windows lies before the span, and a window of one millisecond is never cut by it.
   */
  function MostAdmitted(config: Config): int {
    if config.windowMs == 1 then config.limit else 2 * config.limit - 1
  }

  /** What a key can still have admitted inside the span, by when its window opened. */
  ghost function Allowance(config: Config, counter: Counter, key: string, t: int): int
    requires config.Enabled()
  {
    if key !in counter || counter[key].startedAt <= t - config.windowMs then MostAdmitted(config)
    else if counter[key].startedAt < t then AtLeastZero(config.limit - counter[key].count) + config.limit
    else if counter[key].startedAt < t + config.windowMs then AtLeastZero(config.limit - counter[key].count)
    else 0
  }

  lemma {:induction false} AdmittedWithinAllowance(config: Config, counter: Counter, from: int, calls: seq<Call>, key: string, t: int)
    requires config.Enabled() && Forward(from, calls)
    requires key in counter ==> 1 <= counter[key].count && counter[key].startedAt <= from
    ensures Admitted(config, counter, calls, key, t) <= Allowance(config, counter, key, t)
    decreases |calls|
  {
    if calls != [] {
      var after := SimpleCheck(config, counter, calls[0]).0;
      AdmittedWithinAllowance(config, after, calls[0].now, calls[1..], key, t);
    }
  }

  /** In any half-open span of one window's length a key gets fewer than twice its limit through. */
  lemma FewerThanTwiceTheLimit(config: Config, from: int, calls: seq<Call>, key: string, t: int)
    requires config.Enabled() && Forward(from, calls)
    ensures Admitted(config, map[], calls, key, t) <= MostAdmitted(config) < 2 * config.limit
  {
    AdmittedWithinAllowance(config, map[], from, calls, key, t);
  }

  ghost function Times(call: Call, n: nat): seq<Call> { if n == 0 then [] else [call] + Times(call, n - 1) }

  lemma {:induction false} BurstAdmitted(config: Config, counter: Counter, c: nat, startedAt: int, call: Call, n: nat, rest: seq<Call>, t: int)
    requires config.Enabled() && call.key in counter && counter[call.key] == Entry(c, startedAt)
    requires call.now - startedAt < config.windowMs
    requires c + n <= config.limit && t <= call.now < t + config.windowMs
    ensures Admitted(config, counter, Times(call, n) + rest, call.key, t)
         == n + Admitted(config, counter[call.key := Entry(c + n, startedAt)], rest, call.key, t)
    decreases n
  {
    if n == 0 {
      assert Times(call, 0) + rest == rest;
      assert counter[call.key := Entry(c, startedAt)] == counter;
    } else {
      var after := counter[call.key := Entry(c + 1, startedAt)];
      var calls := Times(call, n) + rest;
      assert calls[0] == call && calls[1..] == Times(call, n - 1) + rest;
      assert SimpleCheck(config, counter, call) == (after, Decision(true, CeilSeconds(config.windowMs - (call.now - startedAt))));
      BurstAdmitted(config, after, c + 1, startedAt, call, n - 1, rest, t);
      assert after[call.key := Entry(c + n, startedAt)] == counter[call.key := Entry(c + n, startedAt)];
    }
  }

  lemma {:induction false} BurstForward(call: Call, n: nat, rest: seq<Call>, from: int)
    requires from <= call.now && Forward(call.now, rest)
    ensures Forward(from, Times(call, n) + rest)
  {
    if n == 0 {
      assert Times(call, 0) + rest == rest;
      if rest != [] { assert Forward(from, rest); }
    } else {
      BurstForward(call, n - 1, rest, call.now);
      assert (Times(call, n) + rest)[1..] == Times(call, n - 1) + rest;
    }
  }

  /** The bound is reached, for every limit and every window. */
  lemma MostIsReached(config: Config, key: string, t: int) returns (calls: seq<Call>)
    requires config.Enabled()
    ensures Forward(t - 1, calls)
    ensures Admitted(config, map[], calls, key, t) == MostAdmitted(config)
  {
    if config.windowMs == 1 { calls := OneBurst(config, key, t); } else { calls := TwoBursts(config, key, t); }
  }

  lemma OneBurst(config: Config, key: string, t: int) returns (calls: seq<Call>)
    requires config.Enabled()
    ensures Forward(t - 1, calls) && Admitted(config, map[], calls, key, t) == config.limit
  {
    var call, n := Call(key, t), config.limit - 1;
    calls := [call] + (Times(call, n) + []);
    assert calls[1..] == Times(call, n) + [];
    BurstForward(call, n, [], t);
    var begun: Counter := map[key := Entry(1, t)];
    assert map[][key := Entry(1, t)] == begun;
    BurstAdmitted(config, begun, 1, t, call, n, [], t);
  }

  lemma TwoBursts(config: Config, key: string, t: int) returns (calls: seq<Call>)
    requires config.Enabled() && config.windowMs >= 2
    ensures Forward(t - 1, calls) && Admitted(config, map[], calls, key, t) == 2 * config.limit - 1
  {
    var opening, early, late := Call(key, t - 1), Call(key, t), Call(key, t + config.windowMs - 1);
    var n := config.limit - 1;
    var second := [late] + (Times(late, n) + []);
    var first := Times(early, n) + second;
    calls := [opening] + first;
    BurstForward(late, n, [], late.now);
    assert second[1..] == Times(late, n) + [];
    BurstForward(early, n, second, t - 1);
    assert calls[1..] == first;
    var underway: Counter := map[key := Entry(1, t - 1)];
    assert map[][key := Entry(1, t - 1)] == underway;
    BurstAdmitted(config, underway, 1, t - 1, early, n, second, t);
    var full: Counter := map[key := Entry(config.limit, t - 1)];
    assert underway[key := Entry(1 + n, t - 1)] == full;
    var reopened: Counter := map[key := Entry(1, late.now)];
    assert full[key := Entry(1, late.now)] == reopened;
    BurstAdmitted(config, reopened, 1, late.now, late, n, [], t);
  }

  /** How many of a run's calls of `key` made in [t, t + windowMs) were allowed. */
  function AllowedIn(calls: seq<Call>, decisions: seq<Decision>, key: string, t: int, windowMs: int): nat
    requires |calls| == |decisions|
  {
    if calls == [] then 0
    else (if calls[0].key == key && decisions[0].allowed && t <= calls[0].now < t + windowMs then 1 else 0)
         + AllowedIn(calls[1..], decisions[1..], key, t, windowMs)
  }

  lemma {:induction false} AllowedIsAdmitted(config: Config, counter: Counter, calls: seq<Call>, key: string, t: int)
    ensures AllowedIn(calls, SimpleRun(config, counter, calls), key, t, config.windowMs)
         == Admitted(config, counter, calls, key, t)
    decreases |calls|
  {
    if calls != [] {
      var after := SimpleCheck(config, counter, calls[0]).0;
      AllowedIsAdmitted(config, after, calls[1..], key, t);
      assert SimpleRun(config, counter, calls)[1..] == SimpleRun(config, after, calls[1..]);
    }
  }

  /** The limiter itself, from empty: while live keys have room, fewer than twice the limit get through in any span. */
  lemma LimiterAdmits(config: Config, from: int, calls: seq<Call>, key: string, t: int)
    requires config.Enabled() && Forward(from, calls) && Fits(config, map[], calls)
    ensures |Run(config, INITIAL, calls)| == |calls|
    ensures AllowedIn(calls, Run(config, INITIAL, calls), key, t, config.windowMs) <= MostAdmitted(config) < 2 * config.limit
  {
    RunRefines(config, INITIAL, map[], from, calls);
    AllowedIsAdmitted(config, map[], calls, key, t);
    FewerThanTwiceTheLimit(config, from, calls, key, t);
  }
}
