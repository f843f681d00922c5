/** The limiter that counts failed or reserved attempts per key until a success resets the key. */
module FailureLimiter {
  import opened Arithmetic
  import opened BoundedMap
  import opened Options
  import opened Windows

  datatype Config = Config(limit: int, windowMs: int, maxEntries: int) {
    predicate Enabled() { limit > 0 && windowMs > 0 }
  }

  datatype Op =
    | Status(key: string)
    | RecordFailure(key: string)
    | Reserve(key: string)
    | Reset(key: string)

  // ---------------------------------------------------------------- the reference counter

  predicate Locked(config: Config, counter: Counter, key: string, now: int) {
    key in counter && Live(counter[key], now, config.windowMs) && counter[key].count >= config.limit
  }

  function SimpleStatus(config: Config, counter: Counter, key: string, now: int): Decision {
    if config.Enabled() && Locked(config, counter, key, now) then
      Decision(false, CeilSeconds(config.windowMs - (now - counter[key].startedAt)))
    else ALLOWED
  }

  function SimpleRecord(config: Config, counter: Counter, key: string, now: int): Counter {
    if !config.Enabled() then counter
    else if key in counter && Live(counter[key], now, config.windowMs) then
      counter[key := counter[key].(count := counter[key].count + 1)]
    else counter[key := Entry(1, now)]
  }

  /** One operation on a counter that keeps every key until it is reset. */
  function SimpleStep(config: Config, counter: Counter, op: Op, now: int): (Counter, Decision) {
    match op
    case Status(key) => (counter, SimpleStatus(config, counter, key, now))
    case RecordFailure(key) => (SimpleRecord(config, counter, key, now), ALLOWED)
    case Reset(key) => (counter - {key}, ALLOWED)
    case Reserve(key) =>
      var decision := SimpleStatus(config, counter, key, now);
      (if decision.allowed then SimpleRecord(config, counter, key, now) else counter, decision)
  }

  // ---------------------------------------------------------------- the limiter

  datatype State = State(slots: Slots<string, Entry>, lastSweepAt: int)

  const INITIAL := State([], 0)

  function Unexpired(now: int, windowMs: int): ((string, Entry)) -> bool {
    (s: (string, Entry)) => now - s.1.startedAt < windowMs
  }

  function Swept(config: Config, s: State, now: int): State {
    if now - s.lastSweepAt < config.windowMs && |s.slots| < config.maxEntries then s
    else State(Filter(s.slots, Unexpired(now, config.windowMs)), now)
  }

  /** The entry under a key; one whose window is over is deleted and not found. */
  function CurrentOf(config: Config, s: State, key: string, now: int): (State, Option<Entry>) {
    var found := Find(s.slots, key);
    if found.None? then (s, None)
    else if now - found.value.startedAt >= config.windowMs then (s.(slots := Without(s.slots, key)), None)
    else (s, found)
  }

  function StatusOf(config: Config, s: State, key: string, now: int): (State, Decision) {
    if !config.Enabled() then (s, ALLOWED)
    else
      var (after, found) := CurrentOf(config, s, key, now);
      if found.None? || found.value.count < config.limit then (after, ALLOWED)
      else (after, Decision(false, CeilSeconds(config.windowMs - (now - found.value.startedAt))))
  }

  function Recorded(config: Config, s: State, key: string, now: int): State {
    if !config.Enabled() then s
    else
      var (after, found) := CurrentOf(config, Swept(config, s, now), key, now);
      if found.Some? then after.(slots := Replaced(after.slots, key, found.value.(count := found.value.count + 1)))
      else after.(slots := Put(after.slots, key, Entry(1, now), config.maxEntries))
  }

  function Step(config: Config, s: State, op: Op, now: int): (State, Decision) {
    match op
    case Status(key) => StatusOf(config, s, key, now)
    case RecordFailure(key) => (Recorded(config, s, key, now), ALLOWED)
    case Reset(key) => (s.(slots := Without(s.slots, key)), ALLOWED)
    case Reserve(key) =>
      var (after, decision) := StatusOf(config, s, key, now);
      (if decision.allowed then Recorded(config, after, key, now) else after, decision)
  }

  class FailureLimiter {
    const config: Config
    const entries: BoundedMap<string, Entry>
    var lastSweepAt: int

    ghost predicate Valid()
      reads this, entries
    {
      entries.Valid() && entries.maxKeys == config.maxEntries
    }

    ghost function Abstract(): State
      reads this, entries
    {
      State(entries.entries, lastSweepAt)
    }

    constructor (config: Config)
      ensures Valid() && this.config == config && Abstract() == INITIAL && fresh(entries)
    {
      this.config := config;
      entries := new BoundedMap(config.maxEntries);
      lastSweepAt := 0;
    }

    method Sweep(now: int)
      requires Valid()
      modifies this, entries
      ensures Valid() && Abstract() == Swept(config, old(Abstract()), now)
    {
      if now - lastSweepAt < config.windowMs && |entries.entries| < config.maxEntries { return; }
      lastSweepAt := now;
      entries.DeleteRefused(Unexpired(now, config.windowMs));
    }

    method Current(key: string, now: int) returns (found: Option<Entry>)
      requires Valid()
      modifies entries
      ensures Valid() && (Abstract(), found) == CurrentOf(config, old(Abstract()), key, now)
    {
      found := entries.Get(key);
      if found.Some? && now - found.value.startedAt >= config.windowMs {
        entries.Delete(key);
        found := None;
      }
    }

    method Status(key: string, now: int) returns (decision: Decision)
      requires Valid()
      modifies entries
      ensures Valid() && (Abstract(), decision) == StatusOf(config, old(Abstract()), key, now)
    {
      if config.limit <= 0 || config.windowMs <= 0 { return ALLOWED; }
      var entry := Current(key, now);
      if entry.None? || entry.value.count < config.limit { return ALLOWED; }
      decision := Decision(false, CeilSeconds(config.windowMs - (now - entry.value.startedAt)));
    }

    method RecordFailure(key: string, now: int)
      requires Valid()
      modifies this, entries
      ensures Valid() && Abstract() == Recorded(config, old(Abstract()), key, now)
    {
      if config.limit <= 0 || config.windowMs <= 0 { return; }
      Sweep(now);
      var entry := Current(key, now);
      if entry.Some? {
        entries.Update(key, entry.value.(count := entry.value.count + 1));
      } else {
        var _ := entries.Set(key, Entry(1, now));
      }
    }

    method Reset(key: string)
      requires Valid()
      modifies entries
      ensures Valid() && entries.entries == Without(old(entries.entries), key)
    {
      entries.Delete(key);
    }

    method Reserve(key: string, now: int) returns (decision: Decision)
      requires Valid()
      modifies this, entries
      ensures Valid() && (Abstract(), decision) == Step(config, old(Abstract()), Op.Reserve(key), now)
    {
      decision := Status(key, now);
      if !decision.allowed { return; }
      RecordFailure(key, now);
    }
  }

  // ---------------------------------------------------------------- refinement

  /** The entries stand for the counter, where a limiter that is switched off does not record at all. */
  ghost predicate StandsFor(config: Config, s: State, counter: Counter, now: int) {
    Follows(s.slots, counter, now, config.windowMs)
  }

  lemma CurrentRefines(config: Config, s: State, counter: Counter, key: string, now: int)
    requires StandsFor(config, s, counter, now)
    ensures var (after, found) := CurrentOf(config, s, key, now);
            && StandsFor(config, after, counter, now)
            && (found.Some? <==> key in counter && Live(counter[key], now, config.windowMs))
            && (found.Some? ==> found.value == counter[key])
  {
    FoundIsLive(s.slots, counter, now, config.windowMs, key);
    var found := Find(s.slots, key);
    if found.Some? && !Live(found.value, now, config.windowMs) {
      FindIsMember(s.slots, key);
      FollowsPruned(s.slots, counter, now, config.windowMs, OtherKey(key));
    }
  }

  /** A sweep changes no decision: the swept entries still stand for the counter. */
  lemma SweepRefines(config: Config, s: State, counter: Counter, now: int)
    requires StandsFor(config, s, counter, now)
    ensures StandsFor(config, Swept(config, s, now), counter, now)
  {
    FollowsPruned(s.slots, counter, now, config.windowMs, Unexpired(now, config.windowMs));
  }

  /** A sweep runs once a window has passed since the last or the entries are full, and leaves just the live ones. */
  lemma SweptExactly(config: Config, s: State, now: int, slot: (string, Entry))
    ensures var due := now - s.lastSweepAt >= config.windowMs || |s.slots| >= config.maxEntries;
            && Swept(config, s, now).lastSweepAt == (if due then now else s.lastSweepAt)
            && (slot in Swept(config, s, now).slots <==> slot in s.slots && (due ==> Live(slot.1, now, config.windowMs)))
  {
    FilterMember(s.slots, Unexpired(now, config.windowMs));
  }

  lemma RecordRefines(config: Config, s: State, counter: Counter, key: string, now: int)
    requires StandsFor(config, s, counter, now)
    requires config.Enabled() ==>
               |LiveKeys(SimpleRecord(config, counter, key, now), now, config.windowMs)| <= config.maxEntries
    ensures StandsFor(config, Recorded(config, s, key, now), SimpleRecord(config, counter, key, now), now)
  {
    if config.Enabled() {
      var swept := Swept(config, s, now);
      SweepRefines(config, s, counter, now);
      CurrentRefines(config, swept, counter, key, now);
      var (after, found) := CurrentOf(config, swept, key, now);
      if found.Some? {
        FollowsCounted(after.slots, counter, now, config.windowMs, key, found.value.(count := found.value.count + 1));
      } else {
        FollowsOpened(after.slots, counter, now, config.windowMs, key, config.maxEntries);
      }
    }
  }

  lemma FollowsReset(s: State, counter: Counter, now: int, windowMs: int, key: string)
    requires Follows(s.slots, counter, now, windowMs)
    ensures Follows(Without(s.slots, key), counter - {key}, now, windowMs)
  {
    WithoutIsRest(s.slots, key);
    FilterPairwise(s.slots, OtherKey(key), InOrder);
  }

  /** Each operation decides as the counter does, and the entries go on standing for it while live keys have room. */
  lemma StepRefines(config: Config, s: State, counter: Counter, before: int, op: Op, now: int)
    requires StandsFor(config, s, counter, before) && before <= now
    requires config.Enabled() ==>
               |LiveKeys(SimpleStep(config, counter, op, now).0, now, config.windowMs)| <= config.maxEntries
    ensures Step(config, s, op, now).1 == SimpleStep(config, counter, op, now).1
    ensures StandsFor(config, Step(config, s, op, now).0, SimpleStep(config, counter, op, now).0, now)
  {
    FollowsLater(s.slots, counter, before, now, config.windowMs);
    match op
    case Status(key) => CurrentRefines(config, s, counter, key, now);
    case RecordFailure(key) => RecordRefines(config, s, counter, key, now);
    case Reset(key) => FollowsReset(s, counter, now, config.windowMs, key);
    case Reserve(key) =>
      CurrentRefines(config, s, counter, key, now);
      if SimpleStatus(config, counter, key, now).allowed {
        RecordRefines(config, StatusOf(config, s, key, now).0, counter, key, now);
      }
  }

  type Timed = (Op, int)

  function Run(config: Config, s: State, ops: seq<Timed>): seq<Decision>
    decreases |ops|
  {
    if ops == [] then []
    else
      var (after, decision) := Step(config, s, ops[0].0, ops[0].1);
      [decision] + Run(config, after, ops[1..])
  }

  function SimpleRun(config: Config, counter: Counter, ops: seq<Timed>): seq<Decision>
    decreases |ops|
  {
    if ops == [] then []
    else
      var (after, decision) := SimpleStep(config, counter, ops[0].0, ops[0].1);
      [decision] + SimpleRun(config, after, ops[1..])
  }

  /** The clock never goes back, and at no operation are more than `maxEntries` keys live. */
  ghost predicate Fits(config: Config, counter: Counter, from: int, ops: seq<Timed>)
    decreases |ops|
  {
    ops == [] ||
    (var after := SimpleStep(config, counter, ops[0].0, ops[0].1).0;
     && from <= ops[0].1
     && |LiveKeys(after, ops[0].1, config.windowMs)| <= config.maxEntries
     && Fits(config, after, ops[0].1, ops[1..]))
  }

  /** Over a whole run the swept, bounded entries decide as the counter that never forgets. */
  lemma {:induction false} RunRefines(config: Config, s: State, counter: Counter, from: int, ops: seq<Timed>)
    requires StandsFor(config, s, counter, from) && Fits(config, counter, from, ops)
    ensures Run(config, s, ops) == SimpleRun(config, counter, ops)
    decreases |ops|
  {
    if ops != [] {
      var (op, now) := ops[0];
      StepRefines(config, s, counter, from, op, now);
      RunRefines(config, Step(config, s, op, now).0, SimpleStep(config, counter, op, now).0, now, ops[1..]);
    }
  }

  // ---------------------------------------------------------------- lockout

  /** A refused reservation changes nothing at all. */
  lemma RefusedChangesNothing(config: Config, s: State, key: string, now: int)
    requires !Step(config, s, Reserve(key), now).1.allowed
    ensures Step(config, s, Reserve(key), now).0 == s
  {
  }

  function After(config: Config, counter: Counter, ops: seq<Timed>): Counter
    decreases |ops|
  {
    if ops == [] then counter else After(config, SimpleStep(config, counter, ops[0].0, ops[0].1).0, ops[1..])
  }

  /** The reservations of `key` a run makes, and those it is granted. */
  function Asked(ops: seq<Timed>, key: string): nat {
    if ops == [] then 0 else (if ops[0].0 == Reserve(key) then 1 else 0) + Asked(ops[1..], key)
  }

  function Granted(config: Config, counter: Counter, ops: seq<Timed>, key: string): nat
    decreases |ops|
  {
    if ops == [] then 0
    else
      var (after, decision) := SimpleStep(config, counter, ops[0].0, ops[0].1);
      (if ops[0].0 == Reserve(key) && decision.allowed then 1 else 0) + Granted(config, after, ops[1..], key)
  }

  predicate Within(ops: seq<Timed>, from: int, to: int) {
    forall o :: o in ops ==> from <= o.1 < to
  }

  /** The failures of `key` a run records. */
  function Failed(ops: seq<Timed>, key: string): nat {
    if ops == [] then 0 else (if ops[0].0 == RecordFailure(key) then 1 else 0) + Failed(ops[1..], key)
  }

  /** Grants between what the limit leaves after all recorded failures and what it leaves without them. */
  predicate GrantsFit(left: int, failed: nat, asked: nat, granted: int) {
    Min(AtLeastZero(left - failed), asked) <= granted <= Min(AtLeastZero(left), asked)
  }

  /**
   * Inside a window, however reservations, recorded failures and anything done to other keys interleave,
   * every reservation granted and every failure recorded is counted once, no more are granted than the limit
   * leaves, and only recorded failures make it fewer: with none, exactly as many as the limit leaves.
   */
  lemma {:induction false} GrantsExactly(config: Config, counter: Counter, ops: seq<Timed>, key: string)
    requires config.Enabled() && key in counter
    requires Within(ops, counter[key].startedAt, counter[key].startedAt + config.windowMs)
    requires forall o :: o in ops ==> o.0 != Reset(key)
    ensures GrantsFit(config.limit - counter[key].count, Failed(ops, key), Asked(ops, key), Granted(config, counter, ops, key))
    ensures key in After(config, counter, ops)
    ensures After(config, counter, ops)[key]
         == counter[key].(count := counter[key].count + Granted(config, counter, ops, key) + Failed(ops, key))
    decreases |ops|
  {
    if ops != [] {
      var op, now := ops[0].0, ops[0].1;
      assert ops[0] in ops && forall o :: o in ops[1..] ==> o in ops;
      GrantStep(config, counter, op, now, key);
      GrantsExactly(config, SimpleStep(config, counter, op, now).0, ops[1..], key);
    }
  }

  /** One operation inside a key's window adds to its count what it granted or recorded for the key. */
  lemma GrantStep(config: Config, counter: Counter, op: Op, now: int, key: string)
    requires config.Enabled() && key in counter && Live(counter[key], now, config.windowMs) && op != Reset(key)
    ensures var (after, decision) := SimpleStep(config, counter, op, now);
            && key in after && after[key].startedAt == counter[key].startedAt
            && after[key].count == counter[key].count
               + (if op == Reserve(key) && decision.allowed then 1 else 0) + (if op == RecordFailure(key) then 1 else 0)
            && (op == Reserve(key) ==> (decision.allowed <==> counter[key].count < config.limit))
  {
  }

  /**
   * From no open window the first reservation opens one, and that window grants `limit` in all: exactly, unless
   * failures recorded beside them take some of it.
   */
  lemma WindowGrantsLimit(config: Config, counter: Counter, now: int, ops: seq<Timed>, key: string)
    requires config.Enabled() && (key in counter ==> !Live(counter[key], now, config.windowMs))
    requires Within(ops, now, now + config.windowMs)
    requires forall o :: o in ops ==> o.0 != Reset(key)
    ensures Granted(config, counter, [(Reserve(key), now)] + ops, key) >= 1
    ensures GrantsFit(config.limit - 1, Failed(ops, key), Asked(ops, key), Granted(config, counter, [(Reserve(key), now)] + ops, key) - 1)
    ensures Failed(ops, key) == 0 ==>
              Granted(config, counter, [(Reserve(key), now)] + ops, key) == Min(config.limit, 1 + Asked(ops, key))
  {
    var run := [(Reserve(key), now)] + ops;
    var after := SimpleStep(config, counter, Reserve(key), now).0;
    assert run[1..] == ops;
    GrantsExactly(config, after, ops, key);
  }

  /** Once locked, a key stays locked until its window ends, whatever is tried, and is free again from then on. */
  lemma {:induction false} LockoutEnds(config: Config, counter: Counter, ops: seq<Timed>, key: string, later: int)
    requires config.Enabled() && key in counter && counter[key].count >= config.limit
    requires Within(ops, counter[key].startedAt, counter[key].startedAt + config.windowMs)
    requires forall o :: o in ops ==> o.0 != Reset(key)
    requires counter[key].startedAt <= later
    ensures Granted(config, counter, ops, key) == 0
    ensures SimpleStep(config, After(config, counter, ops), Reserve(key), later).1.allowed
       <==> later >= counter[key].startedAt + config.windowMs
    decreases |ops|
  {
    if ops != [] {
      var op, now := ops[0].0, ops[0].1;
      assert ops[0] in ops && forall o :: o in ops[1..] ==> o in ops;
      LockoutEnds(config, SimpleStep(config, counter, op, now).0, ops[1..], key, later);
    }
  }

  /**
   * A locked key is told the least whole number of seconds until it is free: whatever is tried while its window
   * lasts short of resetting it, it may reserve that many seconds later and not one second before.
   */
  lemma RetryAfterIsLeast(config: Config, counter: Counter, key: string, now: int, between: seq<Timed>, later: int)
    requires !SimpleStatus(config, counter, key, now).allowed
    requires Within(between, counter[key].startedAt, counter[key].startedAt + config.windowMs)
    requires forall o :: o in between ==> o.0 != Reset(key)
    requires counter[key].startedAt <= later
    ensures var decision := SimpleStatus(config, counter, key, now);
            var again := SimpleStep(config, After(config, counter, between), Reserve(key), later).1;
            && decision.retryAfterSeconds >= 1
            && (later >= now + 1000 * decision.retryAfterSeconds ==> again.allowed)
            && (later <= now + 1000 * (decision.retryAfterSeconds - 1) ==> !again.allowed)
  {
    LockoutEnds(config, counter, between, key, later);
    CeilSecondsIsLeast(config.windowMs - (now - counter[key].startedAt));
  }

  /** How many of a run's reservations of `key` its decisions allowed. */
  function AllowedTo(ops: seq<Timed>, decisions: seq<Decision>, key: string): nat
    requires |ops| == |decisions|
  {
    if ops == [] then 0
    else (if ops[0].0 == Reserve(key) && decisions[0].allowed then 1 else 0) + AllowedTo(ops[1..], decisions[1..], key)
  }

  lemma {:induction false} AllowedIsGranted(config: Config, counter: Counter, ops: seq<Timed>, key: string)
    ensures |SimpleRun(config, counter, ops)| == |ops|
    ensures AllowedTo(ops, SimpleRun(config, counter, ops), key) == Granted(config, counter, ops, key)
    decreases |ops|
  {
    if ops != [] {
      var after := SimpleStep(config, counter, ops[0].0, ops[0].1).0;
      AllowedIsGranted(config, after, ops[1..], key);
      assert SimpleRun(config, counter, ops)[1..] == SimpleRun(config, after, ops[1..]);
    }
  }

  /** The limiter itself: while live keys have room, the window a reservation opens grants exactly `limit` of them. */
  lemma LimiterGrantsLimit(config: Config, s: State, counter: Counter, now: int, ops: seq<Timed>, key: string)
    requires config.Enabled() && StandsFor(config, s, counter, now)
    requires key in counter ==> !Live(counter[key], now, config.windowMs)
    requires Fits(config, counter, now, [(Reserve(key), now)] + ops)
    requires Within(ops, now, now + config.windowMs)
    requires forall o :: o in ops ==> o.0 != Reset(key)
    ensures var run := [(Reserve(key), now)] + ops;
            && |Run(config, s, run)| == |run|
            && AllowedTo(run, Run(config, s, run), key) >= 1
            && GrantsFit(config.limit - 1, Failed(ops, key), Asked(ops, key), AllowedTo(run, Run(config, s, run), key) - 1)
            && (Failed(ops, key) == 0 ==> AllowedTo(run, Run(config, s, run), key) == Min(config.limit, 1 + Asked(ops, key)))
  {
    var run := [(Reserve(key), now)] + ops;
    RunRefines(config, s, counter, now, run);
    AllowedIsGranted(config, counter, run, key);
    WindowGrantsLimit(config, counter, now, ops, key);
  }
}
