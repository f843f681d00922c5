/**
 * A worker's lease runtime: the work loop, the renewal loop of the lease it holds, and `stop`,
 * interleaved at every await. Times are whole milliseconds and there is no jitter.
 */
module LeaseRuntime {
  import opened Arithmetic

  // ---------------------------------------------------------------- the wait between attempts

  /** The wait after `attempt` failures: the base doubled each time, up to the longest wait. */
  function BoundedBackoff(attempt: int, baseMs: int, maxMs: int): int {
    Min(Max(1, maxMs), Pow2(Max(0, Min(20, attempt))) * Max(1, baseMs))
  }

  /** Waits never shrink with more failures, are at least a millisecond and at most the longest wait (or one, if that is less). */
  lemma BackoffGrows(a: int, b: int, baseMs: int, maxMs: int)
    requires a <= b
    ensures 1 <= BoundedBackoff(a, baseMs, maxMs) <= BoundedBackoff(b, baseMs, maxMs) <= Max(1, maxMs)
  {
    var m, n := Max(0, Min(20, a)), Max(0, Min(20, b));
    Pow2Grows(m, n);
    var base := Max(1, baseMs);
    MulOrder(Pow2(m), Pow2(n), base);
    MulOrder(1, Pow2(m), base);
  }

  /** The first wait is the base, each next one twice the wait before as long as that fits, for twenty failures. */
  lemma BackoffDoubles(attempt: int, baseMs: int, maxMs: int)
    ensures attempt <= 0 ==> BoundedBackoff(attempt, baseMs, maxMs) == Min(Max(1, maxMs), Max(1, baseMs))
    ensures 0 <= attempt < 20 ==>
              BoundedBackoff(attempt + 1, baseMs, maxMs) == Min(Max(1, maxMs), 2 * BoundedBackoff(attempt, baseMs, maxMs))
    ensures attempt >= 20 ==> BoundedBackoff(attempt, baseMs, maxMs) == BoundedBackoff(20, baseMs, maxMs)
  {
    if 0 <= attempt < 20 {
      var base := Max(1, baseMs);
      assert Pow2(attempt + 1) == 2 * Pow2(attempt);
      Twice(Pow2(attempt), base);
      BackoffGrows(attempt, attempt, baseMs, maxMs);
    }
  }

  lemma Twice(a: int, m: int)
    ensures 2 * a * m == 2 * (a * m)
  {
  }

  // ---------------------------------------------------------------- the runtime

  datatype LoopPc =
    | Stopped
    | Top
    | Acquiring
    | Granted
    | SleepingAfterMiss
    | SleepingAfterError
    | Working
    | AwaitingRenewal(ok: bool)
    | Releasing(ok: bool)

  datatype RenewalPc = Asleep | Renewing | Over

  /** One lease's guard: it owns the lease until it is marked lost or its signal aborts. */
  datatype Guard = Guard(lost: bool, aborted: bool) {
    predicate Owned() { !lost && !aborted }
  }

  /** What the outside sees; leases are numbered in the order they were held. */
  datatype Event =
    | Held(k: nat)
    | Ready(k: nat)
    | RenewalOver(k: nat)
    | NotReady(k: nat)
    | Released(k: nat)
    | Waited(ms: int)

  datatype Config = Config(idleMs: int, maxBackoffMs: int)

  datatype Runtime = Runtime(
    loop: LoopPc,
    renewal: RenewalPc,
    aborted: bool,
    listening: bool,
    active: bool,
    failures: nat,
    guards: seq<Guard>,
    trace: seq<Event>)

  const IDLE := Runtime(Stopped, Over, false, false, false, 0, [], [])

  datatype Action =
    | Start
    | Stop
    | Turn
    | Acquired
    | Missed
    | AcquireThrew
    | Hold
    | SleepEnds
    | SleepAborts
    | RenewalWakes
    | RenewalSleepAborts
    | Renewed
    | RenewFailed
    | WorkEnds(ok: bool)
    | Finish
    | ReleaseSettles

  function Current(r: Runtime): Guard
    requires r.guards != []
  {
    r.guards[|r.guards| - 1]
  }

  function WithGuard(r: Runtime, guard: Guard): Runtime
    requires r.guards != []
  {
    r.(guards := r.guards[|r.guards| - 1 := guard])
  }

  function Log(r: Runtime, e: Event): Runtime { r.(trace := r.trace + [e]) }

  predicate Holding(pc: LoopPc) { pc.Working? || pc.AwaitingRenewal? }

  /** `acquire` rejects once its signal aborts; every other await can go either way its code allows. */
  predicate Enabled(r: Runtime, a: Action) {
    match a
    case Start => true
    case Stop => true
    case Turn => r.loop == Top
    case Acquired => r.loop == Acquiring && !r.aborted
    case Missed => r.loop == Acquiring
    case AcquireThrew => r.loop == Acquiring
    case Hold => r.loop == Granted
    case SleepEnds => r.loop in {SleepingAfterMiss, SleepingAfterError}
    case SleepAborts => r.loop in {SleepingAfterMiss, SleepingAfterError} && r.aborted
    case RenewalWakes => Holding(r.loop) && r.renewal == Asleep
    case RenewalSleepAborts => Holding(r.loop) && r.renewal == Asleep && r.guards != [] && Current(r).aborted
    case Renewed => Holding(r.loop) && r.renewal == Renewing
    case RenewFailed => Holding(r.loop) && r.renewal == Renewing
    case WorkEnds(_) => r.loop == Working
    case Finish => r.loop.AwaitingRenewal? && r.renewal == Over
    case ReleaseSettles => r.loop.Releasing?
  }

  /** `stop`: the signal aborts once, which reaches the held lease through its listener; its guard is marked lost. */
  function Stopping(r: Runtime): Runtime
    requires r.listening || r.active ==> r.guards != []
  {
    var told := if !r.aborted && r.listening then WithGuard(r, Current(r).(aborted := true)) else r;
    var lost := if r.active then WithGuard(told, Current(told).(lost := true)) else told;
    lost.(aborted := true)
  }

  /** The catch clause of the loop. */
  function Caught(config: Config, r: Runtime): Runtime {
    if r.aborted then r.(loop := Stopped)
    else
      var failures := Min(r.failures + 1, 20);
      Log(r.(failures := failures, loop := SleepingAfterError),
          Waited(BoundedBackoff(failures, config.idleMs, config.maxBackoffMs)))
  }

  /** The catch clause of the renewal loop: a failure of its own loses the lease, an abort just ends it. */
  function RenewalCaught(r: Runtime): Runtime
    requires r.guards != []
  {
    var told := if Current(r).aborted then r else WithGuard(r, Guard(true, true));
    Log(told.(renewal := Over), RenewalOver(|r.guards| - 1))
  }

  /** The finally clause of a lease, once its renewal loop is over. */
  function Finished(r: Runtime, ok: bool): Runtime
    requires r.guards != []
  {
    var k := |r.guards| - 1;
    r.(listening := false, active := false, loop := Releasing(ok), trace := r.trace + [NotReady(k)] + [Released(k)])
  }

  function Step(config: Config, r: Runtime, a: Action): Runtime
    requires Enabled(r, a)
    requires r.listening || r.active || Holding(r.loop) || r.loop.Releasing? ==> r.guards != []
  {
    match a
    case Start => if r.loop == Stopped then r.(loop := Top, failures := 0) else r
    case Stop => Stopping(r)
    case Turn => r.(loop := if r.aborted then Stopped else Acquiring)
    case Acquired => r.(loop := Granted)
    case Missed =>
      Log(r.(loop := SleepingAfterMiss), Waited(BoundedBackoff(r.failures, config.idleMs, config.maxBackoffMs)))
    case AcquireThrew => Caught(config, r)
    case Hold =>
      Log(r.(loop := Working, renewal := Asleep, listening := !r.aborted, active := true, failures := 0,
             guards := r.guards + [Guard(false, false)]),
          Held(|r.guards|))
    case SleepEnds =>
      if r.loop == SleepingAfterMiss then r.(loop := Top, failures := Min(r.failures + 1, 20)) else r.(loop := Top)
    case SleepAborts => if r.loop == SleepingAfterMiss then Caught(config, r) else r.(loop := Top)
    case RenewalWakes => if Current(r).Owned() then r.(renewal := Renewing) else RenewalCaught(r)
    case RenewalSleepAborts => RenewalCaught(r)
    case Renewed =>
      var told := Log(r, Ready(|r.guards| - 1));
      if Current(r).aborted then Log(told.(renewal := Over), RenewalOver(|r.guards| - 1))
      else told.(renewal := Asleep)
    case RenewFailed => RenewalCaught(r)
    case WorkEnds(ok) =>
      WithGuard(r, Current(r).(aborted := true)).(loop := AwaitingRenewal(ok && Current(r).Owned()))
    case Finish => Finished(r, r.loop.ok)
    case ReleaseSettles => if r.loop.ok then r.(loop := Top) else Caught(config, r)
  }

  // ---------------------------------------------------------------- the order of a lease's events

  /** The milestones of lease k are 4k to 4k+3: held, renewal over, not ready, released. */
  function Milestone(e: Event): int {
    match e
    case Held(k) => 4 * k
    case RenewalOver(k) => 4 * k + 1
    case NotReady(k) => 4 * k + 2
    case Released(k) => 4 * k + 3
    case _ => -1
  }

  /** An event fits after `passed` milestones: the next one, a heartbeat of a lease being renewed, or a wait between leases. */
  predicate Fits(passed: nat, e: Event) {
    match e
    case Ready(k) => passed == 4 * k + 1
    case Waited(_) => passed % 4 == 0
    case _ => Milestone(e) == passed
  }

  function Passed(trace: seq<Event>): nat {
    if trace == [] then 0
    else Passed(trace[..|trace| - 1]) + if Milestone(trace[|trace| - 1]) >= 0 then 1 else 0
  }

  predicate Orderly(trace: seq<Event>) {
    trace == [] || (Orderly(trace[..|trace| - 1]) && Fits(Passed(trace[..|trace| - 1]), trace[|trace| - 1]))
  }

  lemma LogOrderly(trace: seq<Event>, e: Event)
    requires Orderly(trace) && Fits(Passed(trace), e)
    ensures Orderly(trace + [e])
    ensures Passed(trace + [e]) == Passed(trace) + if Milestone(e) >= 0 then 1 else 0
  {
    assert (trace + [e])[..|trace|] == trace;
  }

  // ---------------------------------------------------------------- the waits

  /** The waits asked for since a lease was last held, oldest first. */
  function WaitsSinceHeld(trace: seq<Event>): seq<int> {
    if trace == [] || trace[|trace| - 1].Held? then []
    else
      var before := WaitsSinceHeld(trace[..|trace| - 1]);
      if trace[|trace| - 1].Waited? then before + [trace[|trace| - 1].ms] else before
  }

  ghost predicate Climbing(waits: seq<int>, bound: int) {
    && (forall i, j :: 0 <= i < j < |waits| ==> waits[i] <= waits[j])
    && (forall i :: 0 <= i < |waits| ==> 1 <= waits[i] <= bound)
  }

  lemma WaitsStep(trace: seq<Event>, e: Event)
    ensures WaitsSinceHeld(trace + [e])
         == if e.Held? then [] else if e.Waited? then WaitsSinceHeld(trace) + [e.ms] else WaitsSinceHeld(trace)
  {
    assert (trace + [e])[..|trace|] == trace;
  }

  // ---------------------------------------------------------------- what every step keeps

  /** How many milestones lie behind, by where the loops stand. */
  function PassedAt(r: Runtime): int {
    if Holding(r.loop) then 4 * (|r.guards| - 1) + (if r.renewal == Over then 2 else 1) else 4 * |r.guards|
  }

  ghost predicate InOrder(r: Runtime) { Orderly(r.trace) && Passed(r.trace) == PassedAt(r) }

  /** A guard whose lease is no longer being worked on has its signal aborted. */
  ghost predicate GuardsFit(r: Runtime) {
    && (Holding(r.loop) || r.loop.Releasing? ==> r.guards != [])
    && (forall k :: 0 <= k < |r.guards| && (k < |r.guards| - 1 || r.loop != Working) ==> r.guards[k].aborted)
    && (r.active <==> Holding(r.loop))
    && (r.listening ==> r.active)
    && (r.active && !r.aborted ==> r.listening)
  }

  ghost predicate WaitsFit(config: Config, r: Runtime) {
    && r.failures <= 20
    && (r.loop == Stopped ==> r.aborted || r.trace == [])
    && ((r.aborted && r.loop in {Stopped, Top})
        || Climbing(WaitsSinceHeld(r.trace), BoundedBackoff(r.failures, config.idleMs, config.maxBackoffMs)))
    && Climbing(WaitsSinceHeld(r.trace), Max(1, config.maxBackoffMs))
  }

  ghost predicate Inv(config: Config, r: Runtime) { InOrder(r) && GuardsFit(r) && WaitsFit(config, r) }

  lemma LogKeepsOrder(r: Runtime, before: Runtime, e: Event)
    requires InOrder(before) && Fits(PassedAt(before), e)
    requires r.trace == before.trace + [e]
    requires PassedAt(r) == PassedAt(before) + if Milestone(e) >= 0 then 1 else 0
    ensures InOrder(r)
  {
    LogOrderly(before.trace, e);
  }

  lemma QuietKeepsWaits(config: Config, r: Runtime, e: Event)
    requires WaitsFit(config, r) && !e.Waited? && !e.Held?
    ensures WaitsSinceHeld(r.trace + [e]) == WaitsSinceHeld(r.trace)
  {
    WaitsStep(r.trace, e);
  }

  lemma RenewalCaughtKeeps(config: Config, r: Runtime)
    requires Inv(config, r) && Holding(r.loop) && r.renewal != Over
    ensures Inv(config, RenewalCaught(r))
  {
    var after := RenewalCaught(r);
    LogKeepsOrder(after, r, RenewalOver(|r.guards| - 1));
    QuietKeepsWaits(config, r, RenewalOver(|r.guards| - 1));
  }

  lemma WaitKeeps(config: Config, r: Runtime, failures: nat, loop: LoopPc)
    requires Inv(config, r) && !Holding(r.loop) && !(r.loop in {Stopped, Top})
    requires r.failures <= failures <= 20 && loop in {SleepingAfterMiss, SleepingAfterError}
    ensures Inv(config, Log(r.(failures := failures, loop := loop),
                            Waited(BoundedBackoff(failures, config.idleMs, config.maxBackoffMs))))
  {
    var e := Waited(BoundedBackoff(failures, config.idleMs, config.maxBackoffMs));
    BackoffGrows(r.failures, failures, config.idleMs, config.maxBackoffMs);
    WaitsStep(r.trace, e);
    LogKeepsOrder(Log(r.(failures := failures, loop := loop), e), r, e);
  }

  lemma CaughtKeeps(config: Config, r: Runtime)
    requires Inv(config, r) && !Holding(r.loop) && !(r.loop in {Stopped, Top})
    ensures Inv(config, Caught(config, r))
  {
    if !r.aborted { WaitKeeps(config, r, Min(r.failures + 1, 20), SleepingAfterError); }
  }

  lemma StopKeeps(config: Config, r: Runtime)
    requires Inv(config, r)
    ensures Inv(config, Stopping(r))
  {
  }

  lemma HoldKeeps(config: Config, r: Runtime)
    requires Inv(config, r) && r.loop == Granted
    ensures Inv(config, Step(config, r, Hold))
  {
    LogKeepsOrder(Step(config, r, Hold), r, Held(|r.guards|));
    WaitsStep(r.trace, Held(|r.guards|));
  }

  lemma ReadyKeeps(config: Config, r: Runtime)
    requires Inv(config, r) && Enabled(r, Renewed)
    ensures Inv(config, Log(r, Ready(|r.guards| - 1)))
  {
    var k := |r.guards| - 1;
    LogKeepsOrder(Log(r, Ready(k)), r, Ready(k));
    QuietKeepsWaits(config, r, Ready(k));
  }

  lemma RenewedKeeps(config: Config, r: Runtime)
    requires Inv(config, r) && Enabled(r, Renewed)
    ensures Inv(config, Step(config, r, Renewed))
  {
    var told := Log(r, Ready(|r.guards| - 1));
    ReadyKeeps(config, r);
    RenewedIs(config, r, told);
    if Current(r).aborted {
      OverKeeps(config, told);
      SameKeeps(config, Log(told.(renewal := Over), RenewalOver(|r.guards| - 1)), Step(config, r, Renewed));
    } else {
      AsleepKeeps(config, told);
      SameKeeps(config, told.(renewal := Asleep), Step(config, r, Renewed));
    }
  }

  lemma SameKeeps(config: Config, r: Runtime, same: Runtime)
    requires Inv(config, r) && r == same
    ensures Inv(config, same)
  {
  }

  lemma RenewedIs(config: Config, r: Runtime, told: Runtime)
    requires Enabled(r, Renewed) && r.guards != [] && told == Log(r, Ready(|r.guards| - 1))
    ensures Step(config, r, Renewed)
         == if Current(r).aborted then Log(told.(renewal := Over), RenewalOver(|r.guards| - 1)) else told.(renewal := Asleep)
  {
  }

  lemma AsleepKeeps(config: Config, r: Runtime)
    requires Inv(config, r) && Enabled(r, Renewed)
    ensures Inv(config, r.(renewal := Asleep))
  {
  }

  lemma OverKeeps(config: Config, r: Runtime)
    requires Inv(config, r) && Enabled(r, Renewed) && Current(r).aborted
    ensures Inv(config, Log(r.(renewal := Over), RenewalOver(|r.guards| - 1)))
  {
    var k := |r.guards| - 1;
    LogKeepsOrder(Log(r.(renewal := Over), RenewalOver(k)), r, RenewalOver(k));
    QuietKeepsWaits(config, r, RenewalOver(k));
  }

  lemma FinishTrace(trace: seq<Event>, k: nat)
    requires Orderly(trace) && Passed(trace) == 4 * k + 2
    ensures var after := trace + [NotReady(k)] + [Released(k)];
            Orderly(after) && Passed(after) == 4 * k + 4 && WaitsSinceHeld(after) == WaitsSinceHeld(trace)
  {
    LogOrderly(trace, NotReady(k));
    LogOrderly(trace + [NotReady(k)], Released(k));
    WaitsStep(trace, NotReady(k));
    WaitsStep(trace + [NotReady(k)], Released(k));
  }

  lemma FinishKeeps(config: Config, r: Runtime)
    requires Inv(config, r) && r.loop.AwaitingRenewal? && r.renewal == Over
    ensures Inv(config, Finished(r, r.loop.ok))
  {
    FinishTrace(r.trace, |r.guards| - 1);
  }

  lemma PlainKeeps(config: Config, r: Runtime, a: Action)
    requires Inv(config, r) && Enabled(r, a)
    requires a in {Start, Turn, Acquired, SleepEnds, WorkEnds(true), WorkEnds(false)}
    ensures Inv(config, Step(config, r, a))
  {
    if r.loop == SleepingAfterMiss {
      BackoffGrows(r.failures, Min(r.failures + 1, 20), config.idleMs, config.maxBackoffMs);
    }
  }

  lemma StepKeeps(config: Config, r: Runtime, a: Action)
    requires Inv(config, r) && Enabled(r, a)
    ensures Inv(config, Step(config, r, a))
  {
    match a
    case Start | Turn | Acquired | SleepEnds | WorkEnds(_) => PlainKeeps(config, r, a);
    case Stop => StopKeeps(config, r);
    case Missed => WaitKeeps(config, r, r.failures, SleepingAfterMiss);
    case AcquireThrew => CaughtKeeps(config, r);
    case Hold => HoldKeeps(config, r);
    case SleepAborts => if r.loop == SleepingAfterMiss { CaughtKeeps(config, r); }
    case RenewalWakes => if !Current(r).Owned() { RenewalCaughtKeeps(config, r); }
    case RenewalSleepAborts | RenewFailed => RenewalCaughtKeeps(config, r);
    case Renewed => RenewedKeeps(config, r);
    case Finish => FinishKeeps(config, r);
    case ReleaseSettles => if !r.loop.ok { CaughtKeeps(config, r); }
  }

  // ---------------------------------------------------------------- whole runs

  ghost predicate Possible(config: Config, r: Runtime, actions: seq<Action>)
    requires Inv(config, r)
    decreases |actions|
  {
    actions == [] ||
    (Enabled(r, actions[0]) && (StepKeeps(config, r, actions[0]); Possible(config, Step(config, r, actions[0]), actions[1..])))
  }

  ghost function Run(config: Config, r: Runtime, actions: seq<Action>): (after: Runtime)
    requires Inv(config, r) && Possible(config, r, actions)
    ensures Inv(config, after)
    decreases |actions|
  {
    if actions == [] then r
    else
      StepKeeps(config, r, actions[0]);
      Run(config, Step(config, r, actions[0]), actions[1..])
  }

  /** Before the first start everything the steps keep holds. */
  lemma IdleHolds(config: Config)
    ensures Inv(config, IDLE)
  {
  }

  ghost predicate PossibleFromIdle(config: Config, actions: seq<Action>) {
    IdleHolds(config);
    Possible(config, IDLE, actions)
  }

  /** The runtime after some actions from the start. */
  ghost function Reached(config: Config, actions: seq<Action>): (r: Runtime)
    requires PossibleFromIdle(config, actions)
    ensures Inv(config, r)
  {
    IdleHolds(config);
    Run(config, IDLE, actions)
  }

  /** Between leases the waits never shrink, and none is longer than the longest wait. */
  lemma WaitsClimb(config: Config, actions: seq<Action>)
    requires PossibleFromIdle(config, actions)
    ensures Climbing(WaitsSinceHeld(Reached(config, actions).trace), Max(1, config.maxBackoffMs))
  {
  }

  // ---------------------------------------------------------------- each lease's life

  /** Where a milestone was passed. */
  lemma {:induction false} MilestoneAt(trace: seq<Event>, m: nat) returns (i: nat)
    requires Orderly(trace) && m < Passed(trace)
    ensures i < |trace| && Milestone(trace[i]) == m && Passed(trace[..i]) == m
  {
    var n := |trace| - 1;
    if Milestone(trace[n]) == m { i := n; } else {
      i := MilestoneAt(trace[..n], m);
      assert trace[..n][..i] == trace[..i];
    }
  }

  lemma {:induction false} PassedGrows(trace: seq<Event>, i: nat, j: nat)
    requires i <= j <= |trace|
    ensures Passed(trace[..i]) <= Passed(trace[..j])
    decreases j
  {
    if i < j {
      PassedGrows(trace, i, j - 1);
      assert trace[..j][..j - 1] == trace[..j - 1];
    }
  }

  lemma {:induction false} OrderlyAt(trace: seq<Event>, i: nat)
    requires Orderly(trace) && i < |trace|
    ensures Fits(Passed(trace[..i]), trace[i])
    ensures Passed(trace[..i + 1]) == Passed(trace[..i]) + if Milestone(trace[i]) >= 0 then 1 else 0
    decreases |trace|
  {
    var n := |trace| - 1;
    assert trace[..i + 1][..i] == trace[..i];
    if i < n {
      OrderlyAt(trace[..n], i);
      assert trace[..n][..i] == trace[..i];
    }
  }

  /** Earlier events lie at no later milestone; each milestone is passed once. */
  lemma EventsInOrder(trace: seq<Event>, i: nat, j: nat)
    requires Orderly(trace) && i < j < |trace|
    ensures Milestone(trace[i]) >= 0 && Milestone(trace[j]) >= 0 ==> Milestone(trace[i]) < Milestone(trace[j])
    ensures Milestone(trace[i]) >= 0 && trace[j].Ready? ==> Milestone(trace[i]) <= 4 * trace[j].k
    ensures trace[i].Ready? && Milestone(trace[j]) >= 0 ==> 4 * trace[i].k < Milestone(trace[j])
  {
    OrderlyAt(trace, i);
    OrderlyAt(trace, j);
    PassedGrows(trace, i + 1, j);
  }

  /** At most one lease is held at a time: a later one is held only after the earlier one was released. */
  lemma OneLeaseAtATime(trace: seq<Event>, i: nat, j: nat)
    requires Orderly(trace) && i < j < |trace| && trace[i].Held? && trace[j].Held?
    ensures exists r :: i < r < j && trace[r] == Released(trace[i].k)
  {
    EventsInOrder(trace, i, j);
    OrderlyAt(trace, j);
    var r := MilestoneBefore(trace, j, 4 * trace[i].k + 3);
    if r < i { EventsInOrder(trace, r, i); }
    assert trace[r] == Released(trace[i].k);
  }

  lemma MilestoneBefore(trace: seq<Event>, j: nat, m: nat) returns (r: nat)
    requires Orderly(trace) && j < |trace| && m < Passed(trace[..j])
    ensures r < j && Milestone(trace[r]) == m
  {
    OrderlyPrefix(trace, j);
    r := MilestoneAt(trace[..j], m);
    assert trace[..j][r] == trace[r];
  }

  lemma {:induction false} OrderlyPrefix(trace: seq<Event>, n: nat)
    requires Orderly(trace) && n <= |trace|
    ensures Orderly(trace[..n])
    decreases |trace|
  {
    if n < |trace| {
      OrderlyPrefix(trace[..|trace| - 1], n);
      assert trace[..|trace| - 1][..n] == trace[..n];
    } else {
      assert trace[..n] == trace;
    }
  }

  /**
   * A lease is released exactly once, after its renewal loop ended and after its one heartbeat that
   * it is not ready; every heartbeat that it is ready came before.
   */
  lemma ReleasedOnceInOrder(trace: seq<Event>, i: nat)
    requires Orderly(trace) && i < |trace| && trace[i].Released?
    ensures forall j :: 0 <= j < |trace| && trace[j] == trace[i] ==> j == i
    ensures exists over, down :: 0 <= over < down < i && trace[over] == RenewalOver(trace[i].k) && trace[down] == NotReady(trace[i].k)
    ensures forall b, down | 0 <= b < |trace| && 0 <= down < |trace| ::
              trace[b] == Ready(trace[i].k) && trace[down] == NotReady(trace[i].k) ==> b < down
  {
    var k := trace[i].k;
    OrderlyAt(trace, i);
    var over := MilestoneBefore(trace, i, 4 * k + 1);
    var down := MilestoneBefore(trace, i, 4 * k + 2);
    if down < over { EventsInOrder(trace, down, over); }
    forall j | 0 <= j < |trace| && trace[j] == trace[i] ensures j == i {
      if j < i { EventsInOrder(trace, j, i); }
      if i < j { EventsInOrder(trace, i, j); }
    }
    forall b, d | 0 <= b < |trace| && 0 <= d < |trace| && trace[b] == Ready(k) && trace[d] == NotReady(k) ensures b < d {
      if d < b { EventsInOrder(trace, d, b); }
    }
  }

  /** On every run, when the loop is between leases every lease held so far has been released. */
  lemma EveryLeaseReleased(config: Config, actions: seq<Action>, k: nat)
    requires PossibleFromIdle(config, actions)
    requires var r := Reached(config, actions); k < |r.guards| && (k < |r.guards| - 1 || !Holding(r.loop))
    ensures Orderly(Reached(config, actions).trace)
    ensures Held(k) in Reached(config, actions).trace && Released(k) in Reached(config, actions).trace
  {
    var r := Reached(config, actions);
    var i := MilestoneAt(r.trace, 4 * k);
    var j := MilestoneAt(r.trace, 4 * k + 3);
    assert r.trace[i] == Held(k) && r.trace[j] == Released(k);
  }

  // ---------------------------------------------------------------- ownership

  lemma RefusedStays(config: Config, r: Runtime, a: Action, k: nat)
    requires Inv(config, r) && Enabled(r, a) && k < |r.guards| && !r.guards[k].Owned()
    ensures k < |Step(config, r, a).guards| && !Step(config, r, a).guards[k].Owned()
  {
  }

  /** A guard that has once refused refuses for ever, whatever happens next. */
  lemma {:induction false} RefusedForEver(config: Config, r: Runtime, actions: seq<Action>, k: nat)
    requires Inv(config, r) && Possible(config, r, actions) && k < |r.guards| && !r.guards[k].Owned()
    ensures k < |Run(config, r, actions).guards| && !Run(config, r, actions).guards[k].Owned()
    decreases |actions|
  {
    if actions != [] {
      StepKeeps(config, r, actions[0]);
      RefusedStays(config, r, actions[0], k);
      RefusedForEver(config, Step(config, r, actions[0]), actions[1..], k);
    }
  }

  ghost predicate OwnsNothing(r: Runtime) { forall k :: 0 <= k < |r.guards| ==> !r.guards[k].Owned() }

  /** After stop, with no grant on its way, nothing is owned and nothing is acquired again. */
  ghost predicate Ended(r: Runtime) {
    r.aborted && r.loop != Granted && OwnsNothing(r)
  }

  lemma EndedStays(config: Config, r: Runtime, a: Action)
    requires Inv(config, r) && Ended(r) && Enabled(r, a)
    ensures Ended(Step(config, r, a)) && |Step(config, r, a).guards| == |r.guards|
  {
  }

  lemma {:induction false} EndedForEver(config: Config, r: Runtime, actions: seq<Action>)
    requires Inv(config, r) && Ended(r) && Possible(config, r, actions)
    ensures Ended(Run(config, r, actions)) && |Run(config, r, actions).guards| == |r.guards|
    decreases |actions|
  {
    if actions != [] {
      EndedStays(config, r, actions[0]);
      StepKeeps(config, r, actions[0]);
      EndedForEver(config, Step(config, r, actions[0]), actions[1..]);
    }
  }

  lemma StopEnds(config: Config, r: Runtime)
    requires Inv(config, r) && r.loop != Granted
    ensures Ended(Step(config, r, Stop))
  {
  }

  /**
   * Stop ends all ownership for ever exactly when it does not fall between an acquired lease and the
   * loop's taking hold of it: such a lease is worked on after stop, under a guard that owns it.
   */
  lemma StopEndsOwnershipExactly(config: Config, r: Runtime)
    requires Inv(config, r) && !r.aborted
    ensures Inv(config, Step(config, r, Stop))
    ensures (forall actions | Possible(config, Step(config, r, Stop), actions) ::
               OwnsNothing(Run(config, Step(config, r, Stop), actions)))
       <==> r.loop != Granted
  {
    StepKeeps(config, r, Stop);
    var stopped := Step(config, r, Stop);
    if r.loop != Granted {
      StopEnds(config, r);
      forall actions | Possible(config, stopped, actions)
        ensures OwnsNothing(Run(config, stopped, actions))
      {
        EndedForEver(config, stopped, actions);
      }
    } else {
      StepKeeps(config, stopped, Hold);
      var held := Step(config, stopped, Hold);
      assert [Hold][1..] == [];
      assert Possible(config, held, []);
      assert Possible(config, stopped, [Hold]);
      assert Run(config, held, []) == held;
      assert Run(config, stopped, [Hold]) == held;
      assert held.guards[|held.guards| - 1].Owned();
      assert !OwnsNothing(Run(config, stopped, [Hold]));
    }
  }

  /** A grant on its way when stop comes is no hypothetical state: three steps from the start lead to one. */
  lemma GrantIsReachable(config: Config)
    ensures PossibleFromIdle(config, [Start, Turn, Acquired])
    ensures Reached(config, [Start, Turn, Acquired]).loop == Granted && !Reached(config, [Start, Turn, Acquired]).aborted
  {
    IdleHolds(config);
    StepKeeps(config, IDLE, Start);
    var started := Step(config, IDLE, Start);
    StepKeeps(config, started, Turn);
    var acquiring := Step(config, started, Turn);
    StepKeeps(config, acquiring, Acquired);
    var granted := Step(config, acquiring, Acquired);
    assert Possible(config, granted, []) && Run(config, granted, []) == granted;
    RunFirst(config, acquiring, Acquired, []);
    RunFirst(config, started, Turn, [Acquired]);
    RunFirst(config, IDLE, Start, [Turn, Acquired]);
    assert [Start] + [Turn, Acquired] == [Start, Turn, Acquired] && [Turn] + [Acquired] == [Turn, Acquired];
    assert [Acquired] + [] == [Acquired];
  }

  lemma RunFirst(config: Config, r: Runtime, a: Action, rest: seq<Action>)
    requires Inv(config, r) && Enabled(r, a) && Inv(config, Step(config, r, a)) && Possible(config, Step(config, r, a), rest)
    ensures Possible(config, r, [a] + rest) && Run(config, r, [a] + rest) == Run(config, Step(config, r, a), rest)
  {
    assert ([a] + rest)[1..] == rest;
  }

  // ---------------------------------------------------------------- no work without renewal

  /** While a lease is held, its renewal loop is going on or its guard refuses. */
  predicate Attended(r: Runtime) { Holding(r.loop) && r.guards != [] && r.renewal == Over ==> !Current(r).Owned() }

  lemma RenewedOrRefused(config: Config, r: Runtime, a: Action)
    requires Inv(config, r) && Attended(r) && Enabled(r, a)
    ensures Attended(Step(config, r, a))
  {
  }

  lemma {:induction false} RunRenewedOrRefused(config: Config, r: Runtime, actions: seq<Action>)
    requires Inv(config, r) && Possible(config, r, actions) && Attended(r)
    ensures Attended(Run(config, r, actions))
    decreases |actions|
  {
    if actions != [] {
      StepKeeps(config, r, actions[0]);
      RenewedOrRefused(config, r, actions[0]);
      RunRenewedOrRefused(config, Step(config, r, actions[0]), actions[1..]);
    }
  }

  /** On every run, work whose lease nobody renews any more is under a guard that refuses. */
  lemma NoWorkWithoutRenewal(config: Config, actions: seq<Action>)
    requires PossibleFromIdle(config, actions)
    ensures var r := Reached(config, actions);
      r.loop == Working && r.renewal == Over ==> r.guards != [] && !r.guards[|r.guards| - 1].Owned()
  {
    IdleHolds(config);
    RunRenewedOrRefused(config, IDLE, actions);
  }

  /** A failed renewal takes the lease away at once, and whatever happens next it is never owned again. */
  lemma FailedRenewalEndsOwnership(config: Config, r: Runtime, actions: seq<Action>)
    requires Inv(config, r) && Enabled(r, RenewFailed)
    requires Inv(config, Step(config, r, RenewFailed)) && Possible(config, Step(config, r, RenewFailed), actions)
    ensures r.guards != [] && Step(config, r, RenewFailed).loop == r.loop
    ensures var k := |r.guards| - 1;
      var after := Run(config, Step(config, r, RenewFailed), actions);
      k < |after.guards| && !after.guards[k].Owned()
  {
    RefusedForEver(config, Step(config, r, RenewFailed), actions, |r.guards| - 1);
  }

  /** Stop reaches a lease that is held: its guard is lost and its work's signal aborts, while the loop goes on to the end of the work. */
  lemma StopTellsTheWork(config: Config, r: Runtime)
    requires Inv(config, r) && Holding(r.loop) && !r.aborted
    ensures var stopped := Step(config, r, Stop);
            && stopped.guards == r.guards[..|r.guards| - 1] + [Guard(true, true)]
            && stopped == r.(aborted := true, guards := stopped.guards)
  {
  }

  /** A waiting renewal loop asks for a renewal exactly when its guard still owns the lease; a refusing guard ends it. */
  lemma RenewsOnlyOwned(config: Config, r: Runtime)
    requires Inv(config, r) && Enabled(r, RenewalWakes)
    ensures Step(config, r, RenewalWakes).renewal == if Current(r).Owned() then Renewing else Over
  {
  }

  /** How many turns of the loop there can be until it ends, once it was told to stop. */
  function TurnsLeft(loop: LoopPc): nat {
    match loop
    case Stopped => 0
    case Top => 1
    case SleepingAfterMiss => 2
    case SleepingAfterError => 2
    case Releasing(_) => 2
    case Acquiring => 3
    case AwaitingRenewal(_) => 3
    case Working => 4
    case Granted => 5
  }

  predicate OfLoop(a: Action) {
    a in {Turn, Acquired, Missed, AcquireThrew, Hold, SleepEnds, SleepAborts, Finish, ReleaseSettles} || a.WorkEnds?
  }

  /** Once stopped the loop ends: each of its turns brings it closer, whatever they come back with, and nothing else moves it. */
  lemma StopWindsDown(config: Config, r: Runtime, a: Action)
    requires Inv(config, r) && r.aborted && Enabled(r, a) && a != Start
    ensures Step(config, r, a).aborted
    ensures OfLoop(a) ==> TurnsLeft(Step(config, r, a).loop) < TurnsLeft(r.loop)
    ensures !OfLoop(a) ==> Step(config, r, a).loop == r.loop
  {
  }

  /** No state is a dead end: a loop that has not ended can go on, if need be once its renewal loop is over. */
  lemma NeverStuck(config: Config, r: Runtime) returns (a: Action)
    requires Inv(config, r) && r.loop != Stopped
    ensures Enabled(r, a) && (OfLoop(a) || (r.loop.AwaitingRenewal? && Step(config, r, a).renewal == Over))
  {
    match r.loop
    case Top => a := Turn;
    case Acquiring => a := Missed;
    case Granted => a := Hold;
    case SleepingAfterMiss => a := SleepEnds;
    case SleepingAfterError => a := SleepEnds;
    case Working => a := WorkEnds(true);
    case AwaitingRenewal(_) =>
      a := if r.renewal == Over then Finish else if r.renewal == Asleep then RenewalSleepAborts else RenewFailed;
    case Releasing(_) => a := ReleaseSettles;
  }

  /** Starting again a loop that has not ended changes nothing; one that has begins at its top with no failures counted. */
  lemma StartsOnce(config: Config, r: Runtime)
    requires Inv(config, r)
    ensures Step(config, r, Start) == if r.loop == Stopped then r.(loop := Top, failures := 0) else r
  {
  }

  // ---------------------------------------------------------------- what a run is for

  /** The actions are possible one after the other and lead from one state to the other. */
  ghost predicate Leads(config: Config, r: Runtime, actions: seq<Action>, after: Runtime) {
    Inv(config, r) && Possible(config, r, actions) && Run(config, r, actions) == after
  }

  lemma LeadsNowhere(config: Config, r: Runtime)
    requires Inv(config, r)
    ensures Leads(config, r, [], r)
  {
  }

  lemma LeadsFirst(config: Config, r: Runtime, a: Action, next: Runtime, rest: seq<Action>, after: Runtime)
    requires Inv(config, r) && Enabled(r, a) && Step(config, r, a) == next && Leads(config, next, rest, after)
    ensures Leads(config, r, [a] + rest, after)
  {
    StepKeeps(config, r, a);
    RunFirst(config, r, a, rest);
  }

  lemma LeadsRest(config: Config, r: Runtime, actions: seq<Action>, after: Runtime)
    requires Leads(config, r, actions, after) && actions != []
    ensures Enabled(r, actions[0]) && Inv(config, Step(config, r, actions[0]))
    ensures Leads(config, Step(config, r, actions[0]), actions[1..], after)
  {
    StepKeeps(config, r, actions[0]);
  }

  lemma {:induction false} LeadsOn(config: Config, r: Runtime, first: seq<Action>, between: Runtime, rest: seq<Action>, after: Runtime)
    requires Leads(config, r, first, between) && Leads(config, between, rest, after)
    ensures Leads(config, r, first + rest, after)
    decreases |first|
  {
    if first == [] {
      assert first + rest == rest;
    } else {
      LeadsRest(config, r, first, between);
      var next := Step(config, r, first[0]);
      LeadsOn(config, next, first[1..], between, rest, after);
      LeadsFirst(config, r, first[0], next, first[1..] + rest, after);
      assert first + rest == [first[0]] + (first[1..] + rest);
    }
  }

  function Readies(k: nat, n: nat): seq<Event> { if n == 0 then [] else [Ready(k)] + Readies(k, n - 1) }

  /** A lease is held, under an owning guard that nothing has aborted, and its renewal loop sleeps. */
  predicate HeldWell(r: Runtime) {
    r.loop == Working && r.renewal == Asleep && r.guards != [] && Current(r).Owned() && !r.aborted
  }

  lemma LeadsTwo(config: Config, r: Runtime, a: Action, between: Runtime, b: Action, after: Runtime)
    requires Inv(config, r) && Enabled(r, a) && Step(config, r, a) == between
    requires Inv(config, between) && Enabled(between, b) && Step(config, between, b) == after
    ensures Leads(config, r, [a] + ([b] + []), after)
  {
    StepKeeps(config, between, b);
    LeadsNowhere(config, after);
    LeadsFirst(config, between, b, after, [], after);
    LeadsFirst(config, r, a, between, [b] + [], after);
  }

  lemma OneRenewal(config: Config, r: Runtime)
    requires Inv(config, r) && HeldWell(r)
    ensures var k := |r.guards| - 1;
      Leads(config, r, [RenewalWakes] + ([Renewed] + []), r.(trace := r.trace + [Ready(k)]))
  {
    StepKeeps(config, r, RenewalWakes);
    LeadsTwo(config, r, RenewalWakes, r.(renewal := Renewing), Renewed, r.(trace := r.trace + [Ready(|r.guards| - 1)]));
  }

  /** Each renewal is one heartbeat that the worker is ready, and changes nothing else. */
  lemma {:induction false} Renewals(config: Config, r: Runtime, n: nat) returns (actions: seq<Action>)
    requires Inv(config, r) && HeldWell(r)
    ensures Leads(config, r, actions, r.(trace := r.trace + Readies(|r.guards| - 1, n)))
    decreases n
  {
    if n == 0 {
      actions := [];
      assert r.trace + [] == r.trace;
    } else {
      var k := |r.guards| - 1;
      var next := r.(trace := r.trace + [Ready(k)]);
      OneRenewal(config, r);
      var rest := Renewals(config, next, n - 1);
      actions := [RenewalWakes] + ([Renewed] + []) + rest;
      assert r.trace + [Ready(k)] + Readies(k, n - 1) == r.trace + Readies(k, n);
      LeadsOn(config, r, [RenewalWakes] + ([Renewed] + []), next, rest, r.(trace := r.trace + Readies(k, n)));
    }
  }

  /** The state once the work of a well-held lease ended and its renewal loop after it. */
  function WorkDone(r: Runtime): Runtime
    requires r.guards != []
  {
    r.(loop := AwaitingRenewal(true), renewal := Over, trace := r.trace + [RenewalOver(|r.guards| - 1)],
       guards := r.guards[|r.guards| - 1 := Guard(false, true)])
  }

  lemma WorkIsDone(config: Config, r: Runtime)
    requires Inv(config, r) && HeldWell(r)
    ensures Leads(config, r, [WorkEnds(true)] + ([RenewalSleepAborts] + []), WorkDone(r))
  {
    StepKeeps(config, r, WorkEnds(true));
    LeadsTwo(config, r, WorkEnds(true),
             r.(loop := AwaitingRenewal(true), guards := r.guards[|r.guards| - 1 := Guard(false, true)]),
             RenewalSleepAborts, WorkDone(r));
  }

  /** The state once a lease was let go of after its work. */
  function LetGo(r: Runtime): Runtime
    requires r.guards != []
  {
    var k := |r.guards| - 1;
    r.(loop := Top, listening := false, active := false, trace := r.trace + [NotReady(k)] + [Released(k)])
  }

  lemma IsLetGo(config: Config, r: Runtime)
    requires Inv(config, r) && r.loop == AwaitingRenewal(true) && r.renewal == Over
    ensures r.guards != [] && Leads(config, r, [Finish] + ([ReleaseSettles] + []), LetGo(r))
  {
    StepKeeps(config, r, Finish);
    LeadsTwo(config, r, Finish, LetGo(r).(loop := Releasing(true)), ReleaseSettles, LetGo(r));
  }

  /** The state once a granted lease is held and its renewal loop begun. */
  function HeldNow(r: Runtime): Runtime {
    r.(loop := Working, renewal := Asleep, listening := true, active := true, failures := 0,
       guards := r.guards + [Guard(false, false)], trace := r.trace + [Held(|r.guards|)])
  }

  lemma HoldAndRenew(config: Config, r: Runtime, n: nat) returns (actions: seq<Action>, after: Runtime)
    requires Inv(config, r) && r.loop == Granted && !r.aborted
    ensures after == HeldNow(r).(trace := r.trace + [Held(|r.guards|)] + Readies(|r.guards|, n))
    ensures Leads(config, r, actions, after)
  {
    StepKeeps(config, r, Hold);
    assert Step(config, r, Hold) == HeldNow(r);
    var renewals := Renewals(config, HeldNow(r), n);
    after := HeldNow(r).(trace := HeldNow(r).trace + Readies(|r.guards|, n));
    LeadsFirst(config, r, Hold, HeldNow(r), renewals, after);
    actions := [Hold] + renewals;
  }

  lemma WorkAndLetGo(config: Config, r: Runtime) returns (actions: seq<Action>)
    requires Inv(config, r) && HeldWell(r)
    ensures Leads(config, r, actions, LetGo(WorkDone(r)))
  {
    var first, rest := [WorkEnds(true)] + ([RenewalSleepAborts] + []), [Finish] + ([ReleaseSettles] + []);
    WorkIsDone(config, r);
    IsLetGo(config, WorkDone(r));
    LeadsOn(config, r, first, WorkDone(r), rest, LetGo(WorkDone(r)));
    actions := first + rest;
  }

  /**
   * A granted lease can be held, renewed any number of times, worked to its end and released, with just these events
   * in this order; the loop is then at its top again with no failures counted.
   */
  lemma HealthyLease(config: Config, r: Runtime, n: nat) returns (actions: seq<Action>, after: Runtime)
    requires Inv(config, r) && r.loop == Granted && !r.aborted
    ensures Leads(config, r, actions, after) && after.loop == Top && after.failures == 0
    ensures var k := |r.guards|;
      after.trace == r.trace + [Held(k)] + Readies(k, n) + [RenewalOver(k)] + [NotReady(k)] + [Released(k)]
  {
    var first, renewed := HoldAndRenew(config, r, n);
    var rest := WorkAndLetGo(config, renewed);
    after := LetGo(WorkDone(renewed));
    LeadsOn(config, r, first, renewed, rest, after);
    actions := first + rest;
  }

  /** The waits of consecutive misses, from the failures counted before them. */
  function Waits(config: Config, failures: nat, n: nat): seq<Event>
    decreases n
  {
    if n == 0 then []
    else [Waited(BoundedBackoff(failures, config.idleMs, config.maxBackoffMs))]
         + Waits(config, Min(failures + 1, 20), n - 1)
  }

  lemma MissSteps(config: Config, r: Runtime)
    requires Inv(config, r) && r.loop == Acquiring && !r.aborted
    ensures var asleep, top := AfterMiss(config, r).(loop := SleepingAfterMiss, failures := r.failures), AfterMiss(config, r).(loop := Top);
      && Step(config, r, Missed) == asleep && Inv(config, asleep) && Enabled(asleep, SleepEnds)
      && Step(config, asleep, SleepEnds) == top && Inv(config, top) && Enabled(top, Turn)
      && Step(config, top, Turn) == AfterMiss(config, r)
  {
    var asleep := AfterMiss(config, r).(loop := SleepingAfterMiss, failures := r.failures);
    assert Waits(config, r.failures, 1) == [Waited(BoundedBackoff(r.failures, config.idleMs, config.maxBackoffMs))];
    StepKeeps(config, r, Missed);
    StepKeeps(config, asleep, SleepEnds);
  }

  lemma OneMiss(config: Config, r: Runtime)
    requires Inv(config, r) && r.loop == Acquiring && !r.aborted
    ensures Leads(config, r, [Missed] + ([SleepEnds] + ([Turn] + [])), AfterMiss(config, r))
  {
    var next := AfterMiss(config, r);
    var asleep, top := next.(loop := SleepingAfterMiss, failures := r.failures), next.(loop := Top);
    MissSteps(config, r);
    LeadsTwo(config, asleep, SleepEnds, top, Turn, next);
    LeadsFirst(config, r, Missed, asleep, [SleepEnds] + ([Turn] + []), next);
  }

  function AfterMiss(config: Config, r: Runtime): Runtime {
    r.(failures := Min(r.failures + 1, 20), trace := r.trace + Waits(config, r.failures, 1))
  }

  lemma WaitsFirst(config: Config, trace: seq<Event>, failures: nat, n: nat)
    requires n > 0
    ensures trace + Waits(config, failures, 1) + Waits(config, Min(failures + 1, 20), n - 1) == trace + Waits(config, failures, n)
  {
    var w := [Waited(BoundedBackoff(failures, config.idleMs, config.maxBackoffMs))];
    assert Waits(config, failures, 1) == w + [];
    assert w + [] == w;
  }

  /** Each miss waits as long as its number of failures says, and the loop asks again. */
  lemma {:induction false} MissesWait(config: Config, r: Runtime, n: nat) returns (actions: seq<Action>, after: Runtime)
    requires Inv(config, r) && r.loop == Acquiring && !r.aborted
    ensures Leads(config, r, actions, after) && after.loop == Acquiring
    ensures after.trace == r.trace + Waits(config, r.failures, n)
    decreases n
  {
    if n == 0 {
      actions, after := [], r;
    } else {
      var next := AfterMiss(config, r);
      OneMiss(config, r);
      var rest;
      rest, after := MissesWait(config, next, n - 1);
      WaitsFirst(config, r.trace, r.failures, n);
      actions := [Missed] + ([SleepEnds] + ([Turn] + [])) + rest;
      LeadsOn(config, r, [Missed] + ([SleepEnds] + ([Turn] + [])), next, rest, after);
    }
  }

  /** The state after an attempt that threw, at a place of the loop. */
  function AfterError(config: Config, r: Runtime, loop: LoopPc): Runtime {
    var failures := Min(r.failures + 1, 20);
    r.(failures := failures, loop := loop,
       trace := r.trace + [Waited(BoundedBackoff(failures, config.idleMs, config.maxBackoffMs))])
  }

  lemma ErrorSteps(config: Config, r: Runtime)
    requires Inv(config, r) && r.loop == Acquiring && !r.aborted
    ensures Step(config, r, AcquireThrew) == AfterError(config, r, SleepingAfterError)
    ensures Inv(config, AfterError(config, r, SleepingAfterError)) && Inv(config, AfterError(config, r, Top))
    ensures Enabled(AfterError(config, r, SleepingAfterError), SleepEnds)
    ensures Step(config, AfterError(config, r, SleepingAfterError), SleepEnds) == AfterError(config, r, Top)
  {
    StepKeeps(config, r, AcquireThrew);
    StepKeeps(config, AfterError(config, r, SleepingAfterError), SleepEnds);
  }

  lemma ErrorTurns(config: Config, r: Runtime)
    requires Inv(config, r) && r.loop == Acquiring && !r.aborted
    ensures Enabled(AfterError(config, r, Top), Turn)
    ensures Step(config, AfterError(config, r, Top), Turn) == AfterError(config, r, Acquiring)
  {
  }

  /** An attempt that throws counts once, waits as long as the count now says, and the loop asks again. */
  lemma ErrorWaits(config: Config, r: Runtime)
    requires Inv(config, r) && r.loop == Acquiring && !r.aborted
    ensures Leads(config, r, [AcquireThrew] + ([SleepEnds] + ([Turn] + [])), AfterError(config, r, Acquiring))
  {
    var asleep, top, next :=
      AfterError(config, r, SleepingAfterError), AfterError(config, r, Top), AfterError(config, r, Acquiring);
    ErrorSteps(config, r);
    ErrorTurns(config, r);
    LeadsTwo(config, asleep, SleepEnds, top, Turn, next);
    LeadsFirst(config, r, AcquireThrew, asleep, [SleepEnds] + ([Turn] + []), next);
  }

  /** The state once the renewal of the held lease failed: its guard refuses and its renewal loop is over. */
  function RenewalLost(r: Runtime): Runtime
    requires r.guards != []
  {
    r.(renewal := Over, guards := r.guards[|r.guards| - 1 := Guard(true, true)], trace := r.trace + [RenewalOver(|r.guards| - 1)])
  }

  /** The state once a lost lease was let go of. */
  function LostLetGo(config: Config, r: Runtime): Runtime
    requires r.guards != []
  {
    var k, failures := |r.guards| - 1, Min(r.failures + 1, 20);
    r.(loop := SleepingAfterError, listening := false, active := false, failures := failures,
       trace := r.trace + [NotReady(k)] + [Released(k)] + [Waited(BoundedBackoff(failures, config.idleMs, config.maxBackoffMs))])
  }

  lemma IsLost(config: Config, r: Runtime, ok: bool)
    requires Inv(config, r) && r.loop == Working && r.renewal == Renewing && Current(r).Owned()
    ensures Leads(config, r, [RenewFailed] + ([WorkEnds(ok)] + []), RenewalLost(r).(loop := AwaitingRenewal(false)))
  {
    StepKeeps(config, r, RenewFailed);
    LeadsTwo(config, r, RenewFailed, RenewalLost(r), WorkEnds(ok), RenewalLost(r).(loop := AwaitingRenewal(false)));
  }

  lemma IsLostLetGo(config: Config, r: Runtime)
    requires Inv(config, r) && r.loop == AwaitingRenewal(false) && r.renewal == Over && !r.aborted
    ensures r.guards != [] && Leads(config, r, [Finish] + ([ReleaseSettles] + []), LostLetGo(config, r))
  {
    StepKeeps(config, r, Finish);
    LeadsTwo(config, r, Finish, Finished(r, false), ReleaseSettles, LostLetGo(config, r));
  }

  lemma FourInOrder(a: Action, b: Action, c: Action, d: Action)
    ensures [a] + ([b] + []) + ([c] + ([d] + [])) == [a, b, c, d]
  {
  }

  /** A lease whose renewal failed is released all the same, however its work ends, and the next attempt waits as after a failure. */
  lemma LostLease(config: Config, r: Runtime, ok: bool) returns (after: Runtime)
    requires Inv(config, r) && r.loop == Working && r.renewal == Renewing && !r.aborted && Current(r).Owned()
    ensures Leads(config, r, [RenewFailed, WorkEnds(ok), Finish, ReleaseSettles], after) && after.loop == SleepingAfterError
    ensures var k := |r.guards| - 1;
      after.trace == r.trace + [RenewalOver(k)] + [NotReady(k)] + [Released(k)]
                     + [Waited(BoundedBackoff(Min(r.failures + 1, 20), config.idleMs, config.maxBackoffMs))]
  {
    var first, rest := [RenewFailed] + ([WorkEnds(ok)] + []), [Finish] + ([ReleaseSettles] + []);
    var ended := RenewalLost(r).(loop := AwaitingRenewal(false));
    after := LostLetGo(config, ended);
    assert Leads(config, r, first + rest, after) by {
      IsLost(config, r, ok);
      IsLostLetGo(config, ended);
      LeadsOn(config, r, first, ended, rest, after);
    }
    FourInOrder(RenewFailed, WorkEnds(ok), Finish, ReleaseSettles);
  }
}
