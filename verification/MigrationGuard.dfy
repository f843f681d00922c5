/**
 * Migration processes that share one advisory lock and one guard row, step by step. Each step is one
 * query of one process, its failure, or its end; a process that dies takes its session's lock along.
 */
module MigrationGuard {
  import opened Options

  datatype GuardState = Clean | Running | Dirty

  /** Where a process stands in runMigrations: the query it sends next. */
  datatype Pc =
    | WaitForLock
    | CheckLock
    | ReadGuard
    | InsertRow
    | ClearDirty
    | SetRunning
    | SetTimeout
    | Runner
    | RecheckLock
    | WriteClean
    | WriteDirty
    | Unlock
    | Ended

  datatype Process = Process(pc: Pc, clearDirty: bool)

  /** What was written to the guard row, and which runs finished and found their lock again, oldest first. */
  datatype Entry =
    | Created(who: nat)
    | Began(who: nat)
    | Finished(who: nat)
    | Rechecked(who: nat)
    | Completed(who: nat)
    | Dirtied(who: nat)
    | Cleared(who: nat)

  datatype World = World(
    processes: map<nat, Process>,
    lock: Option<nat>,
    guard: Option<GuardState>,
    log: seq<Entry>)

  const EMPTY := World(map[], None, None, [])

  datatype Action =
    | Connect(p: nat, clearDirty: bool)
    | LockGranted(p: nat)
    | LockTimedOut(p: nat)
    | Succeed(p: nat)
    | Throw(p: nat)
    | Die(p: nat)
    | LoseLock(p: nat)

  /** The lock has been taken and not yet given back, as the process sees it. */
  predicate Locked(pc: Pc) { pc != WaitForLock && pc != Ended }

  /** `migrationStarted` is set and the guard has not been settled again. */
  predicate Started(pc: Pc) { pc in {SetTimeout, Runner, RecheckLock, WriteClean, WriteDirty} }

  predicate Enabled(w: World, a: Action) {
    match a
    case Connect(p, _) => p !in w.processes
    case LockGranted(p) => p in w.processes && w.processes[p].pc == WaitForLock && w.lock == None
    case LockTimedOut(p) => p in w.processes && w.processes[p].pc == WaitForLock
    case Succeed(p) => p in w.processes && Locked(w.processes[p].pc)
    case Throw(p) => p in w.processes && Locked(w.processes[p].pc)
    case Die(p) => p in w.processes && w.processes[p].pc != Ended
    case LoseLock(p) => w.lock == Some(p)
  }

  function At(w: World, p: nat, pc: Pc): World
    requires p in w.processes
  {
    w.(processes := w.processes[p := w.processes[p].(pc := pc)])
  }

  function Write(w: World, guard: GuardState, entry: Entry): World {
    w.(guard := Some(guard), log := w.log + [entry])
  }

  /** A step that writes nothing to the row and is remembered. */
  function Record(w: World, entry: Entry): World { w.(log := w.log + [entry]) }

  function Freed(w: World, p: nat): World { if w.lock == Some(p) then w.(lock := None) else w }

  /** Where the guard row sends a process that found or made it clean. */
  function AfterClean(clearDirty: bool): Pc { if clearDirty then ClearDirty else SetRunning }

  /** The query at the process's place succeeds. */
  function Succeeded(w: World, p: nat): World
    requires p in w.processes
  {
    var process := w.processes[p];
    match process.pc
    case CheckLock => At(w, p, if w.lock == Some(p) then ReadGuard else Unlock)
    case ReadGuard =>
      At(w, p,
         if w.guard == None then InsertRow
         else if w.guard == Some(Clean) || process.clearDirty then AfterClean(process.clearDirty)
         else Unlock)
    case InsertRow =>
      if w.guard != None then At(w, p, Unlock)
      else At(Write(w, Clean, Created(p)), p, AfterClean(process.clearDirty))
    case ClearDirty => At(Write(w, Clean, Cleared(p)), p, Unlock)
    case SetRunning => At(Write(w, Running, Began(p)), p, SetTimeout)
    case SetTimeout => At(w, p, Runner)
    case Runner => At(Record(w, Finished(p)), p, RecheckLock)
    case RecheckLock => if w.lock == Some(p) then At(Record(w, Rechecked(p)), p, WriteClean) else At(w, p, WriteDirty)
    case WriteClean => At(Write(w, Clean, Completed(p)), p, Unlock)
    case WriteDirty => At(Write(w, Dirty, Dirtied(p)), p, Unlock)
    case Unlock => At(Freed(w, p), p, Ended)
    case WaitForLock => w
    case Ended => w
  }

  /** The query, or the runner, throws while the session lives on. */
  function Thrown(w: World, p: nat): World
    requires p in w.processes
  {
    var pc := w.processes[p].pc;
    if pc == Unlock then At(Freed(w, p), p, Ended)
    else if Started(pc) && pc != WriteDirty then At(w, p, WriteDirty)
    else At(w, p, Unlock)
  }

  function Step(w: World, a: Action): World
    requires Enabled(w, a)
  {
    match a
    case Connect(p, clearDirty) => w.(processes := w.processes[p := Process(WaitForLock, clearDirty)])
    case LockGranted(p) => At(w.(lock := Some(p)), p, CheckLock)
    case LockTimedOut(p) => At(w, p, Ended)
    case Succeed(p) => Succeeded(w, p)
    case Throw(p) => Thrown(w, p)
    case Die(p) => At(Freed(w, p), p, Ended)
    case LoseLock(p) => Freed(w, p)
  }

  ghost predicate Possible(w: World, actions: seq<Action>)
    decreases |actions|
  {
    actions == [] || (Enabled(w, actions[0]) && Possible(Step(w, actions[0]), actions[1..]))
  }

  ghost function Run(w: World, actions: seq<Action>): World
    requires Possible(w, actions)
    decreases |actions|
  {
    if actions == [] then w else Run(Step(w, actions[0]), actions[1..])
  }

  /** assertMigrationReady: a build starts only on a clean guard and its own migration catalog. */
  predicate ReadyToServe(w: World, applied: seq<string>, expected: seq<string>) {
    w.guard == Some(Clean) && applied == expected
  }

  // ---------------------------------------------------------------- what the log may say

  datatype Status = Absent | Idle | Open(who: nat) | Broken

  function After(status: Status, e: Entry): Status {
    match e
    case Created(_) => Idle
    case Began(p) => Open(p)
    case Finished(_) => status
    case Rechecked(_) => status
    case Completed(_) => Idle
    case Dirtied(_) => Broken
    case Cleared(_) => Idle
  }

  function StatusOf(log: seq<Entry>): Status {
    if log == [] then Absent else After(StatusOf(log[..|log| - 1]), log[|log| - 1])
  }

  /** The row is created once; a run begins only on a clean guard; only the run that is open completes or breaks. */
  predicate Follows(status: Status, e: Entry) {
    match e
    case Created(_) => status == Absent
    case Began(_) => status == Idle
    case Finished(p) => status == Open(p)
    case Rechecked(p) => status == Open(p)
    case Completed(p) => status == Open(p)
    case Dirtied(p) => status == Open(p)
    case Cleared(_) => status != Absent
  }

  predicate Orderly(log: seq<Entry>) {
    log == [] || (Orderly(log[..|log| - 1]) && Follows(StatusOf(log[..|log| - 1]), log[|log| - 1]))
  }

  function GuardOf(status: Status): Option<GuardState> {
    match status
    case Absent => None
    case Idle => Some(Clean)
    case Open(_) => Some(Running)
    case Broken => Some(Dirty)
  }

  // ---------------------------------------------------------------- what every step keeps

  ghost predicate Inv(w: World) {
    && Orderly(w.log)
    && w.guard == GuardOf(StatusOf(w.log))
    && (forall p :: p in w.processes && Locked(w.processes[p].pc) ==> w.lock == Some(p))
    && (w.lock.Some? ==> w.lock.value in w.processes && Locked(w.processes[w.lock.value].pc))
    && (forall p :: p in w.processes ==> PcFits(w.processes[p], StatusOf(w.log), p))
  }

  /** What a process at its place knows of the guard. */
  predicate PcFits(process: Process, status: Status, p: nat) {
    match process.pc
    case InsertRow => status == Absent
    case SetRunning => status == Idle && !process.clearDirty
    case ClearDirty => status != Absent && process.clearDirty
    case _ => Started(process.pc) ==> status == Open(p) && !process.clearDirty
  }

  lemma LogStep(log: seq<Entry>, e: Entry)
    requires Orderly(log) && Follows(StatusOf(log), e)
    ensures Orderly(log + [e]) && StatusOf(log + [e]) == After(StatusOf(log), e)
  {
    assert (log + [e])[..|log|] == log;
  }

  lemma WriteKeeps(w: World, p: nat, guard: GuardState, e: Entry, pc: Pc)
    requires Inv(w) && w.lock == Some(p) && p in w.processes && Locked(pc)
    requires Follows(StatusOf(w.log), e) && GuardOf(After(StatusOf(w.log), e)) == Some(guard)
    requires PcFits(w.processes[p].(pc := pc), After(StatusOf(w.log), e), p)
    ensures Inv(At(Write(w, guard, e), p, pc))
  {
    LogStep(w.log, e);
    var after := At(Write(w, guard, e), p, pc);
    forall q | q in after.processes && q != p ensures PcFits(after.processes[q], StatusOf(after.log), q) {
      assert !Locked(w.processes[q].pc);
    }
  }

  lemma RecordKeeps(w: World, p: nat, e: Entry, pc: Pc)
    requires Inv(w) && w.lock == Some(p) && p in w.processes && Started(w.processes[p].pc) && Started(pc)
    requires e == Finished(p) || e == Rechecked(p)
    ensures Inv(At(Record(w, e), p, pc))
  {
    LogStep(w.log, e);
  }

  lemma MoveKeeps(w: World, p: nat, pc: Pc)
    requires Inv(w) && w.lock == Some(p) && Locked(pc)
    requires PcFits(w.processes[p].(pc := pc), StatusOf(w.log), p)
    ensures Inv(At(w, p, pc))
  {
  }

  lemma EndKeeps(w: World, p: nat)
    requires Inv(w) && p in w.processes
    ensures Inv(At(Freed(w, p), p, Ended))
  {
  }

  lemma SucceedKeeps(w: World, p: nat)
    requires Inv(w) && p in w.processes && Locked(w.processes[p].pc)
    ensures Inv(Succeeded(w, p))
  {
    var process := w.processes[p];
    match process.pc
    case InsertRow => WriteKeeps(w, p, Clean, Created(p), AfterClean(process.clearDirty));
    case ClearDirty => WriteKeeps(w, p, Clean, Cleared(p), Unlock);
    case SetRunning => WriteKeeps(w, p, Running, Began(p), SetTimeout);
    case WriteClean => WriteKeeps(w, p, Clean, Completed(p), Unlock);
    case WriteDirty => WriteKeeps(w, p, Dirty, Dirtied(p), Unlock);
    case Unlock => EndKeeps(w, p);
    case Runner => RecordKeeps(w, p, Finished(p), RecheckLock);
    case RecheckLock => RecordKeeps(w, p, Rechecked(p), WriteClean);
    case CheckLock | ReadGuard | SetTimeout => MoveKeeps(w, p, Succeeded(w, p).processes[p].pc);
    case WaitForLock | Ended =>
  }

  lemma ThrowKeeps(w: World, p: nat)
    requires Inv(w) && p in w.processes && Locked(w.processes[p].pc)
    ensures Inv(Thrown(w, p))
  {
    if w.processes[p].pc == Unlock { EndKeeps(w, p); } else { MoveKeeps(w, p, Thrown(w, p).processes[p].pc); }
  }

  lemma StepKeeps(w: World, a: Action)
    requires Inv(w) && Enabled(w, a) && !a.LoseLock?
    ensures Inv(Step(w, a))
  {
    match a
    case Succeed(p) => SucceedKeeps(w, p);
    case Throw(p) => ThrowKeeps(w, p);
    case Die(p) => EndKeeps(w, p);
    case _ =>
  }

  lemma {:induction false} RunKeeps(w: World, actions: seq<Action>)
    requires Inv(w) && Possible(w, actions) && forall a :: a in actions ==> !a.LoseLock?
    ensures Inv(Run(w, actions))
    decreases |actions|
  {
    if actions != [] {
      assert actions[0] in actions && forall a :: a in actions[1..] ==> a in actions;
      StepKeeps(w, actions[0]);
      RunKeeps(Step(w, actions[0]), actions[1..]);
    }
  }

  // ---------------------------------------------------------------- what that means

  predicate InRunner(w: World, p: nat) { p in w.processes && w.processes[p].pc == Runner }

  predicate KeepsLocks(actions: seq<Action>) { forall a :: a in actions ==> !a.LoseLock? }

  /** While locks go only with their session, no two processes are ever in the runner, and one that is holds the lock. */
  lemma RunnersNeverOverlap(actions: seq<Action>, p: nat, q: nat)
    requires Possible(EMPTY, actions) && KeepsLocks(actions)
    requires InRunner(Run(EMPTY, actions), p) && InRunner(Run(EMPTY, actions), q)
    ensures p == q && Run(EMPTY, actions).lock == Some(p) && Run(EMPTY, actions).guard == Some(Running)
  {
    RunKeeps(EMPTY, actions);
  }

  /**
   * The log of every run is orderly: the row is created once, a run begins only on a clean guard, and
   * clean comes only from creating the row, from the open run's own completion, or from clearDirty.
   */
  lemma LogIsOrderly(actions: seq<Action>)
    requires Possible(EMPTY, actions) && KeepsLocks(actions)
    ensures Orderly(Run(EMPTY, actions).log)
    ensures Run(EMPTY, actions).guard == GuardOf(StatusOf(Run(EMPTY, actions).log))
  {
    RunKeeps(EMPTY, actions);
  }

  predicate Settles(e: Entry, p: nat) { e == Completed(p) || e.Cleared? }

  /** A run that began and was neither completed nor cleared leaves the guard open or broken. */
  lemma {:induction false} UnsettledStaysUnclean(log: seq<Entry>, i: nat)
    requires Orderly(log) && i < |log| && log[i].Began?
    requires forall k :: i < k < |log| ==> !Settles(log[k], log[i].who)
    ensures StatusOf(log) in {Open(log[i].who), Broken}
    decreases |log|
  {
    var n := |log| - 1;
    if i < n { UnsettledStaysUnclean(log[..n], i); }
  }

  /** Between two runs that begin, the earlier one completed or an operator cleared the guard. */
  lemma BeginsAreSettled(log: seq<Entry>, i: nat, j: nat)
    requires Orderly(log) && i < j < |log| && log[i].Began? && log[j].Began?
    ensures exists k :: i < k < j && Settles(log[k], log[i].who)
  {
    OrderlyPrefix(log, j + 1);
    OrderlyPrefix(log, j);
    assert log[..j + 1][..j] == log[..j];
    if forall k :: i < k < j ==> !Settles(log[k], log[i].who) { UnsettledStaysUnclean(log[..j], i); }
  }

  lemma {:induction false} OrderlyPrefix(log: seq<Entry>, n: nat)
    requires Orderly(log) && n <= |log|
    ensures Orderly(log[..n])
    decreases |log|
  {
    if n < |log| {
      OrderlyPrefix(log[..|log| - 1], n);
      assert log[..|log| - 1][..n] == log[..n];
    } else {
      assert log[..n] == log;
    }
  }

  /** A run was interrupted: the guard is not clean and nobody is at work on it any more. */
  ghost predicate Interrupted(w: World) {
    && w.guard in {Some(Running), Some(Dirty)}
    && forall p :: p in w.processes ==> !Started(w.processes[p].pc)
  }

  predicate Clears(w: World, a: Action) { a.Succeed? && a.p in w.processes && w.processes[a.p].pc == ClearDirty }

  /** Dying anywhere between marking the guard and settling it interrupts the run. */
  lemma DyingInterrupts(w: World, p: nat)
    requires Inv(w) && p in w.processes && Started(w.processes[p].pc)
    ensures Interrupted(Step(w, Die(p)))
  {
  }

  /** No step of the run is a clearDirty write. */
  ghost predicate NeverCleared(w: World, actions: seq<Action>)
    requires Possible(w, actions)
    decreases |actions|
  {
    actions == [] || (!Clears(w, actions[0]) && NeverCleared(Step(w, actions[0]), actions[1..]))
  }

  lemma InterruptedStep(w: World, a: Action)
    requires Inv(w) && Interrupted(w) && Enabled(w, a) && !a.LoseLock? && !Clears(w, a)
    ensures Inv(Step(w, a)) && Interrupted(Step(w, a))
  {
    StepKeeps(w, a);
    InterruptedStays(w, a);
  }

  /** With nobody at work on it and the guard not clean, nobody starts. */
  lemma InterruptedStays(w: World, a: Action)
    requires Interrupted(w) && Enabled(w, a) && !Clears(w, a)
    requires forall p :: p in w.processes ==> PcFits(w.processes[p], StatusOf(w.log), p)
    requires w.guard == GuardOf(StatusOf(w.log))
    ensures Interrupted(Step(w, a))
  {
    if a.Succeed? { assert PcFits(w.processes[a.p], StatusOf(w.log), a.p); }
  }

  /** Only clearDirty ends an interruption; until then nobody reaches the runner and no build is let on. */
  lemma {:induction false} InterruptedUntilCleared(w: World, actions: seq<Action>)
    requires Inv(w) && Interrupted(w) && Possible(w, actions) && KeepsLocks(actions) && NeverCleared(w, actions)
    ensures Interrupted(Run(w, actions))
    ensures forall p :: !InRunner(Run(w, actions), p)
    ensures forall applied, expected :: !ReadyToServe(Run(w, actions), applied, expected)
    decreases |actions|
  {
    if actions != [] {
      InterruptedStep(w, actions[0]);
      assert forall a :: a in actions[1..] ==> a in actions;
      InterruptedUntilCleared(Step(w, actions[0]), actions[1..]);
    }
  }

  // ---------------------------------------------------------------- completion is earned, whatever happens to locks

  /** The process's runner finished and then its lock was found held, both before entry `n`. */
  predicate EarnedBefore(log: seq<Entry>, n: nat, p: nat) {
    exists j, k :: 0 <= j < k < n && k < |log| && log[j] == Finished(p) && log[k] == Rechecked(p)
  }

  ghost predicate Earned(w: World) {
    && (forall i :: 0 <= i < |w.log| && w.log[i].Completed? ==> EarnedBefore(w.log, i, w.log[i].who))
    && (forall p :: p in w.processes ==> Earning(w, p))
  }

  predicate Earning(w: World, p: nat)
    requires p in w.processes
  {
    && (w.processes[p].pc == RecheckLock ==> Finished(p) in w.log)
    && (w.processes[p].pc == WriteClean ==> EarnedBefore(w.log, |w.log|, p))
  }

  lemma EarnedGrows(log: seq<Entry>, e: Entry, n: nat, p: nat)
    requires EarnedBefore(log, n, p) && n <= |log|
    ensures EarnedBefore(log + [e], n, p) && EarnedBefore(log + [e], n + 1, p)
  {
    var j, k :| 0 <= j < k < n && k < |log| && log[j] == Finished(p) && log[k] == Rechecked(p);
    assert (log + [e])[j] == Finished(p) && (log + [e])[k] == Rechecked(p);
  }

  /** Every process but one keeps its place and the log gains an entry: what was earned stays earned. */
  lemma EntryKeepsEarned(w: World, p: nat, e: Entry, pc: Pc, guard: Option<GuardState>)
    requires Earned(w) && p in w.processes
    requires e.Completed? ==> e.who == p && EarnedBefore(w.log, |w.log|, p)
    requires pc == RecheckLock ==> e == Finished(p)
    requires pc == WriteClean ==> e == Rechecked(p) && Finished(p) in w.log
    ensures Earned(At(w.(guard := guard, log := w.log + [e]), p, pc))
  {
    var after := At(w.(guard := guard, log := w.log + [e]), p, pc);
    forall i | 0 <= i < |after.log| && after.log[i].Completed? ensures EarnedBefore(after.log, i, after.log[i].who) {
      if i < |w.log| {
        assert after.log[i] == w.log[i];
        EarnedGrows(w.log, e, i, w.log[i].who);
      } else {
        EarnedGrows(w.log, e, |w.log|, p);
      }
    }
    forall q | q in after.processes ensures Earning(after, q) {
      if q != p && w.processes[q].pc == WriteClean { EarnedGrows(w.log, e, |w.log|, q); }
      if q == p && pc == WriteClean {
        var j :| 0 <= j < |w.log| && w.log[j] == Finished(p);
        assert after.log[j] == Finished(p) && after.log[|w.log|] == Rechecked(p);
      }
      if q == p && pc == RecheckLock { assert after.log[|w.log|] == Finished(p); }
    }
  }

  lemma MoveKeepsEarned(w: World, p: nat, pc: Pc, lock: Option<nat>)
    requires Earned(w) && p in w.processes && pc != RecheckLock && pc != WriteClean
    ensures Earned(At(w.(lock := lock), p, pc))
  {
    assert forall q :: q in w.processes ==> Earning(w, q);
  }

  lemma SucceedKeepsEarned(w: World, p: nat)
    requires Earned(w) && p in w.processes && Locked(w.processes[p].pc)
    ensures Earned(Succeeded(w, p))
  {
    var process := w.processes[p];
    assert Earning(w, p);
    match process.pc
    case InsertRow =>
      if w.guard != None { MoveKeepsEarned(w, p, Unlock, w.lock); }
      else { EntryKeepsEarned(w, p, Created(p), AfterClean(process.clearDirty), Some(Clean)); }
    case ClearDirty => EntryKeepsEarned(w, p, Cleared(p), Unlock, Some(Clean));
    case SetRunning => EntryKeepsEarned(w, p, Began(p), SetTimeout, Some(Running));
    case Runner => EntryKeepsEarned(w, p, Finished(p), RecheckLock, w.guard);
    case RecheckLock =>
      if w.lock == Some(p) { EntryKeepsEarned(w, p, Rechecked(p), WriteClean, w.guard); }
      else { MoveKeepsEarned(w, p, WriteDirty, w.lock); }
    case WriteClean => EntryKeepsEarned(w, p, Completed(p), Unlock, Some(Clean));
    case WriteDirty => EntryKeepsEarned(w, p, Dirtied(p), Unlock, Some(Dirty));
    case Unlock => MoveKeepsEarned(w, p, Ended, Freed(w, p).lock);
    case CheckLock | ReadGuard | SetTimeout => MoveKeepsEarned(w, p, Succeeded(w, p).processes[p].pc, w.lock);
    case WaitForLock | Ended =>
  }

  lemma ConnectKeepsEarned(w: World, p: nat, clearDirty: bool)
    requires Earned(w) && p !in w.processes
    ensures Earned(w.(processes := w.processes[p := Process(WaitForLock, clearDirty)]))
  {
    assert forall q :: q in w.processes ==> Earning(w, q);
  }

  lemma FreedKeepsEarned(w: World, p: nat)
    requires Earned(w)
    ensures Earned(Freed(w, p))
  {
    assert forall q :: q in w.processes ==> Earning(w, q);
  }

  lemma StepKeepsEarned(w: World, a: Action)
    requires Earned(w) && Enabled(w, a)
    ensures Earned(Step(w, a))
  {
    match a
    case Connect(p, clearDirty) => ConnectKeepsEarned(w, p, clearDirty);
    case LockGranted(p) => MoveKeepsEarned(w, p, CheckLock, Some(p));
    case LockTimedOut(p) => MoveKeepsEarned(w, p, Ended, w.lock);
    case Succeed(p) => SucceedKeepsEarned(w, p);
    case Throw(p) => MoveKeepsEarned(w, p, Thrown(w, p).processes[p].pc, Thrown(w, p).lock);
    case Die(p) => MoveKeepsEarned(w, p, Ended, Freed(w, p).lock);
    case LoseLock(p) => FreedKeepsEarned(w, p);
  }

  lemma {:induction false} RunKeepsEarned(w: World, actions: seq<Action>)
    requires Earned(w) && Possible(w, actions)
    ensures Earned(Run(w, actions))
    decreases |actions|
  {
    if actions != [] {
      StepKeepsEarned(w, actions[0]);
      RunKeepsEarned(Step(w, actions[0]), actions[1..]);
    }
  }

  /** On every run, lost locks included, clean is written by a run only after its runner finished and its lock was found held. */
  lemma CompletedIsEarned(actions: seq<Action>, i: nat)
    requires Possible(EMPTY, actions) && i < |Run(EMPTY, actions).log| && Run(EMPTY, actions).log[i].Completed?
    ensures EarnedBefore(Run(EMPTY, actions).log, i, Run(EMPTY, actions).log[i].who)
  {
    RunKeepsEarned(EMPTY, actions);
  }

  // ---------------------------------------------------------------- what a run is for

  lemma StepFirst(w: World, a: Action, rest: seq<Action>)
    requires Enabled(w, a) && Possible(Step(w, a), rest)
    ensures Possible(w, [a] + rest) && Run(w, [a] + rest) == Run(Step(w, a), rest)
  {
    assert ([a] + rest)[1..] == rest;
  }

  /** The next `n` queries of the process succeed. */
  function Succeeds(p: nat, n: nat): seq<Action> { if n == 0 then [] else [Succeed(p)] + Succeeds(p, n - 1) }

  /** The process alone goes on, and each of its queries succeeds: where that leads. */
  ghost predicate GoesTo(w: World, p: nat, n: nat, after: World) {
    Possible(w, Succeeds(p, n)) && Run(w, Succeeds(p, n)) == after
  }

  lemma GoesFirst(w: World, p: nat, n: nat, after: World)
    requires p in w.processes && Locked(w.processes[p].pc) && GoesTo(Succeeded(w, p), p, n, after)
    ensures GoesTo(w, p, n + 1, after)
  {
    StepFirst(w, Succeed(p), Succeeds(p, n));
  }

  /** From the runner: it finishes, the lock is found held, clean is written, the lock is given back. */
  function RunnerDone(w: World, p: nat): World
    requires p in w.processes
  {
    World(w.processes[p := w.processes[p].(pc := Ended)], None, Some(Clean),
          w.log + [Finished(p)] + [Rechecked(p)] + [Completed(p)])
  }

  /**
   * A run whose runner succeeds and whose queries succeed ends with its process gone, the lock free, the guard clean
   * and its completion the last thing written.
   */
  lemma RunnerCompletes(w: World, p: nat)
    requires Inv(w) && InRunner(w, p)
    ensures GoesTo(w, p, 4, RunnerDone(w, p))
    ensures RunnerDone(w, p).guard == Some(Clean) && RunnerDone(w, p).lock == None
    ensures RunnerDone(w, p).log[|RunnerDone(w, p).log| - 1] == Completed(p)
  {
    var process := w.processes[p];
    var w1 := Succeeded(w, p);
    var w2 := Succeeded(w1, p);
    var w3 := Succeeded(w2, p);
    var w4 := Succeeded(w3, p);
    assert w2.log == w.log + [Finished(p)] + [Rechecked(p)] && w2.processes == w.processes[p := process.(pc := WriteClean)];
    assert w4 == RunnerDone(w, p);
    GoesFirst(w3, p, 0, w4);
    GoesFirst(w2, p, 1, w4);
    GoesFirst(w1, p, 2, w4);
    GoesFirst(w, p, 3, w4);
  }

  /** One process, holding the lock, and the log so far. */
  function Lone(p: nat, pc: Pc, guard: Option<GuardState>, log: seq<Entry>): World {
    World(map[p := Process(pc, false)], Some(p), guard, log)
  }

  lemma BeginReachesRunner(p: nat, after: World)
    requires GoesTo(Lone(p, Runner, Some(Running), [Created(p)] + [Began(p)]), p, 4, after)
    ensures GoesTo(Lone(p, SetRunning, Some(Clean), [Created(p)]), p, 6, after)
  {
    var inserted := Lone(p, SetRunning, Some(Clean), [Created(p)]);
    var marked := Lone(p, SetTimeout, Some(Running), [Created(p)] + [Began(p)]);
    assert Succeeded(marked, p) == Lone(p, Runner, Some(Running), marked.log);
    GoesFirst(marked, p, 4, after);
    assert Succeeded(inserted, p) == marked;
    GoesFirst(inserted, p, 5, after);
  }

  /** From an empty database to the runner: the row is made, the guard is marked. */
  lemma FirstReachesRunner(p: nat, after: World)
    requires GoesTo(Lone(p, Runner, Some(Running), [Created(p)] + [Began(p)]), p, 4, after)
    ensures GoesTo(Lone(p, CheckLock, None, []), p, 9, after)
  {
    var checked, read := Lone(p, ReadGuard, None, []), Lone(p, InsertRow, None, []);
    assert [] + [Created(p)] == [Created(p)];
    BeginReachesRunner(p, after);
    assert Succeeded(read, p) == Lone(p, SetRunning, Some(Clean), [Created(p)]);
    GoesFirst(read, p, 6, after);
    assert Succeeded(checked, p) == read;
    GoesFirst(checked, p, 7, after);
    assert Succeeded(Lone(p, CheckLock, None, []), p) == checked;
    GoesFirst(Lone(p, CheckLock, None, []), p, 8, after);
  }

  /** An ordinary deploy on an empty database: one process connects, migrates and leaves the database ready. */
  lemma DeploySucceeds(p: nat)
    ensures var actions := [Connect(p, false)] + ([LockGranted(p)] + Succeeds(p, 9));
      && Possible(EMPTY, actions) && KeepsLocks(actions)
      && Run(EMPTY, actions) == World(map[p := Process(Ended, false)], None, Some(Clean),
                                      [Created(p)] + [Began(p)] + [Finished(p)] + [Rechecked(p)] + [Completed(p)])
  {
    var running := Lone(p, Runner, Some(Running), [Created(p)] + [Began(p)]);
    EmptyReaches(p, running);
    RunnerCompletes(running, p);
    var after := RunnerDone(running, p);
    assert after.processes == map[p := Process(Ended, false)];
    FirstReachesRunner(p, after);
    var w1 := Step(EMPTY, Connect(p, false));
    assert Step(w1, LockGranted(p)) == Lone(p, CheckLock, None, []);
    StepFirst(w1, LockGranted(p), Succeeds(p, 9));
    StepFirst(EMPTY, Connect(p, false), [LockGranted(p)] + Succeeds(p, 9));
    SucceedsKeepLocks(p, 9);
  }

  lemma EmptyReaches(p: nat, w: World)
    requires w == Lone(p, Runner, Some(Running), [Created(p)] + [Began(p)])
    ensures Inv(w)
  {
    LogStep([], Created(p));
    assert [] + [Created(p)] == [Created(p)];
    LogStep([Created(p)], Began(p));
  }

  lemma {:induction false} SucceedsKeepLocks(p: nat, n: nat)
    ensures KeepsLocks(Succeeds(p, n))
  {
    if n > 0 { SucceedsKeepLocks(p, n - 1); }
  }

  /** An operator clears the guard: with the row there and the lock free, the guard is clean again. */
  lemma ClearSucceeds(w: World, p: nat)
    requires p !in w.processes && w.lock == None && w.guard != None
    ensures var actions := [Connect(p, true)] + ([LockGranted(p)] + Succeeds(p, 4));
      && Possible(w, actions)
      && Run(w, actions) == World(w.processes[p := Process(Ended, true)], None, Some(Clean), w.log + [Cleared(p)])
  {
    var w1 := Step(w, Connect(p, true));
    var w2 := Step(w1, LockGranted(p));
    var w3 := Succeeded(w2, p);
    var w4 := Succeeded(w3, p);
    var w5 := Succeeded(w4, p);
    var w6 := Succeeded(w5, p);
    assert w6.processes == w.processes[p := Process(Ended, true)];
    GoesFirst(w5, p, 0, w6);
    GoesFirst(w4, p, 1, w6);
    GoesFirst(w3, p, 2, w6);
    GoesFirst(w2, p, 3, w6);
    StepFirst(w1, LockGranted(p), Succeeds(p, 4));
    StepFirst(w, Connect(p, true), [LockGranted(p)] + Succeeds(p, 4));
  }

  /** A later run on a guard that is not clean is turned away and changes nothing but its own place. */
  lemma UncleanIsRefused(w: World, p: nat)
    requires p !in w.processes && w.lock == None && w.guard in {Some(Running), Some(Dirty)}
    ensures var actions := [Connect(p, false)] + ([LockGranted(p)] + Succeeds(p, 3));
      && Possible(w, actions)
      && Run(w, actions) == w.(processes := w.processes[p := Process(Ended, false)])
  {
    var w1 := Step(w, Connect(p, false));
    var w2 := Step(w1, LockGranted(p));
    var w3 := Succeeded(w2, p);
    var w4 := Succeeded(w3, p);
    var w5 := Succeeded(w4, p);
    assert w5.processes == w.processes[p := Process(Ended, false)];
    GoesFirst(w4, p, 0, w5);
    GoesFirst(w3, p, 1, w5);
    GoesFirst(w2, p, 2, w5);
    StepFirst(w1, LockGranted(p), Succeeds(p, 3));
    StepFirst(w, Connect(p, false), [LockGranted(p)] + Succeeds(p, 3));
  }

  /**
   * Once a run has begun, whatever throws before the guard is settled makes its next write dirty; before that a
   * throw leaves the guard as it is. Either way the lock is then given back.
   */
  lemma ThrowMarksDirtyExactly(w: World, p: nat)
    requires Inv(w) && p in w.processes && Locked(w.processes[p].pc) && w.processes[p].pc !in {WriteDirty, Unlock}
    ensures var dirtied := w.processes[p].pc in {SetTimeout, Runner, RecheckLock, WriteClean};
            var after := World(w.processes[p := w.processes[p].(pc := Ended)], None,
                               if dirtied then Some(Dirty) else w.guard,
                               if dirtied then w.log + [Dirtied(p)] else w.log);
            GoesTo(Thrown(w, p), p, if dirtied then 2 else 1, after)
  {
    var w1 := Thrown(w, p);
    var w2 := Succeeded(w1, p);
    GoesTo0(w2, p);
    if Started(w.processes[p].pc) {
      var w3 := Succeeded(w2, p);
      assert w3.processes == w.processes[p := w.processes[p].(pc := Ended)];
      GoesFirst(w2, p, 0, w3);
      GoesFirst(w1, p, 1, w3);
    } else {
      assert w2.processes == w.processes[p := w.processes[p].(pc := Ended)];
      GoesFirst(w1, p, 0, w2);
    }
  }

  lemma GoesTo0(w: World, p: nat)
    ensures GoesTo(w, p, 0, w)
  {
  }

  /** When writing dirty throws the guard stays as it was and the lock is given back; when that throws, it is gone with the process. */
  lemma LateThrowEnds(w: World, p: nat)
    requires Inv(w) && p in w.processes && w.processes[p].pc in {WriteDirty, Unlock}
    ensures var after := World(w.processes[p := w.processes[p].(pc := Ended)], None, w.guard, w.log);
            if w.processes[p].pc == WriteDirty then GoesTo(Thrown(w, p), p, 1, after) else Thrown(w, p) == after
  {
    if w.processes[p].pc == WriteDirty {
      var w1 := Thrown(w, p);
      var w2 := Succeeded(w1, p);
      assert w2.processes == w.processes[p := w.processes[p].(pc := Ended)];
      GoesTo0(w2, p);
      GoesFirst(w1, p, 0, w2);
    }
  }

  predicate LastSettles(log: seq<Entry>) {
    log != [] && (log[|log| - 1].Created? || log[|log| - 1].Completed? || log[|log| - 1].Cleared?)
  }

  /**
   * A build starts exactly when the last thing written is the row's creation, a completed run or a clearing, and the
   * names of the applied migrations are the build's own, one for one.
   */
  lemma ServesExactly(actions: seq<Action>, applied: seq<string>, expected: seq<string>)
    requires Possible(EMPTY, actions) && KeepsLocks(actions)
    ensures ReadyToServe(Run(EMPTY, actions), applied, expected)
       <==> && LastSettles(Run(EMPTY, actions).log)
            && |applied| == |expected| && forall i :: 0 <= i < |applied| ==> applied[i] == expected[i]
  {
    RunKeeps(EMPTY, actions);
  }

  // ---------------------------------------------------------------- what a finished runner is followed by

  predicate Finishing(pc: Pc) { pc in {RecheckLock, WriteClean} }

  /**
   * From the end of the runner to the write that settles the guard, no query of the process throws, its session
   * lives on, and the lock is its own when it looks again.
   */
  ghost predicate Undisturbed(w: World, p: nat, actions: seq<Action>)
    requires Possible(w, actions) && p in w.processes
    decreases |actions|
  {
    actions == [] || !Finishing(w.processes[p].pc) ||
    (var a := actions[0];
     && a != Throw(p) && a != Die(p)
     && (a == Succeed(p) && w.processes[p].pc == RecheckLock ==> w.lock == Some(p))
     && Undisturbed(Step(w, a), p, actions[1..]))
  }

  /** Completions of the process among the entries from the `n`th on. */
  predicate CompletedSince(log: seq<Entry>, n: nat, p: nat) { exists i :: n <= i < |log| && log[i] == Completed(p) }

  lemma LogGrows(w: World, a: Action)
    requires Enabled(w, a)
    ensures w.log <= Step(w, a).log <= Step(w, a).log && |Step(w, a).log| <= |w.log| + 1
  {
  }

  lemma {:induction false} RunLogGrows(w: World, actions: seq<Action>)
    requires Possible(w, actions)
    ensures w.log <= Run(w, actions).log
    decreases |actions|
  {
    if actions != [] {
      LogGrows(w, actions[0]);
      RunLogGrows(Step(w, actions[0]), actions[1..]);
    }
  }

  /** Past its runner without a clean to write, or not yet at the guard: no further completion of this process. */
  predicate Spent(pc: Pc) { pc in {WriteDirty, Unlock, Ended} }

  lemma {:induction false} SpentNeverCompletes(w: World, p: nat, actions: seq<Action>)
    requires Possible(w, actions) && p in w.processes && Spent(w.processes[p].pc)
    ensures p in Run(w, actions).processes && Spent(Run(w, actions).processes[p].pc)
    ensures !CompletedSince(Run(w, actions).log, |w.log|, p)
    decreases |actions|
  {
    if actions != [] {
      var next := Step(w, actions[0]);
      SpentStep(w, p, actions[0]);
      SpentNeverCompletes(next, p, actions[1..]);
      RunLogGrows(next, actions[1..]);
    }
  }

  lemma SpentStep(w: World, p: nat, a: Action)
    requires Enabled(w, a) && p in w.processes && Spent(w.processes[p].pc)
    ensures p in Step(w, a).processes && Spent(Step(w, a).processes[p].pc)
    ensures w.log <= Step(w, a).log && |Step(w, a).log| <= |w.log| + 1
    ensures !CompletedSince(Step(w, a).log, |w.log|, p)
  {
  }

  /** One step while the process is finishing: where it goes, and whether that writes its completion. */
  lemma FinishingStep(w: World, p: nat, a: Action)
    requires Enabled(w, a) && p in w.processes && Finishing(w.processes[p].pc)
    ensures p in Step(w, a).processes && w.log <= Step(w, a).log
    ensures a == Succeed(p) && w.processes[p].pc == WriteClean ==>
              CompletedSince(Step(w, a).log, |w.log|, p) && Step(w, a).processes[p].pc == Unlock && Step(w, a).guard == Some(Clean)
    ensures !(a == Succeed(p) && w.processes[p].pc == WriteClean) ==> !CompletedSince(Step(w, a).log, |w.log|, p)
    ensures a == Throw(p) || a == Die(p) || (a == Succeed(p) && w.processes[p].pc == RecheckLock && w.lock != Some(p)) ==>
              Spent(Step(w, a).processes[p].pc)
    ensures a == Succeed(p) && w.processes[p].pc == RecheckLock && w.lock == Some(p) ==>
              Step(w, a).processes[p].pc == WriteClean
    ensures a != Succeed(p) && a != Throw(p) && a != Die(p) ==> Step(w, a).processes[p] == w.processes[p]
  {
    if a == Succeed(p) && w.processes[p].pc == WriteClean {
      assert Step(w, a).log[|w.log|] == Completed(p);
    }
  }

  /**
   * What a process writes after its runner finished is clean exactly when its lock was held at the second look and
   * neither that look nor the write threw or lost its session, whatever the others do and whatever locks are lost.
   */
  lemma {:induction false} CompletesExactly(w: World, p: nat, actions: seq<Action>)
    requires Possible(w, actions) && p in w.processes && Finishing(w.processes[p].pc)
    requires p in Run(w, actions).processes && !Finishing(Run(w, actions).processes[p].pc)
    ensures CompletedSince(Run(w, actions).log, |w.log|, p) <==> Undisturbed(w, p, actions)
    decreases |actions|
  {
    var a, rest := actions[0], actions[1..];
    var next := Step(w, a);
    FinishingStep(w, p, a);
    RunLogGrows(next, rest);
    if Finishing(next.processes[p].pc) {
      CompletesExactly(next, p, rest);
      NoneBetween(w.log, next.log, Run(next, rest).log, p);
    } else if a == Succeed(p) && w.processes[p].pc == WriteClean {
      var i :| |w.log| <= i < |next.log| && next.log[i] == Completed(p);
      assert Run(next, rest).log[i] == Completed(p);
    } else {
      SpentNeverCompletes(next, p, rest);
      NoneBetween(w.log, next.log, Run(next, rest).log, p);
    }
  }

  lemma NoneBetween(before: seq<Entry>, between: seq<Entry>, after: seq<Entry>, p: nat)
    requires before <= between <= after && !CompletedSince(between, |before|, p)
    ensures CompletedSince(after, |before|, p) <==> CompletedSince(after, |between|, p)
  {
    assert forall i :: |before| <= i < |between| ==> after[i] == between[i] != Completed(p);
  }

  // ---------------------------------------------------------------- losing the lock in a live session

  /** Possible actions in which no further lock is lost and nobody clears the guard. */
  ghost predicate Quiet(w: World, actions: seq<Action>)
    decreases |actions|
  {
    actions == [] ||
    (Enabled(w, actions[0]) && !actions[0].LoseLock? && !Clears(w, actions[0]) && Quiet(Step(w, actions[0]), actions[1..]))
  }

  lemma {:induction false} QuietIsPossible(w: World, actions: seq<Action>)
    requires Quiet(w, actions)
    ensures Possible(w, actions)
    decreases |actions|
  {
    if actions != [] { QuietIsPossible(Step(w, actions[0]), actions[1..]); }
  }

  ghost function QuietRun(w: World, actions: seq<Action>): World
    requires Quiet(w, actions)
  {
    QuietIsPossible(w, actions);
    Run(w, actions)
  }

  lemma QuietFirst(w: World, a: Action, rest: seq<Action>)
    requires Enabled(w, a) && !a.LoseLock? && !Clears(w, a) && Quiet(Step(w, a), rest)
    ensures Quiet(w, [a] + rest) && QuietRun(w, [a] + rest) == QuietRun(Step(w, a), rest)
  {
    assert ([a] + rest)[1..] == rest;
    QuietIsPossible(Step(w, a), rest);
  }

  lemma {:induction false} QuietOn(w: World, first: seq<Action>, rest: seq<Action>)
    requires Quiet(w, first) && Quiet(QuietRun(w, first), rest)
    ensures Quiet(w, first + rest) && QuietRun(w, first + rest) == QuietRun(QuietRun(w, first), rest)
    decreases |first|
  {
    QuietIsPossible(w, first);
    if first == [] {
      assert first + rest == rest;
    } else {
      QuietOn(Step(w, first[0]), first[1..], rest);
      assert first + rest == [first[0]] + (first[1..] + rest);
      QuietFirst(w, first[0], first[1..] + rest);
    }
  }

  ghost predicate NoOverlap(w: World) { forall p, q :: InRunner(w, p) && InRunner(w, q) ==> p == q }

  /** Past the guard and not yet done with it. */
  predicate Begins(pc: Pc) { pc in {InsertRow, SetRunning} || Started(pc) }

  /** The guard turns every process away that does not clear it, and nobody but `p` is past it. */
  ghost predicate TurnsAway(w: World, p: nat) {
    && w.guard in {Some(Running), Some(Dirty)}
    && forall q :: q in w.processes && q != p ==> !Begins(w.processes[q].pc)
  }

  /** A process without the lock that can no longer join another in the runner. */
  ghost predicate Stray(w: World, p: nat) {
    && p in w.processes && w.lock != Some(p)
    && (forall q :: q in w.processes && q != p && Locked(w.processes[q].pc) ==> w.lock == Some(q))
    && StrayAt(w, p, w.processes[p])
  }

  ghost predicate StrayAt(w: World, p: nat, process: Process) {
    if process.clearDirty then process.pc != SetRunning && process.pc != WaitForLock && !Started(process.pc)
    else process.pc in {CheckLock, Unlock, Ended} || ((process.pc == ReadGuard || Started(process.pc)) && TurnsAway(w, p))
  }

  lemma StrayNeverOverlaps(w: World, p: nat)
    requires Stray(w, p)
    ensures NoOverlap(w)
  {
    forall x, y | InRunner(w, x) && InRunner(w, y) ensures x == y {
      if x != p && y != p {
        assert w.lock == Some(x) && w.lock == Some(y);
      }
    }
  }

  lemma StraySucceeds(w: World, p: nat)
    requires Stray(w, p) && Locked(w.processes[p].pc) && !Clears(w, Succeed(p))
    ensures Stray(Succeeded(w, p), p)
  {
  }

  lemma OtherSucceeds(w: World, p: nat, q: nat)
    requires Stray(w, p) && q != p && q in w.processes && Locked(w.processes[q].pc) && !Clears(w, Succeed(q))
    ensures Stray(Succeeded(w, q), p)
  {
    var after := Succeeded(w, q);
    assert forall x :: x in w.processes && x != p && x != q ==> !Locked(w.processes[x].pc);
    assert after.processes[p] == w.processes[p];
    if TurnsAway(w, p) { assert TurnsAway(after, p); }
  }

  /** Nobody past the guard, and the guard not written: it goes on turning away. */
  lemma TurnsAwayStays(w: World, after: World, p: nat)
    requires TurnsAway(w, p) && after.guard == w.guard
    requires forall q :: q in after.processes && q != p ==> !Begins(after.processes[q].pc)
    ensures TurnsAway(after, p)
  {
  }

  lemma StrayThrows(w: World, p: nat, q: nat)
    requires Stray(w, p) && Enabled(w, Throw(q))
    ensures Stray(Thrown(w, q), p)
  {
    if TurnsAway(w, p) { TurnsAwayStays(w, Thrown(w, q), p); }
  }

  lemma StrayEnds(w: World, p: nat, q: nat)
    requires Stray(w, p) && q in w.processes
    ensures Stray(At(Freed(w, q), q, Ended), p) && Stray(At(w, q, Ended), p)
  {
    if TurnsAway(w, p) {
      TurnsAwayStays(w, At(Freed(w, q), q, Ended), p);
      TurnsAwayStays(w, At(w, q, Ended), p);
    }
  }

  lemma StrayGains(w: World, p: nat, a: Action)
    requires Stray(w, p) && Enabled(w, a) && (a.Connect? || a.LockGranted?)
    ensures Stray(Step(w, a), p)
  {
    if a.LockGranted? { assert forall x :: x in w.processes && x != p ==> !Locked(w.processes[x].pc); }
    if TurnsAway(w, p) { TurnsAwayStays(w, Step(w, a), p); }
  }

  lemma StrayStays(w: World, p: nat, a: Action)
    requires Stray(w, p) && Enabled(w, a) && !a.LoseLock? && !Clears(w, a)
    ensures Stray(Step(w, a), p)
  {
    match a
    case Succeed(q) => if q == p { StraySucceeds(w, p); } else { OtherSucceeds(w, p, q); }
    case Throw(q) => StrayThrows(w, p, q);
    case Die(q) => StrayEnds(w, p, q);
    case LockTimedOut(q) => StrayEnds(w, p, q);
    case Connect(_, _) => StrayGains(w, p, a);
    case LockGranted(_) => StrayGains(w, p, a);
  }

  lemma {:induction false} StrayForEver(w: World, p: nat, actions: seq<Action>)
    requires Stray(w, p) && Quiet(w, actions)
    ensures NoOverlap(QuietRun(w, actions))
    decreases |actions|
  {
    QuietIsPossible(w, actions);
    if actions == [] {
      StrayNeverOverlaps(w, p);
    } else {
      StrayStays(w, p, actions[0]);
      StrayForEver(Step(w, actions[0]), p, actions[1..]);
    }
  }

  /** A process that has seen its lock held and may still take the guard for clean. */
  predicate MayStillBegin(w: World, p: nat)
    requires p in w.processes
  {
    && !w.processes[p].clearDirty
    && match w.processes[p].pc
       case ReadGuard => w.guard in {None, Some(Clean)}
       case InsertRow => true
       case SetRunning => true
       case _ => false
  }

  /** Where the two processes stand while the second holds the lock that the first believes it has. */
  predicate Both(w: World, p: nat, atP: Pc, q: nat, atQ: Pc, guard: GuardState) {
    && p != q && p in w.processes && q in w.processes
    && w.processes[p].pc == atP && w.processes[q] == Process(atQ, false)
    && w.lock == Some(q) && w.guard == Some(guard)
  }

  lemma SecondEnters(w: World, p: nat, q: nat)
    requires Both(w, p, SetRunning, q, CheckLock, Clean)
    ensures var tail := [Succeed(q), Succeed(q), Succeed(q), Succeed(q)];
      Quiet(w, tail) && Both(QuietRun(w, tail), p, SetRunning, q, Runner, Running)
  {
    var w1 := Succeeded(w, q);
    assert Both(w1, p, SetRunning, q, ReadGuard, Clean);
    var w2 := Succeeded(w1, q);
    assert Both(w2, p, SetRunning, q, SetRunning, Clean);
    var w3 := Succeeded(w2, q);
    assert Both(w3, p, SetRunning, q, SetTimeout, Running);
    assert Both(Succeeded(w3, q), p, SetRunning, q, Runner, Running);
    QuietFirst(w3, Succeed(q), []);
    QuietFirst(w2, Succeed(q), [Succeed(q)] + []);
    QuietFirst(w1, Succeed(q), [Succeed(q)] + ([Succeed(q)] + []));
    QuietFirst(w, Succeed(q), [Succeed(q)] + ([Succeed(q)] + ([Succeed(q)] + [])));
    var tail := [Succeed(q), Succeed(q), Succeed(q), Succeed(q)];
    assert tail == [Succeed(q)] + ([Succeed(q)] + ([Succeed(q)] + ([Succeed(q)] + [])));
  }

  lemma FirstEnters(w: World, p: nat, q: nat)
    requires Both(w, p, SetRunning, q, Runner, Running)
    ensures var tail := [Succeed(p), Succeed(p)];
      Quiet(w, tail) && Both(QuietRun(w, tail), p, Runner, q, Runner, Running)
  {
    var w1 := Succeeded(w, p);
    assert Both(w1, p, SetTimeout, q, Runner, Running);
    assert Both(Succeeded(w1, p), p, Runner, q, Runner, Running);
    QuietFirst(w1, Succeed(p), []);
    QuietFirst(w, Succeed(p), [Succeed(p)] + []);
    assert [Succeed(p), Succeed(p)] == [Succeed(p)] + ([Succeed(p)] + []);
  }

  /** From a free lock, a clean guard and a process about to begin, another one connects and both end up in the runner. */
  lemma AnotherJoins(w: World, p: nat, q: nat) returns (actions: seq<Action>)
    requires p in w.processes && w.processes[p].pc == SetRunning && w.lock == None && w.guard == Some(Clean)
    requires q !in w.processes
    ensures Quiet(w, actions) && InRunner(QuietRun(w, actions), p) && InRunner(QuietRun(w, actions), q)
  {
    var taken := [Connect(q, false)] + ([LockGranted(q)] + []);
    var w1 := Step(w, Connect(q, false));
    QuietFirst(w1, LockGranted(q), []);
    QuietFirst(w, Connect(q, false), [LockGranted(q)] + []);
    assert Both(QuietRun(w, taken), p, SetRunning, q, CheckLock, Clean);
    SecondEnters(QuietRun(w, taken), p, q);
    var joined := [Succeed(q), Succeed(q), Succeed(q), Succeed(q)];
    QuietOn(w, taken, joined);
    FirstEnters(QuietRun(w, taken + joined), p, q);
    QuietOn(w, taken + joined, [Succeed(p), Succeed(p)]);
    actions := taken + joined + [Succeed(p), Succeed(p)];
  }

  /** A process that may still begin comes to the point of doing so, whoever holds no lock. */
  lemma Begun(w: World, p: nat) returns (actions: seq<Action>)
    requires p in w.processes && MayStillBegin(w, p) && w.lock == None
    requires w.processes[p].pc == InsertRow ==> w.guard == None
    requires w.processes[p].pc == SetRunning ==> w.guard == Some(Clean)
    ensures Quiet(w, actions)
    ensures var after := QuietRun(w, actions);
            && after.processes.Keys == w.processes.Keys && after.processes[p].pc == SetRunning
            && after.lock == None && after.guard == Some(Clean)
    decreases w.processes[p].pc != SetRunning, w.processes[p].pc == ReadGuard
  {
    actions := [];
    if w.processes[p].pc != SetRunning {
      var rest := Begun(Succeeded(w, p), p);
      QuietFirst(w, Succeed(p), rest);
      actions := [Succeed(p)] + rest;
    }
  }

  /**
   * Were a live session to lose its lock, no two runners would ever overlap for it, as long as nobody clears
   * the guard and no other lock is lost, exactly when the loser cannot still take the guard for clean: before
   * its first check of the lock, once the guard is marked by its run, or after it let go of the guard.
   */
  lemma LossIsHarmlessExactly(w: World, p: nat, q: nat)
    requires Inv(w) && w.lock == Some(p) && q !in w.processes
    ensures (forall actions | Quiet(Step(w, LoseLock(p)), actions) :: NoOverlap(QuietRun(Step(w, LoseLock(p)), actions)))
       <==> !MayStillBegin(w, p)
  {
    var lost := Step(w, LoseLock(p));
    if MayStillBegin(w, p) {
      var first := Begun(lost, p);
      var begun := QuietRun(lost, first);
      var rest := AnotherJoins(begun, p, q);
      QuietOn(lost, first, rest);
      assert !NoOverlap(QuietRun(lost, first + rest));
    } else {
      LoserStrays(w, p);
      forall actions | Quiet(lost, actions) ensures NoOverlap(QuietRun(lost, actions)) { StrayForEver(lost, p, actions); }
    }
  }

  lemma LoserStrays(w: World, p: nat)
    requires Inv(w) && w.lock == Some(p) && !MayStillBegin(w, p)
    ensures Stray(Step(w, LoseLock(p)), p)
  {
    assert forall q :: q in w.processes && q != p ==> !Locked(w.processes[q].pc);
    assert PcFits(w.processes[p], StatusOf(w.log), p);
  }

  /** Such a loss is no hypothetical: from an empty database, one process and one lost lock lead to two in the runner. */
  lemma LostLockLetsTwoRun(p: nat, q: nat) returns (actions: seq<Action>, rest: seq<Action>)
    requires p != q
    ensures Possible(EMPTY, actions) && KeepsLocks(actions) && Run(EMPTY, actions).lock == Some(p)
    ensures var lost := Step(Run(EMPTY, actions), LoseLock(p));
      Quiet(lost, rest) && InRunner(QuietRun(lost, rest), p) && InRunner(QuietRun(lost, rest), q)
  {
    var w1 := Step(EMPTY, Connect(p, false));
    var w2 := Step(w1, LockGranted(p));
    var w3 := Step(w2, Succeed(p));
    QuietFirst(w2, Succeed(p), []);
    QuietFirst(w1, LockGranted(p), [Succeed(p)] + []);
    QuietFirst(EMPTY, Connect(p, false), [LockGranted(p)] + ([Succeed(p)] + []));
    actions := [Connect(p, false)] + ([LockGranted(p)] + ([Succeed(p)] + []));
    QuietIsPossible(EMPTY, actions);
    assert Run(EMPTY, actions) == w3 && w3.processes == map[p := Process(ReadGuard, false)];
    var lost := Step(w3, LoseLock(p));
    var first := Begun(lost, p);
    var second := AnotherJoins(QuietRun(lost, first), p, q);
    QuietOn(lost, first, second);
    rest := first + second;
  }

  // ---------------------------------------------------------------- the lock as pg_locks shows it

  datatype LockParts = LockParts(classId: int, objectId: int)

  const TWO_32 := 0x1_0000_0000

  /** The two unsigned halves of a lock value's two's complement, as pg_locks reports them. */
  function AdvisoryLockParts(value: int): LockParts {
    LockParts(value / TWO_32 % TWO_32, value % TWO_32)
  }

  lemma Halves(value: int)
    ensures var parts := AdvisoryLockParts(value);
      && 0 <= parts.classId < TWO_32 && 0 <= parts.objectId < TWO_32
      && value == (value / TWO_32) / TWO_32 * 0x1_0000_0000_0000_0000 + parts.classId * TWO_32 + parts.objectId
  {
    var high := value / TWO_32;
    assert value == high * TWO_32 + value % TWO_32;
    assert high == high / TWO_32 * TWO_32 + high % TWO_32;
  }

  /** Two lock values look the same in pg_locks exactly when they are the same 64-bit number. */
  lemma PartsIdentify(a: int, b: int)
    ensures 0 <= AdvisoryLockParts(a).classId < TWO_32 && 0 <= AdvisoryLockParts(a).objectId < TWO_32
    ensures AdvisoryLockParts(a) == AdvisoryLockParts(b) <==> (a - b) % 0x1_0000_0000_0000_0000 == 0
  {
    Halves(a);
    Halves(b);
    SamePart(a, b, a / TWO_32 / TWO_32, b / TWO_32 / TWO_32, AdvisoryLockParts(a), AdvisoryLockParts(b));
  }

  lemma SamePart(a: int, b: int, ta: int, tb: int, pa: LockParts, pb: LockParts)
    requires 0 <= pa.classId < TWO_32 && 0 <= pa.objectId < TWO_32 && 0 <= pb.classId < TWO_32 && 0 <= pb.objectId < TWO_32
    requires a == ta * 0x1_0000_0000_0000_0000 + pa.classId * TWO_32 + pa.objectId
    requires b == tb * 0x1_0000_0000_0000_0000 + pb.classId * TWO_32 + pb.objectId
    ensures pa == pb <==> (a - b) % 0x1_0000_0000_0000_0000 == 0
  {
    var d := pa.classId * TWO_32 + pa.objectId - pb.classId * TWO_32 - pb.objectId;
    SmallMultiple(a - b, ta - tb, d);
  }

  lemma SmallMultiple(x: int, t: int, d: int)
    requires x == t * 0x1_0000_0000_0000_0000 + d && -0x1_0000_0000_0000_0000 < d < 0x1_0000_0000_0000_0000
    ensures x % 0x1_0000_0000_0000_0000 == 0 <==> d == 0
  {
  }

  /** A signed 64-bit lock value is recovered from its parts. */
  lemma PartsRecover(value: int)
    requires -(TWO_32 * TWO_32 / 2) <= value < TWO_32 * TWO_32 / 2
    ensures var unsigned := AdvisoryLockParts(value).classId * TWO_32 + AdvisoryLockParts(value).objectId;
            value == if unsigned < TWO_32 * TWO_32 / 2 then unsigned else unsigned - TWO_32 * TWO_32
  {
  }
}
