/**
 * The rounds in which an admin section asks its API, over every interleaving of changed inputs,
 * reloads, polls, edits and late answers. A React commit and its effects are one step; a state
 * update is applied when it is queued and becomes visible to the poll at the next commit.
 */
module LoadRounds {
  import opened Arithmetic
  import opened Options

  /** What a finished request came back with. */
  datatype Answer = Loaded(data: int) | Failed(message: string)

  datatype Resource = Resource(
    deps: int,
    round: int,
    answered: int,
    data: Option<int>,
    failure: Option<string>)

  /**
   * The section: its resource state, the round the load effect last saw, the refs, the requests that
   * are out, and the history of rounds asked for, heard from and accepted.
   */
  datatype Section = Section(
    state: Resource,
    committedRound: int,
    started: int,
    renderedRound: int,
    renderedAnswered: int,
    out: set<int>,
    requested: seq<int>,
    heard: seq<int>,
    accepted: seq<int>)
  {
    predicate Busy() { state.answered != state.round }
    predicate Mounted() { committedRound >= 0 }
  }

  datatype Event =
    | Commit(deps: int)
    | Reload
    | Update(data: int)
    | Poll(visible: bool)
    | Answered(round: int, answer: Answer)

  /** Before the first commit: the wanted round is 0 and nothing was asked. */
  function Fresh(deps: int): Section {
    Section(Resource(deps, 0, -1, None, None), -1, -1, 0, -1, {}, [], [], [])
  }

  /** A request for `round` goes out. */
  function Load(s: Section, round: int): Section {
    s.(started := round, out := s.out + {round}, requested := s.requested + [round])
  }

  /** Rendering with other inputs wants a new round at once. */
  function Rendered(state: Resource, deps: int): Resource {
    if state.deps != deps then state.(deps := deps, round := state.round + 1) else state
  }

  /**
   * A commit: the poll's view is brought up to date; the load effect runs when the round is not the
   * one it last saw, and asks unless the round's request already went out.
   */
  function Committed(s: Section, deps: int): Section {
    var state := Rendered(s.state, deps);
    var shown := s.(state := state, committedRound := state.round,
                    renderedRound := state.round, renderedAnswered := state.answered);
    if state.round != s.committedRound && s.started < state.round then Load(shown, state.round) else shown
  }

  predicate MayPoll(s: Section, visible: bool) { visible && s.renderedAnswered == s.renderedRound }

  function Polled(s: Section, visible: bool): Section {
    if !MayPoll(s, visible) then s
    else
      var next := s.renderedRound + 1;
      Load(s.(renderedRound := next, state := s.state.(round := Max(s.state.round, next))), next)
  }

  /** An answer counts only while its round is the wanted one; a failure keeps the data there is. */
  function Settled(state: Resource, round: int, answer: Answer): Resource {
    if state.round != round then state
    else
      match answer
      case Loaded(data) => state.(answered := round, data := Some(data), failure := None)
      case Failed(message) => state.(answered := round, failure := Some(message))
  }

  function Heard(s: Section, round: int, answer: Answer): Section {
    s.(state := Settled(s.state, round, answer),
       out := s.out - {round},
       heard := s.heard + [round],
       accepted := if s.state.round == round then s.accepted + [round] else s.accepted)
  }

  /** Nothing happens before the first commit, and only a request that is out is answered. */
  predicate Possible(s: Section, event: Event) {
    match event
    case Commit(_) => true
    case Answered(round, _) => round in s.out
    case _ => s.Mounted()
  }

  function Step(s: Section, event: Event): Section {
    match event
    case Commit(deps) => Committed(s, deps)
    case Reload => s.(state := s.state.(round := s.state.round + 1))
    case Update(data) => s.(state := s.state.(data := Some(data)))
    case Poll(visible) => Polled(s, visible)
    case Answered(round, answer) => Heard(s, round, answer)
  }

  ghost predicate PossibleRun(s: Section, events: seq<Event>)
    decreases |events|
  {
    events == [] || (Possible(s, events[0]) && PossibleRun(Step(s, events[0]), events[1..]))
  }

  function Run(s: Section, events: seq<Event>): Section
    decreases |events|
  {
    if events == [] then s else Run(Step(s, events[0]), events[1..])
  }

  // ---------------------------------------------------------------- what every step keeps

  ghost predicate Increasing(rounds: seq<int>) {
    forall i, j :: 0 <= i < j < |rounds| ==> rounds[i] < rounds[j]
  }

  function Last(rounds: seq<int>): int { if rounds == [] then -1 else rounds[|rounds| - 1] }

  ghost predicate Asked(s: Section) {
    && s.committedRound <= s.started <= s.state.round && 0 <= s.state.round
    && s.started == Last(s.requested)
    && Increasing(s.requested)
    && (forall r :: r in s.requested ==> 0 <= r)
    && (if s.Mounted() then s.renderedRound == s.started else s.requested == [] && s.renderedRound == 0)
  }

  ghost predicate Answers(s: Section) {
    && (forall r :: r in s.requested <==> r in s.out || r in s.heard)
    && (forall r :: r in s.out ==> r !in s.heard)
    && (forall i, j :: 0 <= i < j < |s.heard| ==> s.heard[i] != s.heard[j])
    && (forall r :: r in s.heard ==> r < s.state.round || r == s.state.answered)
  }

  ghost predicate Accepts(s: Section) {
    && Increasing(s.accepted)
    && (forall r :: r in s.accepted ==> r in s.heard)
    && s.state.answered == Last(s.accepted) <= s.state.round
    && (s.renderedAnswered == -1 || s.renderedAnswered in s.accepted)
  }

  ghost predicate Inv(s: Section) {
    Asked(s) && Answers(s) && Accepts(s)
  }

  lemma LastIsGreatest(rounds: seq<int>)
    requires Increasing(rounds)
    ensures forall r :: r in rounds ==> r <= Last(rounds)
  {
  }

  lemma LoadKeeps(s: Section, round: int)
    requires s.committedRound <= round && Last(s.requested) < round <= s.state.round && 0 <= round
    requires Increasing(s.requested) && (forall r :: r in s.requested ==> 0 <= r)
    requires s.Mounted() && s.renderedRound == round
    requires Answers(s) && Accepts(s)
    ensures Inv(Load(s, round))
  {
    LastIsGreatest(s.requested);
    var after := Load(s, round);
    assert forall r :: r in after.requested <==> r in s.requested || r == round;
  }

  lemma CommitKeeps(s: Section, deps: int)
    requires Inv(s)
    ensures Inv(Committed(s, deps))
  {
    LastIsGreatest(s.requested);
    LastIsGreatest(s.accepted);
    var state := Rendered(s.state, deps);
    var shown := s.(state := state, committedRound := state.round,
                    renderedRound := state.round, renderedAnswered := state.answered);
    assert Answers(shown) && Accepts(shown);
    if state.round != s.committedRound && s.started < state.round { LoadKeeps(shown, state.round); }
  }

  lemma PollKeeps(s: Section, visible: bool)
    requires Inv(s) && s.Mounted()
    ensures Inv(Polled(s, visible))
  {
    if MayPoll(s, visible) {
      LastIsGreatest(s.requested);
      LastIsGreatest(s.accepted);
      var next := s.renderedRound + 1;
      LoadKeeps(s.(renderedRound := next, state := s.state.(round := Max(s.state.round, next))), next);
    }
  }

  lemma StepKeeps(s: Section, event: Event)
    requires Inv(s) && Possible(s, event)
    ensures Inv(Step(s, event))
  {
    match event
    case Commit(deps) => CommitKeeps(s, deps);
    case Reload =>
    case Update(data) =>
    case Poll(visible) => PollKeeps(s, visible);
    case Answered(round, answer) =>
      HeardKeeps(s, round, answer);
  }

  lemma HeardKeeps(s: Section, round: int, answer: Answer)
    requires Inv(s) && round in s.out
    ensures Inv(Heard(s, round, answer))
  {
    LastIsGreatest(s.requested);
    LastIsGreatest(s.accepted);
    var after := Heard(s, round, answer);
    assert round in s.requested;
    assert forall r :: r in after.heard <==> r in s.heard || r == round;
    assert forall r :: r in after.accepted ==> r in s.accepted || r == round;
    if s.state.round == round {
      assert s.state.answered != round by {
        if s.accepted != [] { assert Last(s.accepted) in s.accepted; }
      }
    }
  }

  lemma {:induction false} RunKeeps(s: Section, events: seq<Event>)
    requires Inv(s) && PossibleRun(s, events)
    ensures Inv(Run(s, events))
    decreases |events|
  {
    if events != [] {
      StepKeeps(s, events[0]);
      RunKeeps(Step(s, events[0]), events[1..]);
    }
  }

  // ---------------------------------------------------------------- what that means

  /**
   * On every run: each round is asked for at most once, in order; the last answer is never ahead of
   * the wanted round; accepted rounds strictly increase; and the section is busy exactly until the
   * wanted round was heard from.
   */
  lemma RoundsInOrder(deps: int, events: seq<Event>)
    requires PossibleRun(Fresh(deps), events)
    ensures var s := Run(Fresh(deps), events);
            && Increasing(s.requested)
            && s.state.answered <= s.state.round
            && Increasing(s.accepted)
            && (s.Busy() <==> s.state.round !in s.heard)
  {
    RunKeeps(Fresh(deps), events);
    var s := Run(Fresh(deps), events);
    if s.accepted != [] { assert Last(s.accepted) in s.accepted; }
  }

  /** A poll starts only once the round on screen was heard from, and then only dropped rounds are still out. */
  lemma PollNeverPilesOn(deps: int, events: seq<Event>, visible: bool)
    requires PossibleRun(Fresh(deps), events)
    requires Run(Fresh(deps), events).Mounted() && MayPoll(Run(Fresh(deps), events), visible)
    ensures var s := Run(Fresh(deps), events);
            && s.renderedRound in s.accepted
            && (forall r :: r in s.out ==> r < s.renderedRound)
            && Step(s, Poll(visible)).requested == s.requested + [s.renderedRound + 1]
  {
    RunKeeps(Fresh(deps), events);
    var s := Run(Fresh(deps), events);
    LastIsGreatest(s.requested);
    if s.requested != [] { assert Last(s.requested) in s.requested; }
  }

  /** An answer changes what is shown only when it is newer than every answer shown before. */
  lemma OlderNeverReplacesNewer(deps: int, events: seq<Event>, round: int, answer: Answer)
    requires PossibleRun(Fresh(deps), events) && round in Run(Fresh(deps), events).out
    ensures var s := Run(Fresh(deps), events);
            var after := Step(s, Answered(round, answer));
            && (after.state == s.state <==> round < s.state.round)
            && (after.state != s.state ==> round == s.state.round && forall r :: r in s.accepted ==> r < round)
  {
    RunKeeps(Fresh(deps), events);
    var s := Run(Fresh(deps), events);
    LastIsGreatest(s.requested);
    LastIsGreatest(s.accepted);
    assert round in s.requested;
    if s.accepted != [] { assert Last(s.accepted) in s.accepted; }
  }

  /** Right after a commit a busy section is waiting for a request that is really out, for the wanted round. */
  lemma BusyMeansWaiting(deps: int, events: seq<Event>, inputs: int)
    requires PossibleRun(Fresh(deps), events)
    ensures var after := Step(Run(Fresh(deps), events), Commit(inputs));
            after.Busy() <==> after.state.round in after.out
  {
    RunKeeps(Fresh(deps), events);
    var s := Run(Fresh(deps), events);
    StepKeeps(s, Commit(inputs));
    var after := Step(s, Commit(inputs));
    LastIsGreatest(after.requested);
    if after.requested != [] { assert Last(after.requested) in after.requested; }
    if after.accepted != [] { assert Last(after.accepted) in after.accepted; }
  }

  // ---------------------------------------------------------------- what is shown

  lemma {:induction false} RunLast(s: Section, events: seq<Event>, n: nat)
    requires |events| == n + 1
    ensures Run(s, events) == Step(Run(s, events[..n]), events[n])
    decreases n
  {
    if n > 0 {
      RunLast(Step(s, events[0]), events[1..], n - 1);
      assert events[1..][..n - 1] == events[..n][1..];
    }
  }

  /** What the event at `i` tells: the answer to the round wanted at that moment, or an edit put in. */
  function ToldAt(deps: int, events: seq<Event>, i: nat): Option<Answer>
    requires i < |events|
  {
    match events[i]
    case Update(data) => Some(Loaded(data))
    case Answered(round, answer) => if Run(Fresh(deps), events[..i]).state.round == round then Some(answer) else None
    case _ => None
  }

  /** The event at `i` gives data. */
  predicate Gives(deps: int, events: seq<Event>, i: nat)
    requires i < |events|
  {
    ToldAt(deps, events, i).Some? && ToldAt(deps, events, i).value.Loaded?
  }

  /** The event at `i` is an answer that is taken. */
  predicate TakenAt(deps: int, events: seq<Event>, i: nat)
    requires i < |events|
  {
    ToldAt(deps, events, i).Some? && events[i].Answered?
  }

  /** The data is what the last edit or taken answer with data gave, and none before the first. */
  lemma {:induction false} DataIsLastGiven(deps: int, events: seq<Event>, i: int)
    requires -1 <= i < |events| && (i >= 0 ==> Gives(deps, events, i))
    requires forall j :: i < j < |events| ==> !Gives(deps, events, j)
    ensures Run(Fresh(deps), events).state.data == if i >= 0 then Some(ToldAt(deps, events, i).value.data) else None
    decreases |events|
  {
    if events != [] {
      var n := |events| - 1;
      var rest := events[..n];
      RunLast(Fresh(deps), events, n);
      assert forall j :: 0 <= j < n ==> rest[..j] == events[..j];
      assert forall j :: 0 <= j < n ==> ToldAt(deps, rest, j) == ToldAt(deps, events, j);
      if i < n {
        assert !Gives(deps, events, n);
        assert forall j :: i < j < n ==> Gives(deps, rest, j) == Gives(deps, events, j);
        DataIsLastGiven(deps, rest, i);
      }
    }
  }

  /** The failure is that of the last taken answer: its message when it failed, and none when it did not. */
  lemma {:induction false} FailureIsOfLastAnswer(deps: int, events: seq<Event>, i: int)
    requires -1 <= i < |events| && (i >= 0 ==> TakenAt(deps, events, i))
    requires forall j :: i < j < |events| ==> !TakenAt(deps, events, j)
    ensures var failure := Run(Fresh(deps), events).state.failure;
            if i < 0 then failure == None
            else match ToldAt(deps, events, i).value
                 case Loaded(_) => failure == None
                 case Failed(message) => failure == Some(message)
    decreases |events|
  {
    if events != [] {
      var n := |events| - 1;
      var rest := events[..n];
      RunLast(Fresh(deps), events, n);
      assert forall j :: 0 <= j < n ==> rest[..j] == events[..j];
      assert forall j :: 0 <= j < n ==> ToldAt(deps, rest, j) == ToldAt(deps, events, j);
      if i < n {
        assert !TakenAt(deps, events, n);
        assert forall j :: i < j < n ==> TakenAt(deps, rest, j) == TakenAt(deps, events, j);
        FailureIsOfLastAnswer(deps, rest, i);
      }
    }
  }

  // ---------------------------------------------------------------- when it asks

  /** A commit wants another round exactly when the inputs changed, and asks for the wanted round unless it was asked for. */
  lemma CommitAsksForWanted(deps: int, events: seq<Event>, inputs: int)
    requires PossibleRun(Fresh(deps), events)
    ensures var s := Run(Fresh(deps), events);
            var after := Step(s, Commit(inputs));
            var wanted := if inputs == s.state.deps then s.state.round else s.state.round + 1;
            && after.state == s.state.(deps := inputs, round := wanted)
            && after.requested == s.requested + if Last(s.requested) < wanted then [wanted] else []
  {
    RunKeeps(Fresh(deps), events);
  }

  /**
   * Between commits a poll asks for the round after the wanted one exactly when the tab is visible and the section
   * was not busy; else it does nothing. What is shown stays until the answer.
   */
  lemma PollsExactly(deps: int, events: seq<Event>, inputs: int, visible: bool)
    requires PossibleRun(Fresh(deps), events)
    ensures var s := Step(Run(Fresh(deps), events), Commit(inputs));
            var next := s.state.round + 1;
            var after := Step(s, Poll(visible));
            if visible && !s.Busy()
            then after.state == s.state.(round := next) && after.requested == s.requested + [next] && next in after.out
            else after == s
  {
    RunKeeps(Fresh(deps), events);
  }

  /** A reload always leads to a request of its own at the next commit, and the section is busy until then. */
  lemma ReloadAsksAnew(deps: int, events: seq<Event>, inputs: int)
    requires PossibleRun(Fresh(deps), events) && Run(Fresh(deps), events).Mounted()
    ensures var s := Run(Fresh(deps), events);
            var after := Step(Step(s, Reload), Commit(inputs));
            && Step(s, Reload).Busy() && after.Busy()
            && after.state.round == s.state.round + (if inputs == s.state.deps then 1 else 2)
            && after.requested == s.requested + [after.state.round] && after.state.round in after.out
  {
    RunKeeps(Fresh(deps), events);
    var s := Run(Fresh(deps), events);
    StepKeeps(s, Reload);
  }
}
