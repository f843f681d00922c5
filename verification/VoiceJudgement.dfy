/** Who sounds bad and who hears badly in a room, judged from every listener's report. */
module VoiceJudgement {
  import opened Arithmetic
  import opened Bags
  import opened Options
  import opened VoiceLevels

  datatype Cause = HeardBadly | HearsBadly | Delay
  datatype Verdict = Verdict(level: Level, cause: Option<Cause>)
  datatype HeardStream = HeardStream(senderId: string, latest: HeardCounts, window: HeardCounts)
  datatype VoiceReport = VoiceReport(
    peerId: string,
    rttMs: Option<real>,
    jitterBufferMs: Option<real>,
    uplinkLossPct: Option<real>,
    heard: seq<HeardStream>)
  datatype JudgedStream = JudgedStream(listenerId: string, senderId: string, level: Level, lossPct: real)

  /** One call of `blame`: a verdict charged to a peer. */
  datatype Charge = Charge(peerId: string, verdict: Verdict)

  const CODEC_DELAY_MS := 40.0
  const MOUTH_TO_EAR_MS := 400.0
  const CLEAN := Verdict(Good, None)

  function Or(value: Option<real>, fallback: real): real { if value.Some? then value.value else fallback }

  // ---------------------------------------------------------------- the worse of two verdicts

  function CauseIndex(cause: Cause): nat {
    match cause
    case HeardBadly => 0
    case HearsBadly => 1
    case Delay => 2
  }

  function WorseVerdict(a: Verdict, b: Verdict): Verdict {
    if Rank(b.level) != Rank(a.level) then (if Rank(b.level) > Rank(a.level) then b else a)
    else if a.cause.None? then b
    else if b.cause.None? then a
    else if CauseIndex(b.cause.value) < CauseIndex(a.cause.value) then b
    else a
  }

  /** Where a verdict stands in the order WorseVerdict takes the maximum of. */
  function Score(v: Verdict): nat {
    4 * Rank(v.level) + if v.cause.None? then 0 else 3 - CauseIndex(v.cause.value)
  }

  /** WorseVerdict is the join of a total order with the clean verdict at the bottom. */
  lemma WorseVerdictIsJoin(a: Verdict, b: Verdict, c: Verdict)
    ensures WorseVerdict(a, b) == WorseVerdict(b, a)
    ensures WorseVerdict(WorseVerdict(a, b), c) == WorseVerdict(a, WorseVerdict(b, c))
    ensures WorseVerdict(a, a) == a && WorseVerdict(CLEAN, a) == a
    ensures WorseVerdict(a, b) in {a, b}
    ensures Score(a) <= Score(WorseVerdict(a, b)) && Score(b) <= Score(WorseVerdict(a, b))
    ensures Score(a) == Score(b) ==> a == b
  {
    SameScore(a, b);
    assert Score(WorseVerdict(a, b)) == Max(Score(a), Score(b));
    assert Score(WorseVerdict(b, c)) == Max(Score(b), Score(c));
    SameScore(WorseVerdict(a, b), WorseVerdict(b, a));
    SameScore(WorseVerdict(WorseVerdict(a, b), c), WorseVerdict(a, WorseVerdict(b, c)));
  }

  lemma SameScore(a: Verdict, b: Verdict)
    ensures Score(a) == Score(b) ==> a == b
  {
    assert Score(a) / 4 == Rank(a.level) && Score(b) / 4 == Rank(b.level);
  }

  // ---------------------------------------------------------------- the charges a room's reports make

  /** The report a peer id stands for: the last one sent under it. */
  function ByPeer(reports: seq<VoiceReport>, peerId: string): Option<VoiceReport> {
    if reports == [] then None
    else if reports[|reports| - 1].peerId == peerId then Some(reports[|reports| - 1])
    else ByPeer(reports[..|reports| - 1], peerId)
  }

  function MouthToEarMs(sender: Option<VoiceReport>, listener: VoiceReport): Option<real> {
    if sender.None? || sender.value.rttMs.None? || listener.rttMs.None? then None
    else Some(sender.value.rttMs.value / 2.0 + listener.rttMs.value / 2.0
              + Or(listener.jitterBufferMs, 0.0) + CODEC_DELAY_MS)
  }

  function LossPct(window: HeardCounts): real {
    if window.packets > 0 then Max(0, window.lost) as real / window.packets as real * 100.0 else 0.0
  }

  /** A stream a listener heard, when there was enough speech to judge it. */
  function JudgeStream(listenerId: string): HeardStream -> seq<JudgedStream> {
    (stream: HeardStream) =>
      var level := StreamLevel(stream.latest, stream.window);
      if level.None? then []
      else [JudgedStream(listenerId, stream.senderId, level.value, LossPct(stream.window))]
  }

  function JudgeListener(): VoiceReport -> seq<JudgedStream> {
    (report: VoiceReport) => FlatMap(report.heard, JudgeStream(report.peerId))
  }

  function Judged(reports: seq<VoiceReport>): seq<JudgedStream> { FlatMap(reports, JudgeListener()) }

  function OfSender(id: string): JudgedStream -> seq<JudgedStream> {
    (j: JudgedStream) => if j.senderId == id then [j] else []
  }

  function OfListener(id: string): JudgedStream -> seq<JudgedStream> {
    (j: JudgedStream) => if j.listenerId == id then [j] else []
  }

  function NotGood(): JudgedStream -> seq<JudgedStream> {
    (j: JudgedStream) => if j.level != Good then [j] else []
  }

  /** Whether most of one side's streams sound bad; nothing when one stream cannot tell. */
  function MostlyBad(streams: seq<JudgedStream>): Option<bool> {
    if |streams| < 2 then None else Some(|FlatMap(streams, NotGood())| * 2 > |streams|)
  }

  function SenderSide(judged: seq<JudgedStream>, id: string): Option<bool> {
    MostlyBad(FlatMap(judged, OfSender(id)))
  }

  function ListenerSide(judged: seq<JudgedStream>, id: string): Option<bool> {
    MostlyBad(FlatMap(judged, OfListener(id)))
  }

  /** Whether the speaker, and whether the listener, is at fault for a stream that does not sound good. */
  function Blames(reports: seq<VoiceReport>, judged: seq<JudgedStream>, j: JudgedStream): (bool, bool) {
    var senderSide := SenderSide(judged, j.senderId);
    var listenerSide := ListenerSide(judged, j.listenerId);
    if senderSide.None? && listenerSide.None? then
      var speaker := ByPeer(reports, j.senderId);
      var uplink := if speaker.None? then 0.0 else Or(speaker.value.uplinkLossPct, 0.0);
      var sender := j.lossPct > 0.0 && uplink * 2.0 >= j.lossPct;
      (sender, !sender)
    else
      var sender, listener := senderSide == Some(true), listenerSide == Some(true);
      (sender, listener || !sender)
  }

  function StreamCharges(reports: seq<VoiceReport>, judged: seq<JudgedStream>): JudgedStream -> seq<Charge> {
    (j: JudgedStream) =>
      [Charge(j.listenerId, CLEAN), Charge(j.senderId, CLEAN)] +
      if j.level == Good then []
      else
        var (sender, listener) := Blames(reports, judged, j);
        (if sender then [Charge(j.senderId, Verdict(j.level, Some(HeardBadly)))] else []) +
        (if listener then [Charge(j.listenerId, Verdict(j.level, Some(HearsBadly)))] else [])
  }

  function DelayCharge(reports: seq<VoiceReport>, listener: VoiceReport): HeardStream -> seq<Charge> {
    (stream: HeardStream) =>
      var sender := ByPeer(reports, stream.senderId);
      var delay := MouthToEarMs(sender, listener);
      if delay.None? || delay.value < MOUTH_TO_EAR_MS then []
      else
        var senderShare := Or(sender.value.rttMs, 0.0) / 2.0;
        var listenerShare := Or(listener.rttMs, 0.0) / 2.0 + Or(listener.jitterBufferMs, 0.0);
        [Charge(if senderShare > listenerShare then sender.value.peerId else listener.peerId,
                Verdict(Unstable, Some(Delay)))]
  }

  function DelayCharges(reports: seq<VoiceReport>): VoiceReport -> seq<Charge> {
    (listener: VoiceReport) => FlatMap(listener.heard, DelayCharge(reports, listener))
  }

  /** Every charge the reports make, in the order the loops make them. */
  function Charges(reports: seq<VoiceReport>): seq<Charge> {
    var judged := Judged(reports);
    FlatMap(judged, StreamCharges(reports, judged)) + FlatMap(reports, DelayCharges(reports))
  }

  // ---------------------------------------------------------------- the verdicts

  predicate Hears(reports: seq<VoiceReport>, senderId: string) {
    exists r, s :: r in reports && s in r.heard && s.senderId == senderId
  }

  /** Everyone the reports name: who sent one, and whom they heard. */
  ghost function Named(reports: seq<VoiceReport>): set<string> {
    (set r | r in reports :: r.peerId) + set r, s | r in reports && s in r.heard :: s.senderId
  }

  ghost function Senders(heard: seq<HeardStream>): set<string> { set s | s in heard :: s.senderId }

  lemma SendersStep(heard: seq<HeardStream>, k: nat)
    requires k < |heard|
    ensures Senders(heard[..k + 1]) == Senders(heard[..k]) + {heard[k].senderId}
  {
    assert heard[..k + 1] == heard[..k] + [heard[k]];
  }

  /** The worst verdict charged to a peer so far; none when nothing was. */
  function WorstOf(charges: seq<Charge>, peerId: string): Option<Verdict> {
    if charges == [] then None
    else
      var rest, last := WorstOf(charges[..|charges| - 1], peerId), charges[|charges| - 1];
      if last.peerId != peerId then rest
      else Some(WorseVerdict(if rest.Some? then rest.value else CLEAN, last.verdict))
  }

  /** The room's verdicts as a reference definition: per peer, the worst of all the charges against it. */
  ghost function Verdicts(reports: seq<VoiceReport>): map<string, Option<Verdict>> {
    map p | p in Named(reports) :: WorstOf(Charges(reports), p)
  }

  lemma {:induction false} WorstIsGreatest(charges: seq<Charge>, p: string)
    ensures WorstOf(charges, p).None? <==> forall c :: c in charges ==> c.peerId != p
    ensures WorstOf(charges, p).Some? ==> Charge(p, WorstOf(charges, p).value) in charges
    ensures forall c :: c in charges && c.peerId == p ==> Score(c.verdict) <= Score(WorstOf(charges, p).value)
  {
    if charges != [] {
      var rest, last := charges[..|charges| - 1], charges[|charges| - 1];
      WorstIsGreatest(rest, p);
      assert charges == rest + [last];
      var sofar := WorstOf(rest, p);
      WorseVerdictIsJoin(if sofar.Some? then sofar.value else CLEAN, last.verdict, CLEAN);
      WorseVerdictIsJoin(last.verdict, CLEAN, CLEAN);
    }
  }

  lemma SameChargesSameWorst(a: seq<Charge>, b: seq<Charge>, p: string)
    requires forall c :: c in a <==> c in b
    ensures WorstOf(a, p) == WorstOf(b, p)
  {
    WorstIsGreatest(a, p);
    WorstIsGreatest(b, p);
    if WorstOf(a, p).Some? && WorstOf(b, p).Some? {
      SameScore(WorstOf(a, p).value, WorstOf(b, p).value);
    }
  }

  // ---------------------------------------------------------------- the loops

  function Blame(verdicts: map<string, Option<Verdict>>, charge: Charge): map<string, Option<Verdict>> {
    var current := if charge.peerId in verdicts && verdicts[charge.peerId].Some?
                   then verdicts[charge.peerId].value else CLEAN;
    verdicts[charge.peerId := Some(WorseVerdict(current, charge.verdict))]
  }

  /** The verdict map after the charges made so far, over the peers known so far. */
  ghost predicate Tallied(verdicts: map<string, Option<Verdict>>, peers: set<string>, charges: seq<Charge>) {
    && verdicts.Keys == peers
    && forall p :: p in peers ==> verdicts[p] == WorstOf(charges, p)
  }

  lemma BlameTallies(verdicts: map<string, Option<Verdict>>, peers: set<string>, charges: seq<Charge>, c: Charge)
    requires Tallied(verdicts, peers, charges) && c.peerId in peers
    ensures Tallied(Blame(verdicts, c), peers, charges + [c])
  {
    assert (charges + [c])[..|charges|] == charges;
  }

  method BlameAll(verdicts: map<string, Option<Verdict>>, ghost peers: set<string>, ghost before: seq<Charge>, charges: seq<Charge>)
    returns (after: map<string, Option<Verdict>>)
    requires Tallied(verdicts, peers, before)
    requires forall c :: c in charges ==> c.peerId in peers
    ensures Tallied(after, peers, before + charges)
  {
    after := verdicts;
    assert before + charges[..0] == before;
    for i := 0 to |charges|
      invariant Tallied(after, peers, before + charges[..i])
    {
      BlameTallies(after, peers, before + charges[..i], charges[i]);
      after := Blame(after, charges[i]);
      assert before + charges[..i] + [charges[i]] == before + charges[..i + 1];
    }
    assert before + charges[..|charges|] == before + charges;
  }

  lemma NamedStep(reports: seq<VoiceReport>, i: nat)
    requires i < |reports|
    ensures Named(reports[..i + 1])
         == Named(reports[..i]) + {reports[i].peerId} + Senders(reports[i].heard)
  {
    assert reports[..i + 1] == reports[..i] + [reports[i]];
  }

  lemma JudgedAreNamed(reports: seq<VoiceReport>, j: JudgedStream)
    requires j in Judged(reports)
    ensures j.listenerId in Named(reports) && j.senderId in Named(reports)
  {
    FlatMapMember(reports, JudgeListener(), j);
    var r :| r in reports && j in JudgeListener()(r);
    FlatMapMember(r.heard, JudgeStream(r.peerId), j);
  }

  lemma {:induction false} ByPeerFound(reports: seq<VoiceReport>, id: string)
    ensures ByPeer(reports, id).Some? ==> ByPeer(reports, id).value in reports && ByPeer(reports, id).value.peerId == id
    ensures ByPeer(reports, id).None? <==> forall r :: r in reports ==> r.peerId != id
  {
    if reports != [] {
      ByPeerFound(reports[..|reports| - 1], id);
      assert reports == reports[..|reports| - 1] + [reports[|reports| - 1]];
    }
  }

  lemma DelayChargesAreNamed(reports: seq<VoiceReport>, listener: VoiceReport, stream: HeardStream, c: Charge)
    requires listener in reports && c in DelayCharge(reports, listener)(stream)
    ensures c.peerId in Named(reports)
  {
    ByPeerFound(reports, stream.senderId);
  }

  /** A peer made known, with no verdict unless it has one already. */
  function Known(verdicts: map<string, Option<Verdict>>, id: string): map<string, Option<Verdict>> {
    if id in verdicts then verdicts else verdicts[id := None]
  }

  lemma KnownTallies(verdicts: map<string, Option<Verdict>>, peers: set<string>, id: string)
    requires Tallied(verdicts, peers, [])
    ensures Tallied(Known(verdicts, id), peers + {id}, [])
  {
  }

  lemma HeardStep(named: set<string>, heard: seq<HeardStream>, k: nat)
    requires k < |heard|
    ensures named + Senders(heard[..k + 1]) == named + Senders(heard[..k]) + {heard[k].senderId}
  {
    SendersStep(heard, k);
  }

  lemma AppendStep(judged: seq<JudgedStream>, heard: seq<HeardStream>, k: nat, f: HeardStream -> seq<JudgedStream>)
    requires k < |heard|
    ensures judged + FlatMap(heard[..k + 1], f) == judged + FlatMap(heard[..k], f) + f(heard[k])
  {
    FlatMapStep(heard, k, f);
  }

  /** One listener's part of the first loop: who it heard becomes known, what it heard is judged. */
  method JudgeHeard(listener: VoiceReport, verdicts: map<string, Option<Verdict>>, judged: seq<JudgedStream>, ghost named: set<string>)
    returns (verdicts': map<string, Option<Verdict>>, judged': seq<JudgedStream>)
    requires Tallied(verdicts, named, [])
    ensures Tallied(verdicts', named + Senders(listener.heard), [])
    ensures judged' == judged + JudgeListener()(listener)
  {
    verdicts', judged' := verdicts, judged;
    for k := 0 to |listener.heard|
      invariant Tallied(verdicts', named + Senders(listener.heard[..k]), [])
      invariant judged' == judged + FlatMap(listener.heard[..k], JudgeStream(listener.peerId))
    {
      var stream := listener.heard[k];
      HeardStep(named, listener.heard, k);
      AppendStep(judged, listener.heard, k, JudgeStream(listener.peerId));
      KnownTallies(verdicts', named + Senders(listener.heard[..k]), stream.senderId);
      verdicts' := Known(verdicts', stream.senderId);
      judged' := judged' + JudgeStream(listener.peerId)(stream);
    }
    assert listener.heard[..|listener.heard|] == listener.heard;
  }

  method JudgeStreams(reports: seq<VoiceReport>)
    returns (verdicts: map<string, Option<Verdict>>, judged: seq<JudgedStream>)
    ensures Tallied(verdicts, Named(reports), [])
    ensures judged == Judged(reports)
  {
    verdicts, judged := map[], [];
    for i := 0 to |reports|
      invariant Tallied(verdicts, Named(reports[..i]), [])
      invariant judged == Judged(reports[..i])
    {
      var listener := reports[i];
      KnownTallies(verdicts, Named(reports[..i]), listener.peerId);
      verdicts := Known(verdicts, listener.peerId);
      verdicts, judged := JudgeHeard(listener, verdicts, judged, Named(reports[..i]) + {listener.peerId});
      NamedStep(reports, i);
      FlatMapStep(reports, i, JudgeListener());
    }
    assert reports[..|reports|] == reports;
  }

  method BlameStreams(reports: seq<VoiceReport>, judged: seq<JudgedStream>, verdicts: map<string, Option<Verdict>>)
    returns (verdicts': map<string, Option<Verdict>>)
    requires judged == Judged(reports) && Tallied(verdicts, Named(reports), [])
    ensures Tallied(verdicts', Named(reports), FlatMap(judged, StreamCharges(reports, judged)))
  {
    verdicts' := verdicts;
    ghost var charge := StreamCharges(reports, judged);
    for i := 0 to |judged|
      invariant Tallied(verdicts', Named(reports), FlatMap(judged[..i], charge))
    {
      ChargesAreNamed(reports, judged, judged[i]);
      verdicts' := BlameAll(verdicts', Named(reports), FlatMap(judged[..i], charge), StreamCharges(reports, judged)(judged[i]));
      FlatMapStep(judged, i, charge);
    }
    assert judged[..|judged|] == judged;
  }

  lemma ChargesAreNamed(reports: seq<VoiceReport>, judged: seq<JudgedStream>, j: JudgedStream)
    requires j in Judged(reports)
    ensures forall c :: c in StreamCharges(reports, judged)(j) ==> c.peerId in Named(reports)
  {
    JudgedAreNamed(reports, j);
  }

  method BlameDelays(reports: seq<VoiceReport>, listener: VoiceReport, ghost before: seq<Charge>, verdicts: map<string, Option<Verdict>>)
    returns (verdicts': map<string, Option<Verdict>>)
    requires listener in reports && Tallied(verdicts, Named(reports), before)
    ensures Tallied(verdicts', Named(reports), before + DelayCharges(reports)(listener))
  {
    verdicts' := verdicts;
    assert before + FlatMap(listener.heard[..0], DelayCharge(reports, listener)) == before;
    for k := 0 to |listener.heard|
      invariant Tallied(verdicts', Named(reports), before + FlatMap(listener.heard[..k], DelayCharge(reports, listener)))
    {
      var charges := DelayCharge(reports, listener)(listener.heard[k]);
      forall c | c in charges ensures c.peerId in Named(reports) {
        DelayChargesAreNamed(reports, listener, listener.heard[k], c);
      }
      ghost var sofar := FlatMap(listener.heard[..k], DelayCharge(reports, listener));
      verdicts' := BlameAll(verdicts', Named(reports), before + sofar, charges);
      FlatMapStep(listener.heard, k, DelayCharge(reports, listener));
      assert before + sofar + charges == before + (sofar + charges);
    }
    assert listener.heard[..|listener.heard|] == listener.heard;
  }

  lemma DelayStep(reports: seq<VoiceReport>, i: nat, before: seq<Charge>, f: VoiceReport -> seq<Charge>)
    requires i < |reports|
    ensures before + FlatMap(reports[..i + 1], f) == before + FlatMap(reports[..i], f) + f(reports[i])
  {
    FlatMapStep(reports, i, f);
  }

  method BlameAllDelays(reports: seq<VoiceReport>, ghost before: seq<Charge>, verdicts: map<string, Option<Verdict>>)
    returns (verdicts': map<string, Option<Verdict>>)
    requires Tallied(verdicts, Named(reports), before)
    ensures Tallied(verdicts', Named(reports), before + FlatMap(reports, DelayCharges(reports)))
  {
    verdicts' := verdicts;
    assert before + FlatMap(reports[..0], DelayCharges(reports)) == before;
    for i := 0 to |reports|
      invariant Tallied(verdicts', Named(reports), before + FlatMap(reports[..i], DelayCharges(reports)))
    {
      DelayStep(reports, i, before, DelayCharges(reports));
      verdicts' := BlameDelays(reports, reports[i], before + FlatMap(reports[..i], DelayCharges(reports)), verdicts');
    }
    assert reports[..|reports|] == reports;
  }

  method JudgeVoice(reports: seq<VoiceReport>) returns (verdicts: map<string, Option<Verdict>>)
    ensures verdicts == Verdicts(reports)
  {
    var judged;
    verdicts, judged := JudgeStreams(reports);
    verdicts := BlameStreams(reports, judged, verdicts);
    verdicts := BlameAllDelays(reports, FlatMap(judged, StreamCharges(reports, judged)), verdicts);
  }
}
