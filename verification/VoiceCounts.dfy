/** What the reports themselves say of everyone: counts of heard streams, and the charges they make, without the judge's steps. */
module VoiceCounts {
  import opened Arithmetic
  import opened Bags
  import opened Options
  import opened VoiceLevels
  import opened VoiceJudgement
  import opened VoiceVerdicts

  // ---------------------------------------------------------------- counting streams

  /** How one heard stream sounded, from its counts without division or rounding. */
  function Sounded(s: HeardStream): Option<Level> { ExactLevel(s.latest, s.window) }

  type Test = (VoiceReport, HeardStream) -> bool

  function CountHeard(r: VoiceReport, heard: seq<HeardStream>, test: Test): nat {
    if heard == [] then 0
    else CountHeard(r, heard[..|heard| - 1], test) + if test(r, heard[|heard| - 1]) then 1 else 0
  }

  /** In how many places of all the reports' heard lists a stream stands of which the test holds. */
  function Count(reports: seq<VoiceReport>, test: Test): nat {
    if reports == [] then 0
    else
      var last := reports[|reports| - 1];
      Count(reports[..|reports| - 1], test) + CountHeard(last, last.heard, test)
  }

  function From(p: string): Test { (r: VoiceReport, s: HeardStream) => s.senderId == p && Sounded(s).Some? }

  function NotGoodFrom(p: string): Test {
    (r: VoiceReport, s: HeardStream) => s.senderId == p && Sounded(s).Some? && Sounded(s).value != Good
  }

  function To(p: string): Test { (r: VoiceReport, s: HeardStream) => r.peerId == p && Sounded(s).Some? }

  function NotGoodTo(p: string): Test {
    (r: VoiceReport, s: HeardStream) => r.peerId == p && Sounded(s).Some? && Sounded(s).value != Good
  }

  /** More than half of two or more. */
  predicate Most(part: nat, all: nat) { all >= 2 && 2 * part > all }

  predicate MostHear(reports: seq<VoiceReport>, p: string) { Most(Count(reports, NotGoodFrom(p)), Count(reports, From(p))) }

  predicate HearsMost(reports: seq<VoiceReport>, p: string) { Most(Count(reports, NotGoodTo(p)), Count(reports, To(p))) }

  /** Neither side has a second stream to tell it by. */
  predicate Alone(reports: seq<VoiceReport>, r: VoiceReport, s: HeardStream) {
    Count(reports, From(s.senderId)) < 2 && Count(reports, To(r.peerId)) < 2
  }

  /** The report that stands for a peer is the last one sent under its id. */
  predicate LastFrom(reports: seq<VoiceReport>, p: string, i: nat) {
    i < |reports| && reports[i].peerId == p && forall k :: i < k < |reports| ==> reports[k].peerId != p
  }

  /** The speaker's own line lost at least half of what the listener lost. */
  predicate LineExplains(reports: seq<VoiceReport>, s: HeardStream) {
    && s.window.packets > 0 && s.window.lost > 0
    && exists i :: 0 <= i < |reports| && LastFrom(reports, s.senderId, i) && reports[i].uplinkLossPct.Some?
         && 2.0 * reports[i].uplinkLossPct.value * s.window.packets as real >= 100.0 * s.window.lost as real
  }

  // ---------------------------------------------------------------- who is charged with what

  predicate SpeakerAtFault(reports: seq<VoiceReport>, r: VoiceReport, s: HeardStream) {
    if Alone(reports, r, s) then LineExplains(reports, s) else MostHear(reports, s.senderId)
  }

  predicate ListenerAtFault(reports: seq<VoiceReport>, r: VoiceReport, s: HeardStream) {
    !SpeakerAtFault(reports, r, s) || (!Alone(reports, r, s) && HearsMost(reports, r.peerId))
  }

  /** The charges one heard stream makes. */
  predicate StreamMakes(reports: seq<VoiceReport>, r: VoiceReport, s: HeardStream, c: Charge) {
    Sounded(s).Some? &&
    (var level := Sounded(s).value;
     || c == Charge(r.peerId, CLEAN)
     || c == Charge(s.senderId, CLEAN)
     || (level != Good && SpeakerAtFault(reports, r, s) && c == Charge(s.senderId, Verdict(level, Some(HeardBadly))))
     || (level != Good && ListenerAtFault(reports, r, s) && c == Charge(r.peerId, Verdict(level, Some(HearsBadly)))))
  }

  function HalfTrip(r: VoiceReport): real { if r.rttMs.Some? then r.rttMs.value / 2.0 else 0.0 }
  function Buffered(r: VoiceReport): real { if r.jitterBufferMs.Some? then r.jitterBufferMs.value else 0.0 }

  /** The charge a long mouth-to-ear delay makes: to the speaker when its half is the longer, else to the listener. */
  predicate DelayMakes(reports: seq<VoiceReport>, r: VoiceReport, s: HeardStream, c: Charge) {
    exists i :: 0 <= i < |reports| && LastFrom(reports, s.senderId, i) && DelayBetween(reports[i], r, c)
  }

  predicate DelayBetween(speaker: VoiceReport, r: VoiceReport, c: Charge) {
    && speaker.rttMs.Some? && r.rttMs.Some?
    && HalfTrip(speaker) + HalfTrip(r) + Buffered(r) >= 360.0
    && c == Charge(if HalfTrip(speaker) > HalfTrip(r) + Buffered(r) then speaker.peerId else r.peerId,
                   Verdict(Unstable, Some(Delay)))
  }

  /** Every charge the reports make, told from the reports alone. */
  ghost predicate Made(reports: seq<VoiceReport>, c: Charge) {
    exists r, s :: r in reports && s in r.heard && (StreamMakes(reports, r, s, c) || DelayMakes(reports, r, s, c))
  }

  // ---------------------------------------------------------------- the judged streams are the heard ones

  /** A stream is judged as it was heard: between these two, at this level, with this loss. */
  predicate JudgedAs(r: VoiceReport, s: HeardStream, j: JudgedStream) {
    && Sounded(s) == Some(j.level)
    && j.listenerId == r.peerId && j.senderId == s.senderId
    && (if s.window.packets > 0 && s.window.lost > 0
        then j.lossPct * s.window.packets as real == 100.0 * s.window.lost as real
        else j.lossPct == 0.0)
  }

  lemma JudgeStreamIs(r: VoiceReport, s: HeardStream)
    ensures JudgeStream(r.peerId)(s) == [] <==> Sounded(s).None?
    ensures Sounded(s).Some? ==> |JudgeStream(r.peerId)(s)| == 1 && JudgedAs(r, s, JudgeStream(r.peerId)(s)[0])
  {
    StreamLevelIsExact(s.latest, s.window);
    assert JudgeStream(r.peerId)(s) == if Sounded(s).None? then []
      else [JudgedStream(r.peerId, s.senderId, Sounded(s).value, LossPct(s.window))];
    if s.window.packets > 0 { LossIs(s.window); }
  }

  lemma LossIs(w: HeardCounts)
    requires w.packets > 0
    ensures LossPct(w) * w.packets as real == 100.0 * Max(0, w.lost) as real
  {
    var q := Max(0, w.lost) as real / w.packets as real;
    assert q * w.packets as real == Max(0, w.lost) as real;
    assert q * 100.0 * w.packets as real == 100.0 * (q * w.packets as real);
  }

  /** The judged streams are exactly those heard with enough speech to tell. */
  lemma JudgedExactly(reports: seq<VoiceReport>, j: JudgedStream)
    ensures j in Judged(reports) ==> exists r, s :: r in reports && s in r.heard && JudgedAs(r, s, j)
    ensures forall r, s :: r in reports && s in r.heard && Sounded(s).Some? ==>
              exists k :: k in Judged(reports) && JudgedAs(r, s, k)
  {
    if j in Judged(reports) { var _, _ := JudgedIsHeard(reports, j); }
    forall r, s | r in reports && s in r.heard && Sounded(s).Some? ensures exists k :: k in Judged(reports) && JudgedAs(r, s, k) {
      var k := HeardIsJudged(reports, r, s);
    }
  }

  lemma JudgedIsHeard(reports: seq<VoiceReport>, j: JudgedStream) returns (r: VoiceReport, s: HeardStream)
    requires j in Judged(reports)
    ensures r in reports && s in r.heard && JudgedAs(r, s, j)
  {
    FlatMapMember(reports, JudgeListener(), j);
    r :| r in reports && j in JudgeListener()(r);
    FlatMapMember(r.heard, JudgeStream(r.peerId), j);
    s :| s in r.heard && j in JudgeStream(r.peerId)(s);
    JudgeStreamIs(r, s);
  }

  lemma HeardIsJudged(reports: seq<VoiceReport>, r: VoiceReport, s: HeardStream) returns (j: JudgedStream)
    requires r in reports && s in r.heard && Sounded(s).Some?
    ensures j in Judged(reports) && JudgedAs(r, s, j) && JudgeStream(r.peerId)(s) == [j]
  {
    JudgeStreamIs(r, s);
    j := JudgeStream(r.peerId)(s)[0];
    FlatMapMember(r.heard, JudgeStream(r.peerId), j);
    FlatMapMember(reports, JudgeListener(), j);
  }

  // ---------------------------------------------------------------- votes are counts

  /** A selection keeps of a judged stream one when the test holds of the heard stream, else none. */
  ghost predicate Selects(pick: JudgedStream -> seq<JudgedStream>, test: Test) {
    forall r: VoiceReport, s: HeardStream :: |FlatMap(JudgeStream(r.peerId)(s), pick)| == if test(r, s) then 1 else 0
  }

  lemma {:induction false} HeardSelected(r: VoiceReport, heard: seq<HeardStream>, pick: JudgedStream -> seq<JudgedStream>, test: Test)
    requires Selects(pick, test)
    ensures |FlatMap(FlatMap(heard, JudgeStream(r.peerId)), pick)| == CountHeard(r, heard, test)
  {
    if heard != [] {
      var init, last := heard[..|heard| - 1], heard[|heard| - 1];
      HeardSelected(r, init, pick, test);
      FlatMapConcat(FlatMap(init, JudgeStream(r.peerId)), JudgeStream(r.peerId)(last), pick);
      assert |FlatMap(JudgeStream(r.peerId)(last), pick)| == if test(r, last) then 1 else 0;
    }
  }

  lemma {:induction false} Selected(reports: seq<VoiceReport>, pick: JudgedStream -> seq<JudgedStream>, test: Test)
    requires Selects(pick, test)
    ensures |FlatMap(Judged(reports), pick)| == Count(reports, test)
  {
    if reports != [] {
      var init, last := reports[..|reports| - 1], reports[|reports| - 1];
      Selected(init, pick, test);
      HeardSelected(last, last.heard, pick, test);
      FlatMapConcat(Judged(init), JudgeListener()(last), pick);
    }
  }

  function BadOf(pick: JudgedStream -> seq<JudgedStream>): JudgedStream -> seq<JudgedStream> {
    (j: JudgedStream) => FlatMap(pick(j), NotGood())
  }

  lemma {:induction false} PickTwice(js: seq<JudgedStream>, pick: JudgedStream -> seq<JudgedStream>)
    ensures FlatMap(FlatMap(js, pick), NotGood()) == FlatMap(js, BadOf(pick))
  {
    if js != [] {
      var init, last := js[..|js| - 1], js[|js| - 1];
      PickTwice(init, pick);
      FlatMapConcat(FlatMap(init, pick), pick(last), NotGood());
    }
  }

  lemma SelectsSender(p: string)
    ensures Selects(OfSender(p), From(p)) && Selects(BadOf(OfSender(p)), NotGoodFrom(p))
  {
    forall r: VoiceReport, s: HeardStream
      ensures |FlatMap(JudgeStream(r.peerId)(s), OfSender(p))| == if From(p)(r, s) then 1 else 0
      ensures |FlatMap(JudgeStream(r.peerId)(s), BadOf(OfSender(p)))| == if NotGoodFrom(p)(r, s) then 1 else 0
    {
      JudgeStreamIs(r, s);
      if Sounded(s).Some? {
        var j := JudgeStream(r.peerId)(s)[0];
        assert JudgeStream(r.peerId)(s) == [j];
        OneFlat(j, OfSender(p));
        OneFlat(j, BadOf(OfSender(p)));
        OneFlat(j, NotGood());
      }
    }
  }

  lemma SelectsListener(p: string)
    ensures Selects(OfListener(p), To(p)) && Selects(BadOf(OfListener(p)), NotGoodTo(p))
  {
    forall r: VoiceReport, s: HeardStream
      ensures |FlatMap(JudgeStream(r.peerId)(s), OfListener(p))| == if To(p)(r, s) then 1 else 0
      ensures |FlatMap(JudgeStream(r.peerId)(s), BadOf(OfListener(p)))| == if NotGoodTo(p)(r, s) then 1 else 0
    {
      JudgeStreamIs(r, s);
      if Sounded(s).Some? {
        var j := JudgeStream(r.peerId)(s)[0];
        assert JudgeStream(r.peerId)(s) == [j];
        OneFlat(j, OfListener(p));
        OneFlat(j, BadOf(OfListener(p)));
        OneFlat(j, NotGood());
      }
    }
  }

  /** A side's vote is the majority of the counts: none below two streams, else whether more than half are not good. */
  lemma SidesAreCounts(reports: seq<VoiceReport>, p: string)
    ensures SenderSide(Judged(reports), p).None? <==> Count(reports, From(p)) < 2
    ensures SenderSide(Judged(reports), p) == Some(true) <==> MostHear(reports, p)
    ensures ListenerSide(Judged(reports), p).None? <==> Count(reports, To(p)) < 2
    ensures ListenerSide(Judged(reports), p) == Some(true) <==> HearsMost(reports, p)
  {
    var js := Judged(reports);
    SelectsSender(p);
    Selected(reports, OfSender(p), From(p));
    Selected(reports, BadOf(OfSender(p)), NotGoodFrom(p));
    PickTwice(js, OfSender(p));
    SelectsListener(p);
    Selected(reports, OfListener(p), To(p));
    Selected(reports, BadOf(OfListener(p)), NotGoodTo(p));
    PickTwice(js, OfListener(p));
  }

  // ---------------------------------------------------------------- charges are what the reports make

  lemma {:induction false} ByPeerIsLast(reports: seq<VoiceReport>, p: string)
    ensures ByPeer(reports, p).Some? ==> exists i :: 0 <= i < |reports| && LastFrom(reports, p, i) && ByPeer(reports, p) == Some(reports[i])
    ensures forall i :: 0 <= i < |reports| && LastFrom(reports, p, i) ==> ByPeer(reports, p) == Some(reports[i])
  {
    if reports != [] {
      var n := |reports| - 1;
      var init := reports[..n];
      if reports[n].peerId == p {
        assert LastFrom(reports, p, n);
      } else {
        ByPeerIsLast(init, p);
        if ByPeer(init, p).Some? {
          var i :| 0 <= i < |init| && LastFrom(init, p, i) && ByPeer(init, p) == Some(init[i]);
          assert LastFrom(reports, p, i);
        }
        forall i | 0 <= i < |reports| && LastFrom(reports, p, i) ensures ByPeer(reports, p) == Some(reports[i]) {
          assert LastFrom(init, p, i);
        }
      }
    }
  }

  /** The speaker's uplink lost at least half of a positive loss exactly when the counts say so. */
  lemma LineIs(reports: seq<VoiceReport>, r: VoiceReport, s: HeardStream, j: JudgedStream)
    requires JudgedAs(r, s, j)
    ensures (j.lossPct > 0.0 && Uplink(reports, s.senderId) * 2.0 >= j.lossPct) <==> LineExplains(reports, s)
  {
    ByPeerIsLast(reports, s.senderId);
    if s.window.packets > 0 && s.window.lost > 0 {
      HalfOf(Uplink(reports, s.senderId), j.lossPct, s.window.packets as real, s.window.lost as real);
    }
  }

  lemma Positive(x: real, y: real)
    requires y > 0.0 && x * y > 0.0
    ensures x > 0.0
  {
  }

  lemma HalfOf(uplink: real, loss: real, packets: real, lost: real)
    requires packets > 0.0 && lost > 0.0 && loss * packets == 100.0 * lost
    ensures loss > 0.0
    ensures uplink * 2.0 >= loss <==> 2.0 * uplink * packets >= 100.0 * lost
  {
    var d := uplink * 2.0 - loss;
    assert d * packets == 2.0 * uplink * packets - loss * packets;
    if d >= 0.0 { assert d * packets >= 0.0; } else { assert d * packets < 0.0; }
    assert loss > 0.0 by { Positive(loss, packets); }
  }

  lemma FaultIs(reports: seq<VoiceReport>, r: VoiceReport, s: HeardStream, j: JudgedStream)
    requires JudgedAs(r, s, j)
    ensures Blames(reports, Judged(reports), j) == (SpeakerAtFault(reports, r, s), ListenerAtFault(reports, r, s))
  {
    BlamesFromSides(reports, Judged(reports), j);
    SidesAreCounts(reports, j.senderId);
    SidesAreCounts(reports, j.listenerId);
    LineIs(reports, r, s, j);
  }

  lemma StreamMakesIs(reports: seq<VoiceReport>, r: VoiceReport, s: HeardStream, j: JudgedStream, c: Charge)
    requires JudgedAs(r, s, j)
    ensures c in StreamCharges(reports, Judged(reports))(j) <==> StreamMakes(reports, r, s, c)
  {
    FaultIs(reports, r, s, j);
  }

  lemma DelayMakesIs(reports: seq<VoiceReport>, r: VoiceReport, s: HeardStream, c: Charge)
    ensures c in DelayCharge(reports, r)(s) <==> DelayMakes(reports, r, s, c)
  {
    ByPeerIsLast(reports, s.senderId);
    ByPeerFound(reports, s.senderId);
  }

  /** The charges of the three loops are exactly those the reports make. */
  lemma ChargedExactly(reports: seq<VoiceReport>, c: Charge)
    ensures c in Charges(reports) <==> Made(reports, c)
  {
    ChargeOrigin(reports, c);
    if FromStream(reports, Judged(reports), c) {
      var j :| j in Judged(reports) && c in StreamCharges(reports, Judged(reports))(j);
      JudgedExactly(reports, j);
      var r, s :| r in reports && s in r.heard && JudgedAs(r, s, j);
      StreamMakesIs(reports, r, s, j, c);
    }
    if FromDelay(reports, c) {
      var r, s :| r in reports && s in r.heard && c in DelayCharge(reports, r)(s);
      DelayMakesIs(reports, r, s, c);
    }
    if Made(reports, c) { MadeIsCharged(reports, c); }
  }

  lemma MadeIsCharged(reports: seq<VoiceReport>, c: Charge)
    requires Made(reports, c)
    ensures c in Charges(reports)
  {
    ChargeOrigin(reports, c);
    var r, s :| r in reports && s in r.heard && (StreamMakes(reports, r, s, c) || DelayMakes(reports, r, s, c));
    if StreamMakes(reports, r, s, c) {
      var j := HeardIsJudged(reports, r, s);
      StreamMakesIs(reports, r, s, j, c);
      assert FromStream(reports, Judged(reports), c);
    } else {
      DelayMakesIs(reports, r, s, c);
      assert FromDelay(reports, c);
    }
  }

  // ---------------------------------------------------------------- verdicts from the reports alone

  /** Worse: the worse level; at one level being heard badly, then hearing badly, then delay, then nothing. */
  predicate NoWorse(a: Verdict, b: Verdict) {
    || (a.level == Good && b.level != Good)
    || (a.level == Unstable && b.level == Bad)
    || (a.level == b.level && (a.cause == b.cause || a.cause == None || b.cause == Some(HeardBadly)
                               || (a.cause == Some(Delay) && b.cause == Some(HearsBadly))))
  }

  lemma NoWorseIsScore(a: Verdict, b: Verdict)
    ensures NoWorse(a, b) <==> Score(a) <= Score(b)
  {
  }

  /** The verdict of a peer is the worst charge the reports make against it, and null when they make none. */
  lemma VerdictIsWorstMade(reports: seq<VoiceReport>, p: string)
    requires p in Verdicts(reports)
    ensures Verdicts(reports)[p].None? <==> forall c :: Made(reports, c) ==> c.peerId != p
    ensures Verdicts(reports)[p].Some? ==> Made(reports, Charge(p, Verdicts(reports)[p].value))
    ensures Verdicts(reports)[p].Some? ==>
              forall c :: Made(reports, c) && c.peerId == p ==> NoWorse(c.verdict, Verdicts(reports)[p].value)
  {
    WorstIsGreatest(Charges(reports), p);
    forall c: Charge ensures c in Charges(reports) <==> Made(reports, c) { ChargedExactly(reports, c); }
    if Verdicts(reports)[p].Some? {
      forall c | Made(reports, c) && c.peerId == p ensures NoWorse(c.verdict, Verdicts(reports)[p].value) {
        NoWorseIsScore(c.verdict, Verdicts(reports)[p].value);
      }
    }
  }

  /** A charge the reports make leaves its peer with a verdict no better. */
  lemma MadeIsFelt(reports: seq<VoiceReport>, c: Charge)
    requires Made(reports, c)
    ensures c.peerId in Verdicts(reports) && Verdicts(reports)[c.peerId].Some?
    ensures NoWorse(c.verdict, Verdicts(reports)[c.peerId].value)
  {
    MadeIsCharged(reports, c);
    ChargeCounts(reports, c);
    NoWorseIsScore(c.verdict, Verdicts(reports)[c.peerId].value);
  }

  /** A speaker most of whose two or more streams are not good is charged with each of them. */
  lemma MostHearBadly(reports: seq<VoiceReport>, r: VoiceReport, s: HeardStream)
    requires r in reports && s in r.heard && Sounded(s).Some? && Sounded(s).value != Good
    requires Count(reports, From(s.senderId)) >= 2
    requires 2 * Count(reports, NotGoodFrom(s.senderId)) > Count(reports, From(s.senderId))
    ensures s.senderId in Verdicts(reports) && Verdicts(reports)[s.senderId].Some?
    ensures NoWorse(Verdict(Sounded(s).value, Some(HeardBadly)), Verdicts(reports)[s.senderId].value)
  {
    var c := Charge(s.senderId, Verdict(Sounded(s).value, Some(HeardBadly)));
    assert StreamMakes(reports, r, s, c);
    MadeIsFelt(reports, c);
  }

  /** A speaker at most half of whose two or more streams are not good is never said to be heard badly. */
  lemma MostHearWell(reports: seq<VoiceReport>, p: string)
    requires p in Verdicts(reports) && Verdicts(reports)[p].Some?
    requires Count(reports, From(p)) >= 2 && 2 * Count(reports, NotGoodFrom(p)) <= Count(reports, From(p))
    ensures Verdicts(reports)[p].value.cause != Some(HeardBadly)
  {
    VerdictIsWorstMade(reports, p);
  }

  /** A listener most of whose two or more streams are not good is charged with each of them. */
  lemma HearsMostBadly(reports: seq<VoiceReport>, r: VoiceReport, s: HeardStream)
    requires r in reports && s in r.heard && Sounded(s).Some? && Sounded(s).value != Good
    requires Count(reports, To(r.peerId)) >= 2
    requires 2 * Count(reports, NotGoodTo(r.peerId)) > Count(reports, To(r.peerId))
    ensures r.peerId in Verdicts(reports) && Verdicts(reports)[r.peerId].Some?
    ensures NoWorse(Verdict(Sounded(s).value, Some(HearsBadly)), Verdicts(reports)[r.peerId].value)
  {
    var c := Charge(r.peerId, Verdict(Sounded(s).value, Some(HearsBadly)));
    assert StreamMakes(reports, r, s, c);
    MadeIsFelt(reports, c);
  }

  /** Every stream this listener hears badly comes from a speaker most of whose listeners hear badly. */
  predicate SpeakersExplain(reports: seq<VoiceReport>, p: string) {
    forall r, s :: r in reports && s in r.heard && r.peerId == p && Sounded(s).Some? && Sounded(s).value != Good ==>
                     MostHear(reports, s.senderId)
  }

  /**
   * A listener at most half of whose streams are not good is never said to hear badly, as long as each speaker it
   * hears badly is heard badly by most: a speaker who is heard well elsewhere would be charged to it.
   */
  lemma HearsMostWell(reports: seq<VoiceReport>, p: string)
    requires p in Verdicts(reports) && Verdicts(reports)[p].Some?
    requires Count(reports, To(p)) < 2 || 2 * Count(reports, NotGoodTo(p)) <= Count(reports, To(p))
    requires SpeakersExplain(reports, p)
    ensures Verdicts(reports)[p].value.cause != Some(HearsBadly)
  {
    VerdictIsWorstMade(reports, p);
    var v := Verdicts(reports)[p].value;
    if v.cause == Some(HearsBadly) {
      var _, _ := HearsBadlyMade(reports, p, v);
    }
  }

  /** A charge of hearing badly comes from a stream that is not good and the listener's fault. */
  lemma HearsBadlyMade(reports: seq<VoiceReport>, p: string, v: Verdict) returns (r: VoiceReport, s: HeardStream)
    requires Made(reports, Charge(p, v)) && v.cause == Some(HearsBadly)
    ensures r in reports && s in r.heard && r.peerId == p && Sounded(s) == Some(v.level) && v.level != Good
    ensures ListenerAtFault(reports, r, s)
  {
    var c := Charge(p, v);
    r, s :| r in reports && s in r.heard && (StreamMakes(reports, r, s, c) || DelayMakes(reports, r, s, c));
  }

  /** A stream heard badly that no majority of its speaker's listeners confirms is charged to its listener. */
  lemma UnconfirmedIsTheListeners(reports: seq<VoiceReport>, r: VoiceReport, s: HeardStream)
    requires r in reports && s in r.heard && Sounded(s).Some? && Sounded(s).value != Good
    requires !Alone(reports, r, s) && !MostHear(reports, s.senderId)
    ensures r.peerId in Verdicts(reports) && Verdicts(reports)[r.peerId].Some?
    ensures NoWorse(Verdict(Sounded(s).value, Some(HearsBadly)), Verdicts(reports)[r.peerId].value)
  {
    var c := Charge(r.peerId, Verdict(Sounded(s).value, Some(HearsBadly)));
    assert StreamMakes(reports, r, s, c);
    MadeIsFelt(reports, c);
  }

  /** Between two people the speaker's line decides: it is the speaker's fault when its uplink lost half as much, else the listener's. */
  lemma BetweenTwo(reports: seq<VoiceReport>, r: VoiceReport, s: HeardStream)
    requires r in reports && s in r.heard && Sounded(s).Some? && Sounded(s).value != Good && Alone(reports, r, s)
    ensures var p := if LineExplains(reports, s) then s.senderId else r.peerId;
            var cause := if LineExplains(reports, s) then HeardBadly else HearsBadly;
            && p in Verdicts(reports) && Verdicts(reports)[p].Some?
            && NoWorse(Verdict(Sounded(s).value, Some(cause)), Verdicts(reports)[p].value)
  {
    var p := if LineExplains(reports, s) then s.senderId else r.peerId;
    var cause := if LineExplains(reports, s) then HeardBadly else HearsBadly;
    var c := Charge(p, Verdict(Sounded(s).value, Some(cause)));
    assert StreamMakes(reports, r, s, c);
    MadeIsFelt(reports, c);
  }
}
