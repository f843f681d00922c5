/** What the room's verdicts promise: independence of order, and blame that is complete and sound. */
module VoiceVerdicts {
  import opened Bags
  import opened Options
  import opened VoiceLevels
  import opened VoiceJudgement

  // ---------------------------------------------------------------- where a charge comes from

  ghost predicate FromStream(reports: seq<VoiceReport>, judged: seq<JudgedStream>, c: Charge) {
    exists j :: j in judged && c in StreamCharges(reports, judged)(j)
  }

  ghost predicate FromDelay(reports: seq<VoiceReport>, c: Charge) {
    exists r, s :: r in reports && s in r.heard && c in DelayCharge(reports, r)(s)
  }

  lemma ChargeOrigin(reports: seq<VoiceReport>, c: Charge)
    ensures c in Charges(reports) <==> FromStream(reports, Judged(reports), c) || FromDelay(reports, c)
  {
    var judged := Judged(reports);
    FlatMapMember(judged, StreamCharges(reports, judged), c);
    FlatMapMember(reports, DelayCharges(reports), c);
    forall r | r in reports ensures c in DelayCharges(reports)(r) <==> exists s :: s in r.heard && c in DelayCharge(reports, r)(s) {
      FlatMapMember(r.heard, DelayCharge(reports, r), c);
    }
  }

  // ---------------------------------------------------------------- order independence

  predicate DistinctPeers(reports: seq<VoiceReport>) {
    forall i, j :: 0 <= i < j < |reports| ==> reports[i].peerId != reports[j].peerId
  }

  /** All that one peer's report lends to how another's is judged: its round trip and its uplink. */
  predicate SameLine(x: VoiceReport, y: VoiceReport) { x.rttMs == y.rttMs && x.uplinkLossPct == y.uplinkLossPct }

  /** Reports that share a peer id agree on its line. */
  predicate AgreeOnLine(reports: seq<VoiceReport>) {
    forall x, y :: x in reports && y in reports && x.peerId == y.peerId ==> SameLine(x, y)
  }

  /** A report without the order of what it heard. */
  ghost function Shape(): VoiceReport -> (VoiceReport, multiset<HeardStream>) {
    (r: VoiceReport) => (r.(heard := []), multiset(r.heard))
  }

  /** The same reports in any order, each with the same streams in any order. */
  ghost predicate SameReports(a: seq<VoiceReport>, b: seq<VoiceReport>) {
    Keys(a, Shape()) == Keys(b, Shape())
  }

  lemma SameShape(a: seq<VoiceReport>, b: seq<VoiceReport>, r: VoiceReport) returns (r': VoiceReport)
    requires SameReports(a, b) && r in a
    ensures r' in b && Shape()(r') == Shape()(r)
  {
    KeyIn(a, Shape(), Shape()(r));
    KeyIn(b, Shape(), Shape()(r));
    r' :| r' in b && Shape()(r') == Shape()(r);
  }

  lemma JudgedReordered(a: seq<VoiceReport>, b: seq<VoiceReport>)
    requires SameReports(a, b)
    ensures multiset(Judged(a)) == multiset(Judged(b))
  {
    forall x, y | x in a && y in b && Shape()(x) == Shape()(y)
      ensures multiset(JudgeListener()(x)) == multiset(JudgeListener()(y))
    {
      assert x.peerId == x.(heard := []).peerId == y.(heard := []).peerId == y.peerId;
      FlatMapReordered(x.heard, y.heard, JudgeStream(x.peerId));
    }
    FlatMapBag(a, b, JudgeListener(), Shape());
  }

  lemma MostlyBadReordered(a: seq<JudgedStream>, b: seq<JudgedStream>)
    requires multiset(a) == multiset(b)
    ensures MostlyBad(a) == MostlyBad(b)
  {
    FlatMapReordered(a, b, NotGood());
    assert |a| == |multiset(a)| == |b|;
  }

  lemma SameFields(x: VoiceReport, y: VoiceReport)
    requires Shape()(x) == Shape()(y)
    ensures x.peerId == y.peerId && x.rttMs == y.rttMs
    ensures x.jitterBufferMs == y.jitterBufferMs && x.uplinkLossPct == y.uplinkLossPct
    ensures forall s :: s in x.heard <==> s in y.heard
  {
    assert x.(heard := []) == y.(heard := []);
    assert x.peerId == x.(heard := []).peerId && x.rttMs == x.(heard := []).rttMs;
    assert x.jitterBufferMs == x.(heard := []).jitterBufferMs && x.uplinkLossPct == x.(heard := []).uplinkLossPct;
    forall s ensures s in x.heard <==> s in multiset(x.heard) { }
    forall s ensures s in y.heard <==> s in multiset(y.heard) { }
  }

  lemma SidesReordered(a: seq<JudgedStream>, b: seq<JudgedStream>, id: string)
    requires multiset(a) == multiset(b)
    ensures SenderSide(a, id) == SenderSide(b, id)
    ensures ListenerSide(a, id) == ListenerSide(b, id)
  {
    FlatMapReordered(a, b, OfSender(id));
    FlatMapReordered(a, b, OfListener(id));
    MostlyBadReordered(FlatMap(a, OfSender(id)), FlatMap(b, OfSender(id)));
    MostlyBadReordered(FlatMap(a, OfListener(id)), FlatMap(b, OfListener(id)));
  }

  /** Where reports of one peer agree on its line, a peer id stands for one line in any order. */
  lemma ByPeerReordered(a: seq<VoiceReport>, b: seq<VoiceReport>, id: string)
    requires SameReports(a, b) && AgreeOnLine(a)
    ensures ByPeer(a, id).Some? <==> ByPeer(b, id).Some?
    ensures ByPeer(a, id).Some? ==> SameLine(ByPeer(a, id).value, ByPeer(b, id).value)
  {
    ByPeerFound(a, id);
    ByPeerFound(b, id);
    if ByPeer(a, id).Some? {
      var x := SameShape(a, b, ByPeer(a, id).value);
      SameFields(x, ByPeer(a, id).value);
    }
    if ByPeer(b, id).Some? {
      var y := SameShape(b, a, ByPeer(b, id).value);
      SameFields(y, ByPeer(b, id).value);
      assert SameLine(y, ByPeer(a, id).value);
    }
  }

  lemma LineReordered(a: seq<VoiceReport>, b: seq<VoiceReport>)
    requires SameReports(a, b) && AgreeOnLine(a)
    ensures AgreeOnLine(b)
  {
    forall x, y | x in b && y in b && x.peerId == y.peerId ensures SameLine(x, y) {
      var x' := SameShape(b, a, x);
      var y' := SameShape(b, a, y);
      SameFields(x, x');
      SameFields(y, y');
    }
  }

  /** The speaker's uplink loss, as blaming reads it. */
  function Uplink(reports: seq<VoiceReport>, id: string): real {
    var speaker := ByPeer(reports, id);
    if speaker.None? then 0.0 else Or(speaker.value.uplinkLossPct, 0.0)
  }

  /** Who is at fault, told from the two sides and the speaker's uplink alone. */
  function BlamesBy(senderSide: Option<bool>, listenerSide: Option<bool>, uplink: real, lossPct: real): (bool, bool) {
    if senderSide.None? && listenerSide.None? then
      var sender := lossPct > 0.0 && uplink * 2.0 >= lossPct;
      (sender, !sender)
    else
      var sender, listener := senderSide == Some(true), listenerSide == Some(true);
      (sender, listener || !sender)
  }

  lemma BlamesFromSides(reports: seq<VoiceReport>, judged: seq<JudgedStream>, j: JudgedStream)
    ensures Blames(reports, judged, j)
         == BlamesBy(SenderSide(judged, j.senderId), ListenerSide(judged, j.listenerId), Uplink(reports, j.senderId), j.lossPct)
  {
  }

  lemma UplinkReordered(a: seq<VoiceReport>, b: seq<VoiceReport>, id: string)
    requires SameReports(a, b) && AgreeOnLine(a)
    ensures Uplink(a, id) == Uplink(b, id)
  {
    ByPeerReordered(a, b, id);
  }

  lemma BlamesReordered(a: seq<VoiceReport>, b: seq<VoiceReport>, ja: seq<JudgedStream>, jb: seq<JudgedStream>, j: JudgedStream)
    requires SameReports(a, b) && AgreeOnLine(a) && multiset(ja) == multiset(jb)
    ensures Blames(a, ja, j) == Blames(b, jb, j)
  {
    BlamesFromSides(a, ja, j);
    BlamesFromSides(b, jb, j);
    SidesReordered(ja, jb, j.senderId);
    SidesReordered(ja, jb, j.listenerId);
    UplinkReordered(a, b, j.senderId);
  }

  lemma DelayReordered(a: seq<VoiceReport>, b: seq<VoiceReport>, x: VoiceReport, y: VoiceReport, s: HeardStream)
    requires SameReports(a, b) && AgreeOnLine(a)
    requires x.peerId == y.peerId && x.rttMs == y.rttMs && x.jitterBufferMs == y.jitterBufferMs
    ensures DelayCharge(a, x)(s) == DelayCharge(b, y)(s)
  {
    ByPeerReordered(a, b, s.senderId);
    ByPeerFound(a, s.senderId);
    ByPeerFound(b, s.senderId);
  }

  lemma StreamChargesReordered(a: seq<VoiceReport>, b: seq<VoiceReport>, j: JudgedStream)
    requires SameReports(a, b) && AgreeOnLine(a)
    ensures StreamCharges(a, Judged(a))(j) == StreamCharges(b, Judged(b))(j)
  {
    JudgedReordered(a, b);
    BlamesReordered(a, b, Judged(a), Judged(b), j);
  }

  lemma FromStreamReordered(a: seq<VoiceReport>, b: seq<VoiceReport>, c: Charge)
    requires SameReports(a, b) && AgreeOnLine(a)
    requires FromStream(a, Judged(a), c)
    ensures FromStream(b, Judged(b), c)
  {
    var j :| j in Judged(a) && c in StreamCharges(a, Judged(a))(j);
    JudgedReordered(a, b);
    assert j in multiset(Judged(a));
    StreamChargesReordered(a, b, j);
  }

  lemma FromDelayReordered(a: seq<VoiceReport>, b: seq<VoiceReport>, c: Charge)
    requires SameReports(a, b) && AgreeOnLine(a)
    requires FromDelay(a, c)
    ensures FromDelay(b, c)
  {
    var r, s :| r in a && s in r.heard && c in DelayCharge(a, r)(s);
    var r' := SameShape(a, b, r);
    SameFields(r, r');
    ByPeerReordered(a, b, s.senderId);
    DelayReordered(a, b, r, r', s);
    assert s in r'.heard && c in DelayCharge(b, r')(s);
  }

  lemma NamedReordered(a: seq<VoiceReport>, b: seq<VoiceReport>, p: string)
    requires SameReports(a, b) && p in Named(a)
    ensures p in Named(b)
  {
    if r :| r in a && r.peerId == p {
      var r' := SameShape(a, b, r);
      SameFields(r, r');
    } else {
      var r, s :| r in a && s in r.heard && s.senderId == p;
      var r' := SameShape(a, b, r);
      SameFields(r, r');
      assert s in r'.heard;
    }
  }

  lemma ChargeReordered(a: seq<VoiceReport>, b: seq<VoiceReport>, c: Charge)
    requires SameReports(a, b) && AgreeOnLine(a) && AgreeOnLine(b) && c in Charges(a)
    ensures c in Charges(b)
  {
    ChargeOrigin(a, c);
    ChargeOrigin(b, c);
    if FromStream(a, Judged(a), c) { FromStreamReordered(a, b, c); } else { FromDelayReordered(a, b, c); }
  }

  lemma SameNames(a: seq<VoiceReport>, b: seq<VoiceReport>)
    requires SameReports(a, b)
    ensures Named(a) == Named(b)
  {
    forall p ensures p in Named(a) <==> p in Named(b) {
      if p in Named(a) { NamedReordered(a, b, p); }
      if p in Named(b) { NamedReordered(b, a, p); }
    }
  }

  lemma SameCharges(a: seq<VoiceReport>, b: seq<VoiceReport>)
    requires SameReports(a, b) && AgreeOnLine(a) && AgreeOnLine(b)
    ensures forall c :: c in Charges(a) <==> c in Charges(b)
  {
    forall c ensures c in Charges(a) <==> c in Charges(b) {
      if c in Charges(a) { ChargeReordered(a, b, c); }
      if c in Charges(b) { ChargeReordered(b, a, c); }
    }
  }

  /**
   * Reports in any order, each hearing in any order, give the same verdict for everyone, as long as reports that
   * share a peer id agree on its round trip and its uplink loss.
   */
  lemma OrderDoesNotMatter(a: seq<VoiceReport>, b: seq<VoiceReport>)
    requires SameReports(a, b) && AgreeOnLine(a)
    ensures Verdicts(a) == Verdicts(b)
  {
    LineReordered(a, b);
    SameNames(a, b);
    SameCharges(a, b);
    forall p | p in Named(a) ensures WorstOf(Charges(a), p) == WorstOf(Charges(b), p) {
      SameChargesSameWorst(Charges(a), Charges(b), p);
    }
  }

  /** So for distinct peers the order never matters. */
  lemma DistinctPeersInAnyOrder(a: seq<VoiceReport>, b: seq<VoiceReport>)
    requires SameReports(a, b) && DistinctPeers(a)
    ensures Verdicts(a) == Verdicts(b)
  {
    OrderDoesNotMatter(a, b);
  }

  const BROKEN_STREAM := HeardStream("s", HeardCounts(0, 0, 0, 0), HeardCounts(1000, 500, 500_000, 100))
  const LISTENER := VoiceReport("l", None, None, None, [BROKEN_STREAM])
  const LOSSY := VoiceReport("s", None, None, Some(50.0), [])
  const FINE := VoiceReport("s", None, None, Some(0.0), [])
  const BROKEN_JUDGED := JudgedStream("l", "s", Bad, 50.0)

  /**
   * Two reports under one peer id that differ in uplink loss: the last one wins, so their order decides whether
   * the speaker is said to be heard badly or is clean.
   */
  lemma OrderMattersForOnePeerTwice()
    ensures SameReports([LISTENER, LOSSY, FINE], [LISTENER, FINE, LOSSY])
    ensures "s" in Verdicts([LISTENER, FINE, LOSSY]) && "s" in Verdicts([LISTENER, LOSSY, FINE])
    ensures Verdicts([LISTENER, FINE, LOSSY])["s"] == Some(Verdict(Bad, Some(HeardBadly)))
    ensures Verdicts([LISTENER, LOSSY, FINE])["s"] == Some(CLEAN)
  {
    LastTwoSwapped(LISTENER, LOSSY, FINE);
    BrokenCharged(FINE, LOSSY);
    BrokenCharged(LOSSY, FINE);
    BrokenVerdict(FINE, LOSSY);
    BrokenVerdict(LOSSY, FINE);
  }

  lemma LoneCharge(reports: seq<VoiceReport>, j: JudgedStream, v: Verdict)
    requires Judged(reports) == [j] && j.senderId != j.listenerId && !DelayChargedTo(reports, j.senderId)
    requires Charge(j.senderId, v) in Charges(reports)
    ensures v == CLEAN || v == Verdict(j.level, Some(HeardBadly))
  {
    ChargeShape(reports, Charge(j.senderId, v));
  }

  /** A peer that is charged has a verdict, which is one of its charges and at least as bad as each. */
  lemma ChargedVerdict(reports: seq<VoiceReport>, p: string, c: Charge) returns (v: Verdict)
    requires c in Charges(reports) && c.peerId == p
    ensures p in Verdicts(reports) && Verdicts(reports)[p] == Some(v)
    ensures Charge(p, v) in Charges(reports) && Rank(c.verdict.level) <= Rank(v.level)
  {
    ChargeCounts(reports, c);
    VerdictIsCharged(reports, p);
    v := Verdicts(reports)[p].value;
  }

  /** With one judged stream, a bad one, and no long delay, its speaker is blamed for it or clean. */
  lemma LoneStreamVerdict(reports: seq<VoiceReport>, j: JudgedStream, c: Charge)
    requires Judged(reports) == [j] && j.senderId != j.listenerId && !DelayChargedTo(reports, j.senderId)
    requires c == Charge(j.senderId, Verdict(j.level, Some(HeardBadly))) && j.level == Bad
    ensures j.senderId in Verdicts(reports)
    ensures Verdicts(reports)[j.senderId] == Some(if c in Charges(reports) then c.verdict else CLEAN)
  {
    var p := j.senderId;
    StreamChargeCounts(reports, j, Charge(p, CLEAN));
    var v := ChargedVerdict(reports, p, if c in Charges(reports) then c else Charge(p, CLEAN));
    LoneCharge(reports, j, v);
  }

  lemma BrokenVerdict(x: VoiceReport, y: VoiceReport)
    requires {x, y} == {LOSSY, FINE}
    ensures var verdicts := Verdicts([LISTENER, x, y]);
            "s" in verdicts && verdicts["s"] == Some(if y == LOSSY then Verdict(Bad, Some(HeardBadly)) else CLEAN)
  {
    BrokenJudged(x, y);
    BrokenCharged(x, y);
    NoDelayCharged([LISTENER, x, y], "s");
    LoneStreamVerdict([LISTENER, x, y], BROKEN_JUDGED, Charge("s", Verdict(Bad, Some(HeardBadly))));
  }

  lemma NoDelayCharged(reports: seq<VoiceReport>, p: string)
    requires forall r :: r in reports ==> r.rttMs == None
    ensures !DelayChargedTo(reports, p)
  {
  }

  lemma LastTwoSwapped(l: VoiceReport, x: VoiceReport, y: VoiceReport)
    ensures SameReports([l, x, y], [l, y, x])
  {
    var a, b := [l, x, y], [l, y, x];
    KeysWithout(a, Shape(), 1);
    KeysWithout(b, Shape(), 2);
    assert a[..1] + a[2..] == [l, y] == b[..2] + b[3..];
  }

  lemma BrokenJudged(x: VoiceReport, y: VoiceReport)
    requires x.heard == y.heard == []
    ensures Judged([LISTENER, x, y]) == [BROKEN_JUDGED]
  {
    StreamLevelIsExact(BROKEN_STREAM.latest, BROKEN_STREAM.window);
    var judge := JudgeStream("l");
    assert judge(BROKEN_STREAM) == [BROKEN_JUDGED];
    assert FlatMap([BROKEN_STREAM][..0], judge) == [];
    assert FlatMap([BROKEN_STREAM], judge) == [BROKEN_JUDGED];
    assert JudgeListener()(LISTENER) == [BROKEN_JUDGED];
    var reports := [LISTENER, x, y];
    assert reports[..3] == reports;
    FlatMapStep(reports, 0, JudgeListener());
    FlatMapStep(reports, 1, JudgeListener());
    FlatMapStep(reports, 2, JudgeListener());
  }

  lemma BrokenCharged(x: VoiceReport, y: VoiceReport)
    requires {x, y} == {LOSSY, FINE}
    ensures Charge("s", Verdict(Bad, Some(HeardBadly))) in Charges([LISTENER, x, y]) <==> y == LOSSY
  {
    var reports, j, c := [LISTENER, x, y], BROKEN_JUDGED, Charge("s", Verdict(Bad, Some(HeardBadly)));
    BrokenJudged(x, y);
    assert FlatMap([j][..0], OfSender("s")) == [] == FlatMap([j][..0], OfListener("l"));
    assert FlatMap([j], OfSender("s")) == [j] == FlatMap([j], OfListener("l"));
    assert ByPeer(reports, "s") == Some(y);
    assert Blames(reports, [j], j).0 <==> y == LOSSY;
    ChargeOrigin(reports, c);
    assert !FromDelay(reports, c);
    if y == LOSSY { assert c in StreamCharges(reports, [j])(j); }
  }

  // ---------------------------------------------------------------- completeness and soundness

  predicate Touches(j: JudgedStream, p: string) { j.senderId == p || j.listenerId == p }

  ghost predicate DelayChargedTo(reports: seq<VoiceReport>, p: string) {
    FromDelay(reports, Charge(p, Verdict(Unstable, Some(Delay))))
  }

  /** A charge is the clean one, a stream's own level with the side's cause, or an unstable delay. */
  lemma ChargeShape(reports: seq<VoiceReport>, c: Charge)
    requires c in Charges(reports)
    ensures (c.verdict == Verdict(Unstable, Some(Delay)) && DelayChargedTo(reports, c.peerId))
         || exists j :: j in Judged(reports) && Touches(j, c.peerId) && ChargedFor(reports, j, c)
  {
    ChargeOrigin(reports, c);
    if FromStream(reports, Judged(reports), c) {
      var j :| j in Judged(reports) && c in StreamCharges(reports, Judged(reports))(j);
      StreamChargeShape(reports, j, c);
    } else {
      DelayChargeShape(reports, c);
    }
  }

  lemma StreamChargeShape(reports: seq<VoiceReport>, j: JudgedStream, c: Charge)
    requires c in StreamCharges(reports, Judged(reports))(j)
    ensures Touches(j, c.peerId) && ChargedFor(reports, j, c)
  {
  }

  lemma DelayChargeShape(reports: seq<VoiceReport>, c: Charge)
    requires FromDelay(reports, c)
    ensures c.verdict == Verdict(Unstable, Some(Delay)) && c.peerId in Named(reports)
  {
    var r, s :| r in reports && s in r.heard && c in DelayCharge(reports, r)(s);
    DelayChargesAreNamed(reports, r, s, c);
  }

  /** What a judged stream can charge a peer with. */
  predicate ChargedFor(reports: seq<VoiceReport>, j: JudgedStream, c: Charge) {
    || c.verdict == CLEAN
    || (j.level != Good && c == Charge(j.senderId, Verdict(j.level, Some(HeardBadly))) && Blames(reports, Judged(reports), j).0)
    || (j.level != Good && c == Charge(j.listenerId, Verdict(j.level, Some(HearsBadly))) && Blames(reports, Judged(reports), j).1)
  }

  lemma ChargeIsNamed(reports: seq<VoiceReport>, c: Charge)
    requires c in Charges(reports)
    ensures c.peerId in Named(reports)
  {
    ChargeOrigin(reports, c);
    if FromStream(reports, Judged(reports), c) {
      var j :| j in Judged(reports) && c in StreamCharges(reports, Judged(reports))(j);
      StreamChargeShape(reports, j, c);
      JudgedAreNamed(reports, j);
    } else {
      DelayChargeShape(reports, c);
    }
  }

  /** A charge in the list is in the verdict: the peer is named and its verdict is at least that bad. */
  lemma ChargeCounts(reports: seq<VoiceReport>, c: Charge)
    requires c in Charges(reports)
    ensures c.peerId in Verdicts(reports) && Verdicts(reports)[c.peerId].Some?
    ensures Score(c.verdict) <= Score(Verdicts(reports)[c.peerId].value)
    ensures Rank(c.verdict.level) <= Rank(Verdicts(reports)[c.peerId].value.level)
  {
    WorstIsGreatest(Charges(reports), c.peerId);
    ChargeIsNamed(reports, c);
  }

  lemma StreamChargeCounts(reports: seq<VoiceReport>, j: JudgedStream, c: Charge)
    requires j in Judged(reports) && c in StreamCharges(reports, Judged(reports))(j)
    ensures c in Charges(reports)
  {
    assert FromStream(reports, Judged(reports), c);
    ChargeOrigin(reports, c);
  }

  lemma VerdictIsCharged(reports: seq<VoiceReport>, p: string)
    requires p in Verdicts(reports) && Verdicts(reports)[p].Some?
    ensures Charge(p, Verdicts(reports)[p].value) in Charges(reports)
  {
    WorstIsGreatest(Charges(reports), p);
  }

  /** Complete: a judged stream that is not good leaves its sender or its listener at least that bad. */
  lemma NotGoodIsBlamed(reports: seq<VoiceReport>, j: JudgedStream)
    requires j in Judged(reports) && j.level != Good
    ensures exists p | p in {j.senderId, j.listenerId} :: (
              && p in Verdicts(reports) && Verdicts(reports)[p].Some?
              && Rank(j.level) <= Rank(Verdicts(reports)[p].value.level))
  {
    var (sender, listener) := Blames(reports, Judged(reports), j);
    var c := if sender then Charge(j.senderId, Verdict(j.level, Some(HeardBadly)))
             else Charge(j.listenerId, Verdict(j.level, Some(HearsBadly)));
    StreamChargeCounts(reports, j, c);
    ChargeCounts(reports, c);
  }

  /**
   * Sound: a verdict worse than good carries a cause, and the cause names what charged it. A bad
   * one comes from a judged bad stream on the side the cause says; a delay makes it unstable at most.
   */
  lemma VerdictTraces(reports: seq<VoiceReport>, p: string)
    requires p in Verdicts(reports) && Verdicts(reports)[p].Some?
    ensures var v := Verdicts(reports)[p].value;
            match v.cause
            case None => v.level == Good && exists j :: j in Judged(reports) && Touches(j, p)
            case Some(HeardBadly) => v.level != Good && exists j :: j in Judged(reports) && j.senderId == p && j.level == v.level
            case Some(HearsBadly) => v.level != Good && exists j :: j in Judged(reports) && j.listenerId == p && j.level == v.level
            case Some(Delay) => v.level == Unstable && DelayChargedTo(reports, p)
  {
    VerdictIsCharged(reports, p);
    ChargeShape(reports, Charge(p, Verdicts(reports)[p].value));
  }

  /** Nothing is said of a peer exactly when no judged stream touches it and no long delay is charged to it. */
  lemma SilentExactly(reports: seq<VoiceReport>, p: string)
    requires p in Verdicts(reports)
    ensures Verdicts(reports)[p].None?
       <==> (forall j :: j in Judged(reports) ==> !Touches(j, p)) && !DelayChargedTo(reports, p)
  {
    if Verdicts(reports)[p].Some? { VerdictTraces(reports, p); }
    if j :| j in Judged(reports) && Touches(j, p) {
      StreamChargeCounts(reports, j, Charge(p, CLEAN));
      ChargeCounts(reports, Charge(p, CLEAN));
    }
    if DelayChargedTo(reports, p) {
      var c := Charge(p, Verdict(Unstable, Some(Delay)));
      ChargeOrigin(reports, c);
      ChargeCounts(reports, c);
    }
  }

  /** The verdicts cover exactly the reporters and everyone they heard. */
  lemma EveryoneNamed(reports: seq<VoiceReport>, p: string)
    ensures p in Verdicts(reports) <==> (exists r :: r in reports && r.peerId == p) || Hears(reports, p)
  {
    assert p in Verdicts(reports) <==> p in Named(reports);
  }

  /** What a peer adds to a stream's mouth-to-ear delay: half its round trip, and the jitter buffer of a listener. */
  function DelayShare(report: VoiceReport, listening: bool): real {
    Or(report.rttMs, 0.0) / 2.0 + if listening then Or(report.jitterBufferMs, 0.0) else 0.0
  }

  /** A delay of 400 ms or more is charged to exactly one of the two, and that one adds at least 180 ms of it. */
  lemma DelayBlamesTheLongerHalf(reports: seq<VoiceReport>, listener: VoiceReport, stream: HeardStream)
    requires listener in reports
    ensures var sender := ByPeer(reports, stream.senderId);
            var delay := MouthToEarMs(sender, listener);
            var charges := DelayCharge(reports, listener)(stream);
            if delay.Some? && delay.value >= MOUTH_TO_EAR_MS then
              && |charges| == 1
              && delay.value == DelayShare(sender.value, false) + DelayShare(listener, true) + CODEC_DELAY_MS
              && ((charges[0].peerId == stream.senderId && DelayShare(sender.value, false) >= 180.0)
                  || (charges[0].peerId == listener.peerId && DelayShare(listener, true) >= 180.0))
            else charges == []
  {
    ByPeerFound(reports, stream.senderId);
  }
}
