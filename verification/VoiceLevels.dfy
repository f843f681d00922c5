/** How one speaker sounded to one listener: the counts, the thresholds and the level they give. */
module VoiceLevels {
  import opened Arithmetic
  import opened Options

  datatype Level = Good | Unstable | Bad

  /** What a listener's receiver counted for one speaker, over one poll or a window of polls. */
  datatype HeardCounts = HeardCounts(packets: int, lost: int, concealedSamples: int, gaps: int)

  const SAMPLES_PER_PACKET := 960
  const SAMPLE_RATE := 48_000
  const MIN_SPEECH_SAMPLES := 144_000
  const MIN_POLL_SPEECH_SAMPLES := 24_000
  const MIN_GAP_SAMPLES := 480

  const UNSTABLE_GAPS_PER_SPEECH_MIN := 10.0
  const UNSTABLE_MIN_GAPS := 3
  const UNSTABLE_POLL_CONCEALED_PCT := 3.0
  const UNSTABLE_POLL_CONCEALED_MS := 150.0
  const UNSTABLE_WINDOW_CONCEALED_PCT := 3.0
  const BAD_CONCEALED_PCT := 18.0
  const BAD_LONG_GAP_CONCEALED_PCT := 8.0
  const BAD_LONG_GAP_MS := 50.0

  /** Rounds to the nearest integer, halves up, as JavaScript's Math.round does. */
  function Round(x: real): int { (x + 0.5).Floor }

  function Rank(level: Level): nat {
    match level
    case Good => 0
    case Unstable => 1
    case Bad => 2
  }

  function SpeechSamples(counts: HeardCounts): nat { Max(0, counts.packets) * SAMPLES_PER_PACKET }

  function ConcealedOf(counts: HeardCounts): nat {
    Min(Max(0, counts.concealedSamples), SpeechSamples(counts))
  }

  function HeardGaps(counts: HeardCounts): nat {
    Min(Max(0, counts.gaps), Max(0, counts.concealedSamples) / MIN_GAP_SAMPLES)
  }

  predicate CanBeHeard(counts: HeardCounts, n: nat) { n <= counts.gaps && 480 * n <= counts.concealedSamples }

  /** The gaps that can have been heard: the most there are of, each with a whole playout of made-up speech. */
  lemma HeardGapsIsGreatest(counts: HeardCounts)
    ensures HeardGaps(counts) <= Max(0, counts.gaps) && 480 * HeardGaps(counts) <= Max(0, counts.concealedSamples)
    ensures forall n: nat :: CanBeHeard(counts, n) ==> n <= HeardGaps(counts)
  {
    var c := Max(0, counts.concealedSamples);
    assert c == 480 * (c / 480) + c % 480;
  }

  predicate CanBeConcealed(counts: HeardCounts, n: nat) { n <= counts.concealedSamples && n <= 960 * counts.packets }

  /** 960 samples of speech for each packet, and of those no more made up than were counted. */
  lemma ConcealedIsGreatest(counts: HeardCounts)
    ensures SpeechSamples(counts) == if counts.packets > 0 then 960 * counts.packets else 0
    ensures ConcealedOf(counts) <= Max(0, counts.concealedSamples) && ConcealedOf(counts) <= SpeechSamples(counts)
    ensures forall n: nat :: CanBeConcealed(counts, n) ==> n <= ConcealedOf(counts)
  {
  }

  function ConcealedSpeechPct(counts: HeardCounts, minSpeechSamples: nat): Option<real>
    requires minSpeechSamples > 0
  {
    var speech := SpeechSamples(counts);
    if speech < minSpeechSamples then None
    else Some(Round(ConcealedOf(counts) as real / speech as real * 1000.0) as real / 10.0)
  }

  function GapsPerSpeechMin(counts: HeardCounts): Option<real> {
    var speech := SpeechSamples(counts);
    if speech < MIN_SPEECH_SAMPLES then None
    else Some(HeardGaps(counts) as real / (speech as real / SAMPLE_RATE as real / 60.0))
  }

  function AverageGapMs(counts: HeardCounts): real {
    var gaps := HeardGaps(counts);
    if gaps > 0 then ConcealedOf(counts) as real / gaps as real / SAMPLE_RATE as real * 1000.0 else 0.0
  }

  predicate DroppedOut(latest: HeardCounts) {
    var pct := ConcealedSpeechPct(latest, MIN_POLL_SPEECH_SAMPLES);
    && pct.Some?
    && pct.value >= UNSTABLE_POLL_CONCEALED_PCT
    && ConcealedOf(latest) as real / SAMPLE_RATE as real * 1000.0 >= UNSTABLE_POLL_CONCEALED_MS
  }

  function StreamLevel(latest: HeardCounts, window: HeardCounts): Option<Level> {
    var dropout := DroppedOut(latest);
    var concealedPct := ConcealedSpeechPct(window, MIN_SPEECH_SAMPLES);
    var rate := GapsPerSpeechMin(window);
    if concealedPct.None? || rate.None? then (if dropout then Some(Unstable) else None)
    else
      var longGaps := AverageGapMs(window) >= BAD_LONG_GAP_MS;
      if concealedPct.value >= BAD_CONCEALED_PCT
         || (longGaps && concealedPct.value >= BAD_LONG_GAP_CONCEALED_PCT) then Some(Bad)
      else if dropout || concealedPct.value >= UNSTABLE_WINDOW_CONCEALED_PCT then Some(Unstable)
      else if HeardGaps(window) >= UNSTABLE_MIN_GAPS && rate.value >= UNSTABLE_GAPS_PER_SPEECH_MIN then Some(Unstable)
      else Some(Good)
  }

  // ---------------------------------------------------------------- integer form

  /** The made-up share of the speech, rounded to a tenth of a percent, reaches `pct` percent. */
  predicate ShareReaches(counts: HeardCounts, pct: nat) {
    2000 * ConcealedOf(counts) >= (20 * pct - 1) * SpeechSamples(counts)
  }

  predicate ExactDropout(latest: HeardCounts) {
    && SpeechSamples(latest) >= MIN_POLL_SPEECH_SAMPLES
    && ShareReaches(latest, 3)
    && ConcealedOf(latest) >= 7200
  }

  /** StreamLevel as comparisons of whole samples: no division and no rounding. */
  function ExactLevel(latest: HeardCounts, window: HeardCounts): Option<Level> {
    var gaps := HeardGaps(window);
    var longGaps := gaps > 0 && ConcealedOf(window) >= 2400 * gaps;
    if SpeechSamples(window) < MIN_SPEECH_SAMPLES then (if ExactDropout(latest) then Some(Unstable) else None)
    else if ShareReaches(window, 18) || (longGaps && ShareReaches(window, 8)) then Some(Bad)
    else if ExactDropout(latest) || ShareReaches(window, 3) then Some(Unstable)
    else if gaps >= UNSTABLE_MIN_GAPS && 288_000 * gaps >= SpeechSamples(window) then Some(Unstable)
    else Some(Good)
  }

  lemma DivAtLeast(a: real, b: real, k: real)
    requires b > 0.0
    ensures a / b >= k <==> a >= k * b
  {
    var q := a / b;
    assert q * b == a;
    if q >= k { assert (q - k) * b >= 0.0; } else { assert (k - q) * b > 0.0; }
  }

  /** Rounding to a tenth of a percent moves each percent threshold down by exactly half a tenth. */
  lemma RoundedShare(counts: HeardCounts, minSpeech: nat, pct: nat)
    requires 0 < minSpeech <= SpeechSamples(counts) && pct > 0
    ensures ConcealedSpeechPct(counts, minSpeech).value >= pct as real <==> ShareReaches(counts, pct)
  {
    var c, s := ConcealedOf(counts) as real, SpeechSamples(counts) as real;
    var q := c / s;
    var r := Round(q * 1000.0);
    assert r as real / 10.0 >= pct as real <==> r >= 10 * pct;
    assert r >= 10 * pct <==> q * 1000.0 + 0.5 >= (10 * pct) as real;
    var k := (20 * pct - 1) as real / 2000.0;
    assert q * 1000.0 + 0.5 >= (10 * pct) as real <==> q >= k;
    DivAtLeast(c, s, k);
    assert c >= k * s <==> 2000.0 * c >= (20 * pct - 1) as real * s by {
      assert (20 * pct - 1) as real * s == 2000.0 * (k * s);
    }
    ShareInReals(ConcealedOf(counts), SpeechSamples(counts), 20 * pct - 1);
  }

  lemma ShareInReals(c: int, s: int, m: int)
    ensures 2000.0 * c as real >= m as real * s as real <==> 2000 * c >= m * s
  {
    assert (2000 * c) as real == 2000.0 * c as real;
    assert (m * s) as real == m as real * s as real;
  }

  lemma DropoutIsExact(latest: HeardCounts)
    ensures DroppedOut(latest) <==> ExactDropout(latest)
  {
    if SpeechSamples(latest) >= MIN_POLL_SPEECH_SAMPLES {
      RoundedShare(latest, MIN_POLL_SPEECH_SAMPLES, 3);
    }
  }

  lemma LongGapsAreExact(window: HeardCounts)
    ensures AverageGapMs(window) >= BAD_LONG_GAP_MS
       <==> HeardGaps(window) > 0 && ConcealedOf(window) >= 2400 * HeardGaps(window)
  {
    if HeardGaps(window) > 0 {
      DivAtLeast(ConcealedOf(window) as real, HeardGaps(window) as real, 2400.0);
    }
  }

  lemma RateIsExact(window: HeardCounts)
    requires SpeechSamples(window) >= MIN_SPEECH_SAMPLES
    ensures GapsPerSpeechMin(window).value >= UNSTABLE_GAPS_PER_SPEECH_MIN
       <==> 288_000 * HeardGaps(window) >= SpeechSamples(window)
  {
    var minutes := SpeechSamples(window) as real / SAMPLE_RATE as real / 60.0;
    DivAtLeast(HeardGaps(window) as real, minutes, 10.0);
  }

  /** The floating-point-style computation and the whole-sample comparisons agree on every input. */
  lemma StreamLevelIsExact(latest: HeardCounts, window: HeardCounts)
    ensures StreamLevel(latest, window) == ExactLevel(latest, window)
  {
    DropoutIsExact(latest);
    if SpeechSamples(window) >= MIN_SPEECH_SAMPLES {
      RoundedShare(window, MIN_SPEECH_SAMPLES, 18);
      RoundedShare(window, MIN_SPEECH_SAMPLES, 8);
      RoundedShare(window, MIN_SPEECH_SAMPLES, 3);
      LongGapsAreExact(window);
      RateIsExact(window);
    }
  }

  // ---------------------------------------------------------------- monotonicity

  /** `after` is no better than `before`: a level that was told stays told and does not improve. */
  predicate NoBetter(before: Option<Level>, after: Option<Level>) {
    before.Some? ==> after.Some? && Rank(before.value) <= Rank(after.value)
  }

  /** The same packets and gaps with at least as much made-up speech. */
  predicate MoreConcealed(a: HeardCounts, b: HeardCounts) {
    b.packets == a.packets && b.gaps == a.gaps && a.concealedSamples <= b.concealedSamples
  }

  lemma ConcealmentGrows(a: HeardCounts, b: HeardCounts)
    requires MoreConcealed(a, b)
    ensures SpeechSamples(a) == SpeechSamples(b)
    ensures ConcealedOf(a) <= ConcealedOf(b)
    ensures HeardGaps(a) <= HeardGaps(b)
  {
  }

  /**
   * An average gap of 50 ms leaves room for more gaps than were counted, so heardGaps is the raw
   * count there; the average can therefore not fall below 50 ms again as more speech is made up.
   */
  lemma LongGapsCountRaw(a: HeardCounts)
    requires AverageGapMs(a) >= BAD_LONG_GAP_MS
    ensures HeardGaps(a) == a.gaps
  {
    LongGapsAreExact(a);
  }

  /** With packets and gaps fixed, more made-up speech never improves the level. */
  lemma MoreConcealmentNeverImproves(latest: HeardCounts, window: HeardCounts, latest': HeardCounts, window': HeardCounts)
    requires MoreConcealed(latest, latest') && MoreConcealed(window, window')
    ensures NoBetter(StreamLevel(latest, window), StreamLevel(latest', window'))
  {
    StreamLevelIsExact(latest, window);
    StreamLevelIsExact(latest', window');
    ConcealmentGrows(latest, latest');
    ConcealmentGrows(window, window');
    if AverageGapMs(window) >= BAD_LONG_GAP_MS { LongGapsCountRaw(window); }
    LongGapsAreExact(window);
  }

  /** The average gap itself is not monotone: it can fall while more speech is made up. */
  lemma AverageGapCanFall()
    ensures exists a, b :: MoreConcealed(a, b) && AverageGapMs(b) < AverageGapMs(a)
  {
    var a, b := HeardCounts(1000, 0, 959, 2), HeardCounts(1000, 0, 960, 2);
    assert HeardGaps(a) == 1 && HeardGaps(b) == 2;
    assert ConcealedOf(a) == 959 && ConcealedOf(b) == 960;
    assert MoreConcealed(a, b) && AverageGapMs(b) < AverageGapMs(a);
  }

  /** With concealment fixed, more gaps never turn a level that was not good into good. */
  lemma MoreGapsNeverTurnGood(latest: HeardCounts, window: HeardCounts, latest': HeardCounts, window': HeardCounts)
    requires latest' == latest.(gaps := latest'.gaps)
    requires window' == window.(gaps := window'.gaps) && window.gaps <= window'.gaps
    requires StreamLevel(latest, window).Some? && StreamLevel(latest, window).value != Good
    ensures StreamLevel(latest', window').Some? && StreamLevel(latest', window').value != Good
  {
    StreamLevelIsExact(latest, window);
    StreamLevelIsExact(latest', window');
    assert HeardGaps(window) <= HeardGaps(window');
  }

  /**
   * With concealment fixed, more gaps improve the level exactly when it was bad for its long gaps alone and
   * the gaps now counted are short: the same made-up speech in pieces of less than 50 ms on average.
   */
  lemma MoreGapsNeverImproveExactly(latest: HeardCounts, window: HeardCounts, latest': HeardCounts, window': HeardCounts)
    requires latest' == latest.(gaps := latest'.gaps)
    requires window' == window.(gaps := window'.gaps) && window.gaps <= window'.gaps
    ensures NoBetter(StreamLevel(latest, window), StreamLevel(latest', window'))
       <==> StreamLevel(latest, window) != Some(Bad)
            || ShareReaches(window, 18) || 2400 * HeardGaps(window') <= ConcealedOf(window)
    ensures StreamLevel(latest, window) == Some(Bad) ==>
              StreamLevel(latest', window') == Some(if ShareReaches(window, 18) || 2400 * HeardGaps(window') <= ConcealedOf(window)
                                                    then Bad else Unstable)
  {
    StreamLevelIsExact(latest, window);
    StreamLevelIsExact(latest', window');
    assert HeardGaps(window) <= HeardGaps(window');
  }

  /** More gaps can still lift bad to unstable: the same made-up speech in shorter pieces. */
  lemma MoreGapsCanLiftBad()
    ensures exists latest: HeardCounts, window: HeardCounts, more: int :: (
              && window.gaps < more
              && StreamLevel(latest, window) == Some(Bad)
              && StreamLevel(latest, window.(gaps := more)) == Some(Unstable))
  {
    var latest, window := HeardCounts(0, 0, 0, 0), HeardCounts(1000, 0, 96_000, 1);
    StreamLevelIsExact(latest, window);
    StreamLevelIsExact(latest, window.(gaps := 200));
    assert HeardGaps(window.(gaps := 200)) == 200;
  }
}
