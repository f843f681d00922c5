/** The microphone's noise gate, sample by sample; the samples and the detector are real numbers. */
module NoiseGate {
  import opened Arithmetic
  import opened Options

  datatype Settings = Settings(
    threshold: real,
    closeThreshold: real,
    closeRatio: real,
    floorGain: real,
    holdSamples: nat,
    attack: real,
    release: real,
    detectorAttack: real,
    detectorRelease: real)
  {
    /** What the constructor's clamps and the exponential smoothing leave possible. */
    predicate Valid() {
      && 0.0 <= threshold
      && 0.0 <= closeRatio <= 1.0
      && closeThreshold == CloseAt(threshold, closeRatio)
      && 0.0 <= floorGain <= 1.0
      && 0.0 <= attack <= 1.0 && 0.0 <= release <= 1.0
      && 0.0 <= detectorAttack <= 1.0 && 0.0 <= detectorRelease <= 1.0
    }
  }

  datatype Gate = Gate(detector: real, gain: real, isOpen: bool, holdRemaining: nat) {
    predicate Valid(settings: Settings) { 0.0 <= detector && settings.floorGain <= gain <= 1.0 }
  }

  function CloseAt(threshold: real, closeRatio: real): real { threshold * closeRatio }

  /** Clamped to [0, 1]. */
  function Unit(x: real): (u: real)
    ensures 0.0 <= u <= 1.0 && (u < x ==> u == 1.0) && (x < u ==> u == 0.0)
  {
    if x < 0.0 then 0.0 else if x > 1.0 then 1.0 else x
  }

  /** The share `c` of the way from `a` to `b`. */
  function Toward(a: real, b: real, c: real): real { a + (b - a) * c }

  function DetectorStep(settings: Settings, detector: real, sample: real): real {
    var level := Abs(sample);
    Toward(detector, level, if level > detector then settings.detectorAttack else settings.detectorRelease)
  }

  function Opened(settings: Settings, isOpen: bool, holdRemaining: nat, detector: real): (bool, nat) {
    if detector >= settings.threshold then (true, settings.holdSamples)
    else if isOpen && detector < settings.closeThreshold then
      (if holdRemaining > 0 then (true, holdRemaining - 1) else (false, holdRemaining))
    else (isOpen, holdRemaining)
  }

  function GainStep(settings: Settings, gain: real, isOpen: bool): real {
    var target := if isOpen then 1.0 else settings.floorGain;
    Toward(gain, target, if target > gain then settings.attack else settings.release)
  }

  function Step(settings: Settings, g: Gate, sample: real): (Gate, real) {
    var detector := DetectorStep(settings, g.detector, sample);
    var (isOpen, holdRemaining) := Opened(settings, g.isOpen, g.holdRemaining, detector);
    var gain := GainStep(settings, g.gain, isOpen);
    (Gate(detector, gain, isOpen, holdRemaining), sample * gain)
  }

  /** The gate after some samples, and what it let through. */
  function Run(settings: Settings, g: Gate, samples: seq<real>): (result: (Gate, seq<real>))
    ensures |result.1| == |samples|
  {
    if samples == [] then (g, [])
    else
      var n := |samples| - 1;
      var (before, outputs) := Run(settings, g, samples[..n]);
      var (after, output) := Step(settings, before, samples[n]);
      (after, outputs + [output])
  }

  function Built(settings: Settings): Gate {
    Gate(0.0, if settings.threshold > 0.0 then settings.floorGain else 1.0, false, 0)
  }

  /** The gate after the page set another threshold; zero opens it at once. */
  function WithThreshold(settings: Settings, g: Gate, value: real): (Settings, Gate) {
    var threshold := if value > 0.0 then value else 0.0;
    (settings.(threshold := threshold, closeThreshold := CloseAt(threshold, settings.closeRatio)),
     if threshold <= 0.0 then g.(isOpen := true, holdRemaining := settings.holdSamples) else g)
  }

  // ---------------------------------------------------------------- the processor

  /** The block's samples as the loop reads them: silence where the input has no more. */
  function Padded(input: seq<real>, n: nat): seq<real> {
    seq(n, i requires 0 <= i < n => if i < |input| then input[i] else 0.0)
  }

  class NoiseGateProcessor {
    var settings: Settings
    var gate: Gate

    constructor (threshold: real, closeRatio: real, floorGain: real, holdSamples: nat,
                 attack: real, release: real, detectorAttack: real, detectorRelease: real)
      requires 0.0 <= attack <= 1.0 && 0.0 <= release <= 1.0
      requires 0.0 <= detectorAttack <= 1.0 && 0.0 <= detectorRelease <= 1.0
      ensures settings.Valid() && gate == Built(settings) && gate.Valid(settings)
      ensures settings.threshold == (if threshold > 0.0 then threshold else 0.0) && settings.holdSamples == holdSamples
      ensures settings.closeRatio == Unit(closeRatio) && settings.floorGain == Unit(floorGain)
      ensures settings.attack == attack && settings.release == release
      ensures settings.detectorAttack == detectorAttack && settings.detectorRelease == detectorRelease
      ensures settings.closeThreshold == settings.threshold * settings.closeRatio
      ensures gate == Gate(0.0, if threshold > 0.0 then settings.floorGain else 1.0, false, 0)
    {
      var level, ratio := if threshold > 0.0 then threshold else 0.0, Unit(closeRatio);
      var options := Settings(level, CloseAt(level, ratio), ratio, Unit(floorGain), holdSamples,
                              attack, release, detectorAttack, detectorRelease);
      settings := options;
      gate := Built(options);
    }

    method SetThreshold(value: real)
      modifies this
      ensures old(settings.Valid() && gate.Valid(settings)) ==> settings.Valid() && gate.Valid(settings)
      ensures (settings, gate) == WithThreshold(old(settings), old(gate), value)
      ensures settings.threshold >= 0.0 && settings.threshold >= value && settings.threshold in {0.0, value}
      ensures settings.closeThreshold == settings.threshold * settings.closeRatio
    {
      var threshold := if value > 0.0 then value else 0.0;
      settings := settings.(threshold := threshold, closeThreshold := CloseAt(threshold, settings.closeRatio));
      if settings.threshold <= 0.0 {
        gate := gate.(isOpen := true, holdRemaining := settings.holdSamples);
      }
    }

    /** A block: silence, with nothing changed, while no input is connected. */
    method Process(input: Option<seq<real>>, output: array<real>)
      modifies this, output
      ensures settings == old(settings)
      ensures input.None? ==> gate == old(gate) && forall i :: 0 <= i < output.Length ==> output[i] == 0.0
      ensures input.Some? ==> (gate, output[..]) == Run(settings, old(gate), Padded(input.value, output.Length))
    {
      if input.None? {
        forall i | 0 <= i < output.Length { output[i] := 0.0; }
        return;
      }
      ProcessInput(input.value, output);
    }

    method ProcessInput(input: seq<real>, output: array<real>)
      modifies this, output
      ensures settings == old(settings)
      ensures (gate, output[..]) == Run(settings, old(gate), Padded(input, output.Length))
    {
      ghost var samples := Padded(input, output.Length);
      for index := 0 to output.Length
        invariant settings == old(settings)
        invariant (gate, output[..index]) == Run(settings, old(gate), samples[..index])
      {
        var sample := if index < |input| then input[index] else 0.0;
        var (next, out) := Step(settings, gate, sample);
        gate := next;
        output[index] := out;
        assert samples[..index + 1][..index] == samples[..index];
        assert output[..index + 1] == output[..index] + [out];
      }
      assert samples[..output.Length] == samples && output[..output.Length] == output[..];
    }
  }

  // ---------------------------------------------------------------- bounds

  lemma Scale(x: real, c: real)
    requires 0.0 <= x && 0.0 <= c <= 1.0
    ensures 0.0 <= x * c <= x
  {
    var rest := 1.0 - c;
    assert x * rest >= 0.0;
    assert x * c + x * rest == x * (c + rest);
  }

  lemma ScaleAbs(x: real, c: real)
    requires 0.0 <= c <= 1.0
    ensures Abs(x * c) <= Abs(x)
  {
    if x < 0.0 {
      var rest := 1.0 - c;
      assert x * c <= 0.0 && x * rest <= 0.0;
      assert x * c + x * rest == x * (c + rest);
    } else {
      Scale(x, c);
    }
  }

  lemma Between(a: real, b: real, c: real)
    requires 0.0 <= c <= 1.0
    ensures a <= b ==> a <= Toward(a, b, c) <= b
    ensures b <= a ==> b <= Toward(a, b, c) <= a
  {
    var d, e := b - a, a - b;
    assert d * c == -(e * c) by { assert (d + e) * c == d * c + e * c; }
    if d >= 0.0 { Scale(d, c); }
    if e >= 0.0 { Scale(e, c); }
  }

  lemma DetectorStays(settings: Settings, detector: real, sample: real)
    requires settings.Valid() && 0.0 <= detector
    ensures 0.0 <= DetectorStep(settings, detector, sample)
  {
    Between(detector, Abs(sample), settings.detectorAttack);
    Between(detector, Abs(sample), settings.detectorRelease);
  }

  lemma GainStays(settings: Settings, gain: real, isOpen: bool)
    requires settings.Valid() && settings.floorGain <= gain <= 1.0
    ensures settings.floorGain <= GainStep(settings, gain, isOpen) <= 1.0
  {
    var target := if isOpen then 1.0 else settings.floorGain;
    Between(gain, target, settings.attack);
    Between(gain, target, settings.release);
  }

  lemma CloseIsBelow(threshold: real, closeRatio: real)
    requires 0.0 <= threshold && 0.0 <= closeRatio <= 1.0
    ensures 0.0 <= CloseAt(threshold, closeRatio) <= threshold
  {
    Scale(threshold, closeRatio);
  }

  lemma StepStaysBounded(settings: Settings, g: Gate, sample: real)
    requires settings.Valid() && g.Valid(settings)
    ensures var (after, output) := Step(settings, g, sample);
            after.Valid(settings) && Abs(output) <= Abs(sample)
  {
    DetectorStays(settings, g.detector, sample);
    var (after, output) := Step(settings, g, sample);
    GainStays(settings, g.gain, after.isOpen);
    ScaleAbs(sample, after.gain);
  }

  /** On every run the gain stays between its floor and one, and no sample comes out louder than it went in. */
  lemma {:induction false} RunStaysBounded(settings: Settings, g: Gate, samples: seq<real>)
    requires settings.Valid() && g.Valid(settings)
    ensures var (after, outputs) := Run(settings, g, samples);
            after.Valid(settings) && forall i :: 0 <= i < |samples| ==> Abs(outputs[i]) <= Abs(samples[i])
  {
    if samples != [] {
      var n := |samples| - 1;
      RunStaysBounded(settings, g, samples[..n]);
      StepStaysBounded(settings, Run(settings, g, samples[..n]).0, samples[n]);
    }
  }

  // ---------------------------------------------------------------- when it opens and closes

  /** The detector's values over a run. */
  function Detected(settings: Settings, detector: real, samples: seq<real>): seq<real> {
    if samples == [] then []
    else
      var n := |samples| - 1;
      var before := Detected(settings, detector, samples[..n]);
      before + [DetectorStep(settings, if before == [] then detector else before[|before| - 1], samples[n])]
  }

  /** How many values below the closing threshold were taken since the last one at or above the threshold. */
  function QuietSince(settings: Settings, values: seq<real>): nat {
    if values == [] || values[|values| - 1] >= settings.threshold then 0
    else QuietSince(settings, values[..|values| - 1]) + if values[|values| - 1] < settings.closeThreshold then 1 else 0
  }

  predicate AnyLoud(settings: Settings, values: seq<real>) {
    exists i :: 0 <= i < |values| && values[i] >= settings.threshold
  }

  /**
   * Whether the gate is open, told from the detector's values alone: it shuts on the value that is
   * one more than `holdSamples` below the closing threshold since the last loud one. Before any
   * loud value, it is still open as long as the hold it started with lasts.
   */
  predicate IsOpen(settings: Settings, g: Gate, values: seq<real>) {
    if AnyLoud(settings, values) then QuietSince(settings, values) <= settings.holdSamples
    else g.isOpen && QuietSince(settings, values) <= g.holdRemaining
  }

  /** The open flag and the hold counter over the detector's values. */
  function OpenRun(settings: Settings, g: Gate, values: seq<real>): (bool, nat) {
    if values == [] then (g.isOpen, g.holdRemaining)
    else
      var (isOpen, holdRemaining) := OpenRun(settings, g, values[..|values| - 1]);
      Opened(settings, isOpen, holdRemaining, values[|values| - 1])
  }

  lemma {:induction false} RunFollowsDetector(settings: Settings, g: Gate, samples: seq<real>)
    ensures var after, values := Run(settings, g, samples).0, Detected(settings, g.detector, samples);
            && |values| == |samples|
            && after.detector == (if values == [] then g.detector else values[|values| - 1])
            && (after.isOpen, after.holdRemaining) == OpenRun(settings, g, values)
  {
    if samples != [] {
      var n := |samples| - 1;
      RunFollowsDetector(settings, g, samples[..n]);
      assert Detected(settings, g.detector, samples)[..n] == Detected(settings, g.detector, samples[..n]);
    }
  }

  lemma {:induction false} OpenRunExactly(settings: Settings, g: Gate, values: seq<real>)
    requires settings.closeThreshold <= settings.threshold
    ensures var (isOpen, holdRemaining) := OpenRun(settings, g, values);
            && isOpen == IsOpen(settings, g, values)
            && (isOpen ==> holdRemaining + QuietSince(settings, values)
                           == if AnyLoud(settings, values) then settings.holdSamples else g.holdRemaining)
  {
    if values != [] {
      var n := |values| - 1;
      OpenRunExactly(settings, g, values[..n]);
      assert values[n] >= settings.threshold || AnyLoud(settings, values) == AnyLoud(settings, values[..n]) by {
        if i :| 0 <= i < |values| && values[i] >= settings.threshold && i < n { assert values[..n][i] == values[i]; }
      }
    }
  }

  /** After any samples the gate is open exactly when the detector's values say so. */
  lemma OpensAndClosesExactly(settings: Settings, g: Gate, samples: seq<real>)
    requires settings.Valid()
    ensures Run(settings, g, samples).0.isOpen == IsOpen(settings, g, Detected(settings, g.detector, samples))
  {
    CloseIsBelow(settings.threshold, settings.closeRatio);
    RunFollowsDetector(settings, g, samples);
    OpenRunExactly(settings, g, Detected(settings, g.detector, samples));
  }

  /** A shut gate opens exactly on a detector value at or above the threshold. */
  lemma OpensOnlyWhenLoud(settings: Settings, g: Gate, samples: seq<real>)
    requires settings.Valid() && !g.isOpen
    ensures Run(settings, g, samples).0.isOpen ==> AnyLoud(settings, Detected(settings, g.detector, samples))
  {
    OpensAndClosesExactly(settings, g, samples);
  }

  // ---------------------------------------------------------------- how detector and gain move

  /** The gates a run passes through, from the one it starts with. */
  ghost predicate Passes(settings: Settings, samples: seq<real>, gates: seq<Gate>) {
    && |gates| == |samples| + 1
    && forall i {:trigger samples[i]} :: 0 <= i < |samples| ==> gates[i + 1] == Step(settings, gates[i], samples[i]).0
  }

  lemma RunOnward(settings: Settings, g: Gate, samples: seq<real>, rest: seq<real>, last: real)
    requires samples == rest + [last]
    ensures var (before, outputs) := Run(settings, g, rest);
            var (after, output) := Step(settings, before, last);
            Run(settings, g, samples) == (after, outputs + [output])
  {
    assert samples[..|samples| - 1] == rest;
  }

  /** These gates and outputs are those of the steps over the samples, one after the other. */
  ghost predicate Steps(settings: Settings, samples: seq<real>, gates: seq<Gate>, outputs: seq<real>) {
    && Passes(settings, samples, gates) && |outputs| == |samples|
    && forall i :: 0 <= i < |samples| ==> outputs[i] == Step(settings, gates[i], samples[i]).1
  }

  lemma OneMoreStep(settings: Settings, samples: seq<real>, gates: seq<Gate>, outputs: seq<real>, last: real, after: Gate, output: real)
    requires Steps(settings, samples, gates, outputs)
    requires (after, output) == Step(settings, gates[|samples|], last)
    ensures Steps(settings, samples + [last], gates + [after], outputs + [output])
  {
  }

  /** A run is the steps from the gate it starts with to the gate it ends with. */
  lemma {:induction false} RunPasses(settings: Settings, g: Gate, samples: seq<real>) returns (gates: seq<Gate>)
    ensures Steps(settings, samples, gates, Run(settings, g, samples).1)
    ensures gates[0] == g && gates[|samples|] == Run(settings, g, samples).0
  {
    if samples == [] {
      gates := [g];
    } else {
      var rest, last := samples[..|samples| - 1], samples[|samples| - 1];
      assert samples == rest + [last];
      var before := RunPasses(settings, g, rest);
      var (after, output) := Step(settings, before[|rest|], last);
      gates := before + [after];
      OneMoreStep(settings, rest, before, Run(settings, g, rest).1, last, after, output);
      RunOnward(settings, g, samples, rest, last);
    }
  }

  /** The part of a distance that is left when the share `c` of it was taken. */
  function Rest(distance: real, c: real): real { distance * (1.0 - c) }

  /** What is left of a distance after `n` steps that each take the share `c` of what is left. */
  function Left(distance: real, c: real, n: nat): real {
    if n == 0 then distance else Rest(Left(distance, c, n - 1), c)
  }

  lemma RestKeepsSide(x: real, c: real)
    requires 0.0 <= c <= 1.0
    ensures (x >= 0.0 ==> Rest(x, c) >= 0.0) && (x <= 0.0 ==> Rest(x, c) <= 0.0)
  {
    var k := 1.0 - c;
    assert x >= 0.0 ==> x * k >= 0.0;
    assert x <= 0.0 ==> x * k <= 0.0;
  }

  lemma {:induction false} LeftKeepsSide(distance: real, c: real, n: nat)
    requires 0.0 <= c <= 1.0
    ensures distance >= 0.0 ==> Left(distance, c, n) >= 0.0
    ensures distance <= 0.0 ==> Left(distance, c, n) <= 0.0
  {
    if n > 0 {
      LeftKeepsSide(distance, c, n - 1);
      RestKeepsSide(Left(distance, c, n - 1), c);
    }
  }

  /** A step towards a goal takes the share `c` off the distance to it. */
  lemma TowardTakesShare(x: real, goal: real, c: real)
    ensures Toward(x, goal, c) == goal + Rest(x - goal, c)
  {
    var d := x - goal;
    assert d * (1.0 - c) == d - d * c;
    assert (goal - x) * c == -(d * c) by { assert (-d) * c == -(d * c); }
  }

  lemma StaysAtGoal(goal: real, c: real, share: real)
    ensures Toward(goal, goal, c) == goal && Rest(goal - goal, share) == 0.0
  {
    assert 0.0 * c == 0.0 && 0.0 * (1.0 - share) == 0.0;
  }

  /** Every sample of the run is this loud, on either side of zero. */
  predicate AllLevel(samples: seq<real>, level: real) {
    forall i :: 0 <= i < |samples| ==> samples[i] == level || samples[i] == -level
  }

  /** The share the detector takes towards a level: the attack's from below it, else the release's. */
  function Share(settings: Settings, detector: real, level: real): real {
    if detector < level then settings.detectorAttack else settings.detectorRelease
  }

  lemma DetectorCloser(settings: Settings, g: Gate, sample: real, level: real, share: real)
    requires level >= 0.0 && (sample == level || sample == -level)
    requires g.detector != level ==> share == Share(settings, g.detector, level)
    ensures Step(settings, g, sample).0.detector == level + Rest(g.detector - level, share)
  {
    if g.detector == level {
      StaysAtGoal(level, settings.detectorRelease, share);
    } else {
      TowardTakesShare(g.detector, level, share);
    }
  }

  /**
   * Under a sound of one level the detector closes in on the level: from below with the attack share of the distance
   * for each sample, from above with the release share.
   */
  lemma {:induction false} DetectorCloses(settings: Settings, samples: seq<real>, gates: seq<Gate>, level: real, n: nat)
    requires settings.Valid() && level >= 0.0 && AllLevel(samples, level)
    requires Passes(settings, samples, gates) && n <= |samples|
    ensures var share := if gates[0].detector < level then settings.detectorAttack else settings.detectorRelease;
            gates[n].detector == level + Left(gates[0].detector - level, share, n)
  {
    if n > 0 {
      var share := Share(settings, gates[0].detector, level);
      DetectorCloses(settings, samples, gates, level, n - 1);
      LeftKeepsSide(gates[0].detector - level, share, n - 1);
      DetectorCloser(settings, gates[n - 1], samples[n - 1], level, share);
    }
  }

  /** Where the gain goes, and the share of the way it takes with each sample. */
  function Goal(settings: Settings, isOpen: bool): (real, real) {
    if isOpen then (1.0, settings.attack) else (settings.floorGain, settings.release)
  }

  lemma GainCloser(settings: Settings, g: Gate, sample: real, isOpen: bool)
    requires settings.floorGain <= g.gain <= 1.0 && Step(settings, g, sample).0.isOpen == isOpen
    ensures var (goal, share) := Goal(settings, isOpen);
            Step(settings, g, sample).0.gain == goal + Rest(g.gain - goal, share)
  {
    var (goal, share) := Goal(settings, isOpen);
    if g.gain == goal {
      StaysAtGoal(goal, settings.release, share);
      StaysAtGoal(goal, settings.attack, share);
    } else {
      TowardTakesShare(g.gain, goal, share);
    }
  }

  /**
   * While the gate is open the gain closes in on one with the attack share of the distance for each sample; while it
   * is shut, on the floor with the release share.
   */
  lemma {:induction false} GainCloses(settings: Settings, samples: seq<real>, gates: seq<Gate>, isOpen: bool, n: nat)
    requires settings.Valid() && Passes(settings, samples, gates) && gates[0].Valid(settings) && n <= |samples|
    requires forall k :: 0 < k <= n ==> gates[k].isOpen == isOpen
    ensures gates[n].Valid(settings)
    ensures gates[n].gain == if isOpen then 1.0 + Left(gates[0].gain - 1.0, settings.attack, n)
                             else settings.floorGain + Left(gates[0].gain - settings.floorGain, settings.release, n)
  {
    if n > 0 {
      var before := gates[n - 1];
      GainCloses(settings, samples, gates, isOpen, n - 1);
      StepStaysBounded(settings, before, samples[n - 1]);
      GainCloser(settings, before, samples[n - 1], isOpen);
    }
  }

  /** Each sample comes out times the gain there is after it. */
  lemma OutputIsScaled(settings: Settings, samples: seq<real>, gates: seq<Gate>, outputs: seq<real>, i: nat)
    requires Steps(settings, samples, gates, outputs) && i < |samples|
    ensures outputs[i] == samples[i] * gates[i + 1].gain
  {
    StepScales(settings, gates[i], samples[i], gates[i + 1], outputs[i]);
  }

  lemma StepScales(settings: Settings, g: Gate, sample: real, after: Gate, output: real)
    requires (after, output) == Step(settings, g, sample)
    ensures output == sample * after.gain
  {
  }

  // ---------------------------------------------------------------- blocks and messages

  datatype Event = Block(samples: seq<real>) | SetTo(threshold: real)

  /** The settings and the gate after some blocks and messages, and everything let through. */
  function RunEvents(settings: Settings, g: Gate, events: seq<Event>): (Settings, Gate, seq<real>)
    decreases |events|
  {
    if events == [] then (settings, g, [])
    else
      var (settings', g', output) := EventStep(settings, g, events[0]);
      var (settings'', g'', rest) := RunEvents(settings', g', events[1..]);
      (settings'', g'', output + rest)
  }

  function EventStep(settings: Settings, g: Gate, event: Event): (Settings, Gate, seq<real>) {
    match event
    case Block(samples) => var (after, outputs) := Run(settings, g, samples); (settings, after, outputs)
    case SetTo(threshold) => var (raised, after) := WithThreshold(settings, g, threshold); (raised, after, [])
  }

  function SamplesOf(events: seq<Event>): seq<real> {
    if events == [] then []
    else (if events[0].Block? then events[0].samples else []) + SamplesOf(events[1..])
  }

  predicate NeverRaised(events: seq<Event>) {
    forall i :: 0 <= i < |events| && events[i].SetTo? ==> events[i].threshold <= 0.0
  }

  /** A gate that is off: its threshold is zero, so every detector value reaches it. */
  predicate Off(settings: Settings, g: Gate) {
    settings.Valid() && g.Valid(settings) && settings.threshold == 0.0
  }

  lemma SetKeepsValid(settings: Settings, g: Gate, value: real)
    requires settings.Valid() && g.Valid(settings)
    ensures var (raised, after) := WithThreshold(settings, g, value);
            && raised.Valid() && after.Valid(raised)
            && (value <= 0.0 ==> Off(raised, after) && after.isOpen && after.gain == g.gain)
  {
  }

  /** Over samples a gate that is off shuts at no time and turns nothing down; once its gain is one it is transparent. */
  lemma {:induction false} OffRun(settings: Settings, g: Gate, samples: seq<real>)
    requires Off(settings, g)
    ensures var (after, outputs) := Run(settings, g, samples);
            && Off(settings, after) && (samples != [] || g.isOpen ==> after.isOpen) && g.gain <= after.gain
            && (g.gain == 1.0 ==> after.gain == 1.0 && outputs == samples)
  {
    if samples != [] {
      var n := |samples| - 1;
      OffRun(settings, g, samples[..n]);
      OffStep(settings, Run(settings, g, samples[..n]).0, samples[n]);
      assert samples == samples[..n] + [samples[n]];
    }
  }

  lemma OffStep(settings: Settings, g: Gate, sample: real)
    requires Off(settings, g)
    ensures var (after, output) := Step(settings, g, sample);
            && Off(settings, after) && after.isOpen && g.gain <= after.gain
            && (g.gain == 1.0 ==> after.gain == 1.0 && output == sample)
  {
    StepStaysBounded(settings, g, sample);
    Between(g.gain, 1.0, settings.attack);
    Between(g.gain, 1.0, settings.release);
  }

  lemma {:induction false} OffEvents(settings: Settings, g: Gate, events: seq<Event>)
    requires Off(settings, g) && NeverRaised(events)
    ensures var (settings', after, outputs) := RunEvents(settings, g, events);
            && Off(settings', after) && (g.isOpen ==> after.isOpen) && g.gain <= after.gain
            && (g.gain == 1.0 ==> after.gain == 1.0 && outputs == SamplesOf(events))
    decreases |events|
  {
    if events != [] {
      var (settings', g', _) := EventStep(settings, g, events[0]);
      match events[0] {
        case Block(samples) => OffRun(settings, g, samples);
        case SetTo(threshold) => SetKeepsValid(settings, g, threshold);
      }
      OffEvents(settings', g', events[1..]);
    }
  }

  /**
   * Built with threshold zero the gate is transparent through any blocks and messages until a positive
   * threshold arrives: everything comes out as it went in.
   */
  lemma TransparentUntilRaised(settings: Settings, events: seq<Event>)
    requires settings.Valid() && settings.threshold == 0.0 && NeverRaised(events)
    ensures var (settings', after, outputs) := RunEvents(settings, Built(settings), events);
            outputs == SamplesOf(events) && after.gain == 1.0 && settings'.threshold == 0.0
  {
    OffEvents(settings, Built(settings), events);
  }

  /**
   * From any state, a message with a zero threshold opens the gate at once, and until a positive threshold
   * arrives it stays open and its gain never falls.
   */
  lemma ZeroOpensForGood(settings: Settings, g: Gate, value: real, events: seq<Event>)
    requires settings.Valid() && g.Valid(settings) && value <= 0.0 && NeverRaised(events)
    ensures var (settings', after, _) := RunEvents(settings, g, [SetTo(value)] + events);
            after.isOpen && settings'.threshold == 0.0 && g.gain <= after.gain <= 1.0
  {
    SetKeepsValid(settings, g, value);
    var (raised, loose, _) := EventStep(settings, g, SetTo(value));
    OffEvents(raised, loose, events);
    assert ([SetTo(value)] + events)[1..] == events;
  }
}
