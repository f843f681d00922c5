/** Decides on the audio thread whether there is voice, and says so only when the answer changes. */
module SpeakingDetector {
  import opened Arithmetic
  import opened Options

  datatype Block = Block(energy: real, size: nat)

  function Samples(blocks: seq<Block>): nat {
    if blocks == [] then 0 else Samples(blocks[..|blocks| - 1]) + blocks[|blocks| - 1].size
  }

  function Energy(blocks: seq<Block>): real {
    if blocks == [] then 0.0 else Energy(blocks[..|blocks| - 1]) + blocks[|blocks| - 1].energy
  }

  lemma {:induction false} SumsSplit(blocks: seq<Block>, k: nat)
    requires k <= |blocks|
    ensures Samples(blocks) == Samples(blocks[..k]) + Samples(blocks[k..])
    ensures Energy(blocks) == Energy(blocks[..k]) + Energy(blocks[k..])
  {
    var n := |blocks|;
    if k < n {
      SumsSplit(blocks[..n - 1], k);
      assert blocks[..n - 1][..k] == blocks[..k];
      assert blocks[..n - 1][k..] == blocks[k..][..n - 1 - k];
    } else {
      assert blocks[..k] == blocks && blocks[k..] == [];
    }
  }

  lemma SumsHead(blocks: seq<Block>)
    requires blocks != []
    ensures Samples(blocks) == blocks[0].size + Samples(blocks[1..])
    ensures Energy(blocks) == blocks[0].energy + Energy(blocks[1..])
  {
    SumsSplit(blocks, 1);
    assert blocks[..1][..0] == [] && Samples([]) == 0 && Energy([]) == 0.0;
  }

  /** The samples of the blocks from the `k`th on. */
  function SamplesFrom(history: seq<Block>, k: nat): nat
    requires k <= |history|
  {
    Samples(history[k..])
  }

  /** `history[start..]` is the shortest stretch up to now with at least `windowSamples` samples, or all there is. */
  ghost predicate ShortestWindow(history: seq<Block>, start: nat, windowSamples: nat) {
    && start <= |history|
    && (start > 0 ==> SamplesFrom(history, start) >= windowSamples)
    && (forall k :: start < k <= |history| ==> SamplesFrom(history, k) < windowSamples)
  }

  lemma ShortestIsUnique(history: seq<Block>, a: nat, b: nat, windowSamples: nat)
    requires ShortestWindow(history, a, windowSamples) && ShortestWindow(history, b, windowSamples)
    ensures a == b
  {
  }

  lemma {:induction false} SquaresNotNegative(input: seq<real>)
    ensures SumOfSquares(input) >= 0.0
  {
    if input != [] {
      SquaresNotNegative(input[..|input| - 1]);
      var x := input[|input| - 1];
      assert x * x >= 0.0;
    }
  }

  function SumOfSquares(input: seq<real>): real {
    if input == [] then 0.0 else SumOfSquares(input[..|input| - 1]) + input[|input| - 1] * input[|input| - 1]
  }

  /** The two parallel queues hold these blocks. */
  ghost predicate Queued(energies: seq<real>, sizes: seq<nat>, blocks: seq<Block>) {
    && |energies| == |sizes| == |blocks|
    && forall i :: 0 <= i < |blocks| ==> blocks[i] == Block(energies[i], sizes[i])
  }

  lemma PushedWindow(history: seq<Block>, start: nat, block: Block)
    requires start <= |history|
    ensures (history + [block])[start..] == history[start..] + [block]
    ensures Samples(history[start..] + [block]) == Samples(history[start..]) + block.size
    ensures Energy(history[start..] + [block]) == Energy(history[start..]) + block.energy
  {
    assert (history[start..] + [block])[..|history| - start] == history[start..];
  }

  /** Yes and no in turn, yes first. */
  predicate Alternating(messages: seq<bool>) {
    messages == []
    || (messages[|messages| - 1] == (|messages| % 2 == 1) && Alternating(messages[..|messages| - 1]))
  }

  /** Every message of odd number is a yes and every other a no. */
  lemma {:induction false} AlternatingAt(messages: seq<bool>, i: nat)
    requires Alternating(messages) && i < |messages|
    ensures messages[i] == (i % 2 == 0)
  {
    var n := |messages| - 1;
    if i < n { AlternatingAt(messages[..n], i); }
  }

  lemma OneMore(messages: seq<bool>, next: bool)
    requires Alternating(messages) && next == (|messages| % 2 == 0)
    ensures Alternating(messages + [next]) && (|messages| + 1) % 2 == (if next then 1 else 0)
  {
    assert (messages + [next])[..|messages|] == messages;
  }

  /** The parallel queues are the window of the history from `start` on, and the running sums are the window's. */
  ghost predicate KeepsBy(energies: seq<real>, sizes: seq<nat>, count: nat, energy: real, history: seq<Block>, start: nat) {
    && start <= |history|
    && Queued(energies, sizes, history[start..])
    && count == Samples(history[start..])
    && energy == Energy(history[start..])
  }

  lemma QueuedPush(energies: seq<real>, sizes: seq<nat>, blocks: seq<Block>, block: Block)
    requires Queued(energies, sizes, blocks)
    ensures Queued(energies + [block.energy], sizes + [block.size], blocks + [block])
  {
  }

  lemma PushKeeps(energies: seq<real>, sizes: seq<nat>, count: nat, energy: real, history: seq<Block>, start: nat, block: Block)
    requires KeepsBy(energies, sizes, count, energy, history, start)
    ensures KeepsBy(energies + [block.energy], sizes + [block.size], count + block.size, energy + block.energy,
                    history + [block], start)
  {
    QueuedPush(energies, sizes, history[start..], block);
    PushedWindow(history, start, block);
  }

  /** The root mean square of a window is at or above the threshold, both squared. */
  predicate ReachesSquared(energy: real, count: nat, threshold: real) {
    (if energy > 0.0 then energy else 0.0) / (if count > 1 then count else 1) as real >= threshold * threshold
  }

  /** `rms` is the root of the mean of the squares, the mean of an empty window being its sum. */
  ghost predicate IsRootMeanSquare(rms: real, energy: real, count: nat) {
    rms >= 0.0 && rms * rms * (if count > 1 then count else 1) as real == energy
  }

  function Product(a: real, b: real): real {
    a * b
  }

  lemma ProductPositive(a: real, b: real)
    requires a > 0.0 && b > 0.0
    ensures Product(a, b) > 0.0
  {
  }

  lemma Positive(a: real, b: real)
    requires a > 0.0 && b > 0.0
    ensures a * b > 0.0
  {
  }

  lemma SquarePositive(x: real, square: real)
    requires x > 0.0 && square == x * x
    ensures square > 0.0
  {
    ProductPositive(x, x);
    assert square == Product(x, x);
  }

  lemma ProductsGrow(a: real, b: real, c: real)
    requires a < b && c > 0.0
    ensures a * c < b * c
  {
    Positive(b - a, c);
    assert (b - a) * c == b * c - a * c;
  }

  lemma SquaresGrow(a: real, b: real)
    requires 0.0 <= a < b
    ensures a * a < b * b
  {
    Positive(b - a, b + a);
    assert (b - a) * (b + a) == b * b - a * a;
  }

  lemma SquaresOrdered(a: real, b: real)
    requires a >= 0.0 && b >= 0.0
    ensures a >= b <==> a * a >= b * b
  {
    if a < b {
      SquaresGrow(a, b);
    } else if b < a {
      SquaresGrow(b, a);
    }
  }

  /** Dividing is comparing with the product. */
  lemma QuotientReaches(energy: real, count: real, square: real)
    requires count > 0.0
    ensures energy / count >= square <==> energy >= square * count
  {
    var quotient := energy / count;
    assert quotient * count == energy;
    if quotient < square {
      ProductsGrow(quotient, square, count);
    } else if square < quotient {
      ProductsGrow(square, quotient, count);
    }
  }

  lemma ProductNotNegative(a: real, b: real)
    requires a >= 0.0 && b > 0.0
    ensures a * b >= 0.0
  {
  }

  /** A window reaches a threshold exactly when its root mean square does. */
  lemma ReachesExactly(energy: real, count: nat, threshold: real, rms: real)
    requires threshold >= 0.0 && IsRootMeanSquare(rms, energy, count)
    ensures ReachesSquared(energy, count, threshold) <==> rms >= threshold
  {
    var n, square := (if count > 1 then count else 1) as real, threshold * threshold;
    assert energy == rms * rms * n;
    ProductNotNegative(rms * rms, n);
    QuotientReaches(energy, n, square);
    SquaresOrdered(rms, threshold);
    if square < rms * rms {
      ProductsGrow(square, rms * rms, n);
    } else if rms * rms < square {
      ProductsGrow(rms * rms, square, n);
    }
  }

  /** What a block is taken to have held: silence when there was no input. */
  function Heard(input: Option<seq<real>>): seq<real> {
    if input.Some? then input.value else seq(128, _ => 0.0)
  }

  /** Every sample of these blocks is below the threshold. */
  ghost predicate Under(inputs: seq<Option<seq<real>>>, threshold: real) {
    forall i, j :: 0 <= i < |inputs| && 0 <= j < |Heard(inputs[i])| ==> Abs(Heard(inputs[i])[j]) < threshold
  }

  /** Every sample of these blocks is at or above the threshold. */
  ghost predicate Over(inputs: seq<Option<seq<real>>>, threshold: real) {
    forall i, j :: 0 <= i < |inputs| && 0 <= j < |Heard(inputs[i])| ==> Abs(Heard(inputs[i])[j]) >= threshold
  }

  lemma SquareOfMagnitude(x: real, threshold: real)
    requires threshold >= 0.0
    ensures Abs(x) >= threshold <==> x * x >= threshold * threshold
  {
    SquaresOrdered(Abs(x), threshold);
  }

  lemma {:induction false} SquaresUnder(samples: seq<real>, threshold: real, square: real)
    requires threshold >= 0.0 && square == threshold * threshold
    requires forall j :: 0 <= j < |samples| ==> Abs(samples[j]) < threshold
    ensures if samples == [] then SumOfSquares(samples) == 0.0
            else SumOfSquares(samples) < Times(square, |samples|)
  {
    if samples != [] {
      var n := |samples| - 1;
      SquaresUnder(samples[..n], threshold, square);
      SquareOfMagnitude(samples[n], threshold);
      TimesAdd(square, n, 1);
    }
  }

  lemma {:induction false} SquaresOver(samples: seq<real>, threshold: real, square: real)
    requires threshold >= 0.0 && square == threshold * threshold
    requires forall j :: 0 <= j < |samples| ==> Abs(samples[j]) >= threshold
    ensures SumOfSquares(samples) >= Times(square, |samples|)
  {
    if samples != [] {
      var n := |samples| - 1;
      SquaresOver(samples[..n], threshold, square);
      SquareOfMagnitude(samples[n], threshold);
      TimesAdd(square, n, 1);
    }
  }

  function Times(x: real, n: nat): real {
    x * n as real
  }

  lemma TimesAdd(x: real, m: nat, n: nat)
    ensures Times(x, m + n) == Times(x, m) + Times(x, n)
    ensures Times(x, 0) == 0.0 && Times(x, 1) == x
  {
  }

  lemma {:induction false} ZerosSumToNothing(n: nat)
    ensures SumOfSquares(seq(n, _ => 0.0)) == 0.0
  {
    if n > 0 {
      ZerosSumToNothing(n - 1);
      assert seq(n, _ => 0.0)[..n - 1] == seq(n - 1, _ => 0.0);
    }
  }

  lemma BlockIsHeard(input: Option<seq<real>>)
    ensures BlockOf(input) == Block(SumOfSquares(Heard(input)), |Heard(input)|)
  {
    if input.None? { ZerosSumToNothing(128); }
  }

  /** These blocks are what was read from these inputs. */
  ghost predicate Recorded(blocks: seq<Block>, inputs: seq<Option<seq<real>>>) {
    |blocks| == |inputs| && forall i :: 0 <= i < |blocks| ==> blocks[i] == BlockOf(inputs[i])
  }

  lemma {:induction false} EnergyUnder(blocks: seq<Block>, inputs: seq<Option<seq<real>>>, threshold: real, square: real)
    requires threshold >= 0.0 && square == threshold * threshold
    requires Recorded(blocks, inputs) && Under(inputs, threshold)
    ensures if Samples(blocks) == 0 then Energy(blocks) == 0.0
            else Energy(blocks) < Times(square, Samples(blocks))
  {
    if blocks != [] {
      var n := |blocks| - 1;
      EnergyUnder(blocks[..n], inputs[..n], threshold, square);
      BlockIsHeard(inputs[n]);
      SquaresUnder(Heard(inputs[n]), threshold, square);
      TimesAdd(square, Samples(blocks[..n]), blocks[n].size);
    }
  }

  lemma {:induction false} EnergyOver(blocks: seq<Block>, inputs: seq<Option<seq<real>>>, threshold: real, square: real)
    requires threshold >= 0.0 && square == threshold * threshold
    requires Recorded(blocks, inputs) && Over(inputs, threshold)
    ensures Energy(blocks) >= Times(square, Samples(blocks))
  {
    TimesAdd(square, 0, 0);
    if blocks != [] {
      var n := |blocks| - 1;
      EnergyOver(blocks[..n], inputs[..n], threshold, square);
      BlockIsHeard(inputs[n]);
      SquaresOver(Heard(inputs[n]), threshold, square);
      TimesAdd(square, Samples(blocks[..n]), blocks[n].size);
    }
  }

  /** A window of samples that are all below a positive threshold does not reach it, whatever its length. */
  lemma QuietIsNotLoud(blocks: seq<Block>, inputs: seq<Option<seq<real>>>, threshold: real)
    requires threshold > 0.0 && Recorded(blocks, inputs) && Under(inputs, threshold)
    ensures !ReachesSquared(Energy(blocks), Samples(blocks), threshold)
  {
    var square := threshold * threshold;
    EnergyUnder(blocks, inputs, threshold, square);
    SquarePositive(threshold, square);
    NotReached(Energy(blocks), Samples(blocks), square);
  }

  lemma NotReached(energy: real, count: nat, square: real)
    requires square > 0.0
    requires if count == 0 then energy == 0.0 else energy < Times(square, count)
    ensures (if energy > 0.0 then energy else 0.0) / (if count > 1 then count else 1) as real < square
  {
    var n := (if count > 1 then count else 1) as real;
    Positive(square, n);
    QuotientReaches(if energy > 0.0 then energy else 0.0, n, square);
  }

  /** A window of samples that are all at or above the threshold, with one sample at least, reaches it. */
  lemma LoudIsLoud(blocks: seq<Block>, inputs: seq<Option<seq<real>>>, threshold: real)
    requires threshold >= 0.0 && Recorded(blocks, inputs) && Over(inputs, threshold) && Samples(blocks) > 0
    ensures ReachesSquared(Energy(blocks), Samples(blocks), threshold)
  {
    var square, count := threshold * threshold, Samples(blocks);
    EnergyOver(blocks, inputs, threshold, square);
    QuotientReaches(if Energy(blocks) > 0.0 then Energy(blocks) else 0.0, count as real, square);
  }

  /** The quiet since the last loud block, whether there is voice, and the messages so far. */
  datatype Saying = Saying(quiet: nat, speaking: bool, messages: seq<bool>)

  /**
   * What a block of some length leaves: the answer is yes while a loud block is at most a hold away, and a message
   * goes out exactly when it changes.
   */
  function Said(was: Saying, loud: bool, length: nat, holdSamples: nat): Saying {
    var quiet := if loud then 0 else was.quiet + length;
    var speaking := loud || (was.speaking && quiet < holdSamples);
    Saying(quiet, speaking, was.messages + if speaking == was.speaking then [] else [speaking])
  }

  class SpeakingDetectorProcessor {
    var threshold: real
    const holdSamples: nat
    const windowSamples: nat
    var holdRemaining: int
    var speaking: bool
    var blockEnergies: seq<real>
    var blockSizes: seq<nat>
    var windowEnergy: real
    var windowCount: nat

    /**
     * Every input there was, what was read from each, where the kept window starts, the messages sent, and the quiet
     * since the last loud block.
     */
    ghost var inputs: seq<Option<seq<real>>>
    ghost var history: seq<Block>
    ghost var start: nat
    ghost var messages: seq<bool>
    ghost var quiet: nat

    ghost predicate Valid()
      reads this
    {
      threshold >= 0.0 && Windowed() && Told() && Recorded(history, inputs)
    }

    /** The kept window is the shortest that is long enough, and once there was a block it holds one. */
    ghost predicate Windowed()
      reads `blockEnergies, `blockSizes, `windowEnergy, `windowCount, `history, `start
    {
      && windowSamples >= 128
      && ShortestWindow(history, start, windowSamples)
      && (history != [] ==> start < |history|)
      && KeepsWindow()
    }

    /** The messages alternate, starting with a yes, and the hold counts down with the quiet. */
    ghost predicate Told()
      reads `holdRemaining, `speaking, `messages, `quiet
    {
      && Alternating(messages)
      && speaking == (|messages| % 2 == 1)
      && (speaking ==> holdRemaining == holdSamples - quiet && (quiet == 0 || quiet < holdSamples))
    }

    /** The queue is the kept window and the running sums are the window's. */
    ghost predicate KeepsWindow()
      reads `blockEnergies, `blockSizes, `windowEnergy, `windowCount, `history, `start
    {
      KeepsBy(blockEnergies, blockSizes, windowCount, windowEnergy, history, start)
    }

    predicate Loud()
      reads `windowEnergy, `windowCount, `threshold
    {
      ReachesSquared(windowEnergy, windowCount, threshold)
    }

    /** `rms` is the root mean square of the kept window. */
    ghost predicate WindowRms(rms: real)
      reads this
      requires start <= |history|
    {
      IsRootMeanSquare(rms, Energy(history[start..]), Samples(history[start..]))
    }

    /**
     * The window is loud exactly when its root mean square reaches the threshold: never when every sample is below a
     * positive threshold, always when every sample reaches it.
     */
    lemma LoudExactly()
      requires Valid()
      ensures forall rms :: WindowRms(rms) ==> (Loud() <==> rms >= threshold)
      ensures threshold > 0.0 && Under(inputs[start..], threshold) ==> !Loud()
      ensures Samples(history[start..]) > 0 && Over(inputs[start..], threshold) ==> Loud()
    {
      var blocks := history[start..];
      forall rms | WindowRms(rms) ensures Loud() <==> rms >= threshold {
        ReachesExactly(Energy(blocks), Samples(blocks), threshold, rms);
      }
      if threshold > 0.0 && Under(inputs[start..], threshold) {
        QuietIsNotLoud(blocks, inputs[start..], threshold);
      }
      if Samples(blocks) > 0 && Over(inputs[start..], threshold) {
        LoudIsLoud(blocks, inputs[start..], threshold);
      }
    }

    constructor (threshold: real, holdSamples: nat, windowSamples: nat)
      requires threshold >= 0.0
      ensures Valid() && inputs == [] && history == [] && messages == [] && !speaking
      ensures this.threshold == threshold && this.holdSamples == holdSamples
      ensures this.windowSamples >= 128 && (windowSamples >= 128 ==> this.windowSamples == windowSamples)
    {
      this.threshold, this.holdSamples := threshold, holdSamples;
      this.windowSamples := if windowSamples < 128 then 128 else windowSamples;
      holdRemaining, speaking := 0, false;
      blockEnergies, blockSizes, windowEnergy, windowCount := [], [], 0.0, 0;
      inputs, history, start, messages, quiet := [], [], 0, [], 0;
    }

    method SetThreshold(threshold: real)
      requires Valid() && threshold >= 0.0
      modifies `threshold
      ensures Valid() && this.threshold == threshold
    {
      this.threshold := threshold;
    }

    method EnergyOf(input: seq<real>) returns (energy: real)
      ensures energy == SumOfSquares(input)
    {
      energy := 0.0;
      for index := 0 to |input|
        invariant energy == SumOfSquares(input[..index])
      {
        energy := energy + input[index] * input[index];
        assert input[..index + 1][..index] == input[..index];
      }
      assert input[..|input|] == input;
    }

    /** Takes a block into the window. */
    method Push(block: Block)
      requires KeepsWindow()
      modifies `blockEnergies, `blockSizes, `windowEnergy, `windowCount, `history
      ensures history == old(history) + [block]
      ensures start < |history| && KeepsWindow()
    {
      PushKeeps(blockEnergies, blockSizes, windowCount, windowEnergy, history, start, block);
      blockEnergies := blockEnergies + [block.energy];
      blockSizes := blockSizes + [block.size];
      windowEnergy := windowEnergy + block.energy;
      windowCount := windowCount + block.size;
      history := history + [block];
    }

    /** What the window would be without its head block. */
    lemma HeadOut()
      requires start < |history| && KeepsWindow()
      ensures |blockSizes| > 0
      ensures windowCount - blockSizes[0] == Samples(history[start + 1..])
      ensures windowEnergy - blockEnergies[0] == Energy(history[start + 1..])
      ensures Samples(history[start + 1..]) >= 128 ==> start + 1 < |history|
    {
      SumsHead(history[start..]);
      assert history[start..][1..] == history[start + 1..];
    }

    method DropHead()
      requires start + 1 < |history| && KeepsWindow()
      modifies `blockEnergies, `blockSizes, `windowEnergy, `windowCount, `start
      ensures start == old(start) + 1 && KeepsWindow()
    {
      HeadOut();
      assert history[start..][1..] == history[start + 1..];
      windowEnergy, blockEnergies := windowEnergy - blockEnergies[0], blockEnergies[1..];
      windowCount, blockSizes := windowCount - blockSizes[0], blockSizes[1..];
      start := start + 1;
    }

    /** Drops blocks from the front as long as what is left still fills the window. */
    method Shrink()
      requires windowSamples >= 128 && start < |history| && KeepsWindow()
      requires start > 0 ==> Samples(history[start..]) >= windowSamples
      modifies `blockEnergies, `blockSizes, `windowEnergy, `windowCount, `start
      ensures start < |history| && KeepsWindow() && ShortestWindow(history, start, windowSamples)
    {
      HeadOut();
      while windowCount - blockSizes[0] >= windowSamples
        invariant start < |history| && KeepsWindow() && |blockSizes| > 0
        invariant windowCount - blockSizes[0] == Samples(history[start + 1..])
        invariant start > 0 ==> Samples(history[start..]) >= windowSamples
        decreases |history| - start
      {
        HeadOut();
        DropHead();
        HeadOut();
      }
      forall k | start < k <= |history| ensures SamplesFrom(history, k) < windowSamples {
        SuffixSmaller(history, start + 1, k);
      }
    }

    method Window(block: Block)
      requires Windowed()
      modifies `blockEnergies, `blockSizes, `windowEnergy, `windowCount, `history, `start
      ensures history == old(history) + [block] && start < |history|
      ensures Windowed()
    {
      PushedWindow(history, start, block);
      Push(block);
      Shrink();
    }

    /** Holds or releases the answer, and tells the page when it changed. */
    method Answer(loud: bool, length: nat)
      requires Told()
      modifies `holdRemaining, `speaking, `messages, `quiet
      ensures Told()
      ensures Saying(quiet, speaking, messages)
           == Said(old(Saying(quiet, speaking, messages)), loud, length, holdSamples)
    {
      if loud {
        holdRemaining := holdSamples;
        quiet := 0;
        if !speaking {
          speaking := true;
          OneMore(messages, true);
          messages := messages + [true];
        }
      } else {
        quiet := quiet + length;
        if speaking {
          holdRemaining := holdRemaining - length;
          if holdRemaining <= 0 {
            speaking := false;
            OneMore(messages, false);
            messages := messages + [false];
          }
        }
      }
    }

    /**
     * One block: the window becomes the shortest that is long enough, and a message goes out exactly
     * when the answer changes. The answer turns to no only once the quiet since the last loud block
     * has reached the hold, and then at once. Loud means that the root mean square of the window's samples
     * reaches the threshold: silence never turns the answer to yes, a window that reaches it throughout always does.
     */
    method Process(input: Option<seq<real>>)
      requires Valid()
      modifies this
      ensures Valid() && threshold == old(threshold)
      ensures inputs == old(inputs) + [input] && history == old(history) + [BlockOf(input)]
      ensures quiet == if Loud() then 0 else old(quiet) + BlockOf(input).size
      ensures speaking == (Loud() || (old(speaking) && quiet < holdSamples))
      ensures messages == old(messages) + if speaking == old(speaking) then [] else [speaking]
      ensures forall rms :: WindowRms(rms) ==> if rms >= threshold then speaking && quiet == 0
                                               else quiet == old(quiet) + BlockOf(input).size
                                                    && speaking == (old(speaking) && quiet < holdSamples)
      ensures threshold > 0.0 && Under(inputs[start..], threshold) ==> (speaking ==> old(speaking))
      ensures Samples(history[start..]) > 0 && Over(inputs[start..], threshold) ==> speaking && quiet == 0
    {
      var block := Read(input);
      var _ := Decide(block);
      inputs := inputs + [input];
      LoudExactly();
    }

    /** Takes the block into the window and tells how loud the window is. */
    method Hear(block: Block) returns (loud: bool)
      requires Windowed()
      modifies `blockEnergies, `blockSizes, `windowEnergy, `windowCount, `history, `start
      ensures Windowed() && loud == Loud()
      ensures history == old(history) + [block]
    {
      Window(block);
      loud := Loud();
    }

    /** Takes the block into the window, then holds or releases the answer by how loud the window is. */
    method Decide(block: Block) returns (loud: bool)
      requires Windowed() && Told()
      modifies `blockEnergies, `blockSizes, `windowEnergy, `windowCount, `history, `start
      modifies `holdRemaining, `speaking, `messages, `quiet
      ensures Windowed() && Told() && loud == Loud()
      ensures history == old(history) + [block]
      ensures Saying(quiet, speaking, messages)
           == Said(old(Saying(quiet, speaking, messages)), loud, block.size, holdSamples)
    {
      loud := Hear(block);
      Answer(loud, block.size);
    }

    method Read(input: Option<seq<real>>) returns (block: Block)
      ensures block == BlockOf(input)
    {
      var length := if input.Some? then |input.value| else 128;
      var energy := 0.0;
      if input.Some? { energy := EnergyOf(input.value); }
      block := Block(energy, length);
    }
  }

  lemma SuffixSmaller(history: seq<Block>, a: nat, k: nat)
    requires a <= k <= |history|
    ensures Samples(history[k..]) <= Samples(history[a..])
  {
    SumsSplit(history[a..], k - a);
    assert history[a..][k - a..] == history[k..];
  }

  function BlockOf(input: Option<seq<real>>): Block {
    if input.Some? then Block(SumOfSquares(input.value), |input.value|) else Block(0.0, 128)
  }
}
