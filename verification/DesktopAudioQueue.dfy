/** The desktop sound waiting to be played: chunks of interleaved samples read one frame at a time. */
module DesktopAudioQueue {
  import opened Arithmetic
  import opened Options

  function Flat(queue: seq<seq<real>>): seq<real> {
    if queue == [] then [] else queue[0] + Flat(queue[1..])
  }

  lemma {:induction false} FlatAppend(queue: seq<seq<real>>, chunk: seq<real>)
    ensures Flat(queue + [chunk]) == Flat(queue) + chunk
  {
    if queue == [] {
      assert ([] + [chunk])[1..] == [];
    } else {
      FlatAppend(queue[1..], chunk);
      assert (queue + [chunk])[1..] == queue[1..] + [chunk];
    }
  }

  /** The last `n` frames, or all of them. */
  function LastOf<T>(frames: seq<T>, n: nat): seq<T> {
    if |frames| <= n then frames else frames[|frames| - n..]
  }

  predicate Suffix(a: seq<real>, b: seq<real>) { |a| <= |b| && b[|b| - |a|..] == a }

  /** `chunk` is `frames` whole frames of `channels` samples each. */
  ghost predicate Holds(chunk: seq<real>, frames: int, channels: nat) { |chunk| == frames * channels }

  lemma HoldsAll(a: seq<real>, m: int, b: seq<real>, n: int, channels: nat)
    requires Holds(a, m, channels) && Holds(b, n, channels)
    ensures Holds(a + b, m + n, channels)
  {
    Distribute(m, n, channels);
  }

  lemma HoldsRest(a: seq<real>, m: nat, k: nat, channels: nat)
    requires Holds(a, m, channels) && k <= m
    ensures k * channels <= |a| && Holds(a[k * channels..], m - k, channels) && Holds(a[..k * channels], k, channels)
  {
    Distribute(m, k, channels);
    MulOrder(k, m, channels);
  }

  lemma HoldsFewer(a: seq<real>, m: nat, b: seq<real>, n: nat, channels: nat)
    requires channels > 0 && Holds(a, m, channels) && Holds(b, n, channels)
    ensures |a| <= |b| <==> m <= n
    ensures |a| == |b| <==> m == n
  {
    if m < n { MulOrder(m + 1, n, channels); Distribute(m, 1, channels); }
    if n < m { MulOrder(n + 1, m, channels); Distribute(n, 1, channels); }
  }

  /** Interleaved samples as the frames they are. */
  ghost function Frames(samples: seq<real>, n: nat, channels: nat): (frames: seq<seq<real>>)
    requires Holds(samples, n, channels)
    ensures |frames| == n
  {
    if n == 0 then []
    else
      HoldsRest(samples, n, 1, channels);
      [samples[..channels]] + Frames(samples[1 * channels..], n - 1, channels)
  }

  /** Frame `i` is the `i`th run of `channels` samples. */
  lemma {:induction false} FramesAt(samples: seq<real>, n: nat, channels: nat, i: nat)
    requires Holds(samples, n, channels) && i < n
    ensures 0 <= i * channels <= (i + 1) * channels <= |samples|
    ensures Frames(samples, n, channels)[i] == samples[i * channels..(i + 1) * channels]
  {
    HoldsRest(samples, n, 1, channels);
    HoldsRest(samples, n, i, channels);
    HoldsRest(samples, n, i + 1, channels);
    MulOrder(i, i + 1, channels);
    if i > 0 {
      var rest := samples[1 * channels..];
      FramesAt(rest, n - 1, channels, i - 1);
      Distribute(i, 1, channels);
      Distribute(i + 1, 1, channels);
      SliceOfRest(samples, 1 * channels, (i - 1) * channels, i * channels);
    }
  }

  lemma SliceOfRest<T>(s: seq<T>, k: nat, from: nat, to: nat)
    requires from <= to && k + to <= |s|
    ensures s[k..][from..to] == s[k + from..k + to]
  {
  }

  lemma {:induction false} FramesConcat(a: seq<real>, m: nat, b: seq<real>, n: nat, channels: nat)
    requires Holds(a, m, channels) && Holds(b, n, channels)
    ensures Holds(a + b, m + n, channels)
    ensures Frames(a + b, m + n, channels) == Frames(a, m, channels) + Frames(b, n, channels)
  {
    HoldsAll(a, m, b, n, channels);
    if m == 0 {
      assert a + b == b;
    } else {
      HoldsRest(a, m, 1, channels);
      FramesConcat(a[1 * channels..], m - 1, b, n, channels);
      assert (a + b)[1 * channels..] == a[1 * channels..] + b;
      assert (a + b)[..channels] == a[..channels];
    }
  }

  /** The samples that make whole frames. */
  function WholePart(samples: seq<real>, channels: nat): (part: seq<real>)
    requires channels > 0
    ensures part <= samples && Holds(part, |samples| / channels, channels)
    ensures |samples| < |part| + channels
  {
    assert |samples| == channels * (|samples| / channels) + |samples| % channels;
    samples[..|samples| / channels * channels]
  }

  class DesktopAudioSource {
    const channels: nat
    const maxFrames: nat
    var queue: seq<seq<real>>
    var readOffset: nat
    var queuedFrames: nat

    /** The frames in each queued chunk, and how many of the head chunk are already read. */
    ghost var chunkFrames: seq<nat>
    ghost var readFrames: nat
    /** The samples queued once and no longer: `played` frames of them were read, `discarded` thrown away. */
    ghost var gone: seq<real>
    ghost var played: nat
    ghost var discarded: nat

    /** The queued chunks are whole frames, and the read position is inside or just past the head one. */
    ghost predicate Shaped()
      reads this
    {
      && 1 <= channels && 1 <= maxFrames
      && |chunkFrames| == |queue|
      && (forall i :: 0 <= i < |queue| ==> chunkFrames[i] > 0 && Holds(queue[i], chunkFrames[i], channels))
      && readOffset == readFrames * channels
      && (if queue == [] then readFrames == 0 else readFrames <= chunkFrames[0])
      && readOffset <= |Flat(queue)|
    }

    ghost predicate Valid()
      reads this
    {
      && Shaped()
      && Holds(Unread(), queuedFrames, channels)
      && Holds(gone, played + discarded, channels)
    }

    /** The samples still to be played, oldest first. */
    ghost function Unread(): seq<real>
      reads this
      requires readOffset <= |Flat(queue)|
    {
      Flat(queue)[readOffset..]
    }

    /** The frames still to be played: what the queue stands for. */
    ghost function Waiting(): (frames: seq<seq<real>>)
      reads this
      requires Valid()
      ensures |frames| == queuedFrames
    {
      Frames(Unread(), queuedFrames, channels)
    }

    /** Everything ever queued, in order: what is gone, then what is unread. */
    ghost function Pushed(): seq<real>
      reads this
      requires readOffset <= |Flat(queue)|
    {
      gone + Unread()
    }

    constructor (channels: nat, maxFrames: nat)
      requires 1 <= channels <= 8 && 1 <= maxFrames
      ensures Valid() && this.channels == channels && this.maxFrames == maxFrames
      ensures Pushed() == [] && queuedFrames == played == discarded == 0
    {
      this.channels, this.maxFrames := channels, maxFrames;
      queue, readOffset, queuedFrames := [], 0, 0;
      chunkFrames, readFrames, gone, played, discarded := [], 0, [], 0, 0;
    }

    method Append(chunk: seq<real>, frames: nat)
      requires Valid() && frames > 0 && Holds(chunk, frames, channels)
      modifies `queue, `queuedFrames, `chunkFrames
      ensures Valid() && Unread() == old(Unread()) + chunk && queuedFrames == old(queuedFrames) + frames
    {
      FlatAppend(queue, chunk);
      HoldsAll(Unread(), queuedFrames, chunk, frames, channels);
      queue := queue + [chunk];
      queuedFrames := queuedFrames + frames;
      chunkFrames := chunkFrames + [frames];
      assert Unread() == old(Unread()) + chunk;
    }

    /** The head chunk's frames are among the unread ones, and its sample length gives their number. */
    lemma HeadFrames()
      requires Valid() && queue != []
      ensures readOffset <= |queue[0]| <= |Flat(queue)|
      ensures (|queue[0]| - readOffset) / channels == chunkFrames[0] - readFrames <= queuedFrames
      ensures readOffset == |queue[0]| <==> readFrames == chunkFrames[0]
      ensures readOffset + channels <= |queue[0]| <==> readFrames < chunkFrames[0]
    {
      var left := chunkFrames[0] - readFrames;
      HoldsRest(queue[0], chunkFrames[0], readFrames, channels);
      var rest := queue[0][readOffset..];
      DivisionIs(|queue[0]| - readOffset, left, 0, channels);
      HoldsFewer(rest, left, Unread(), queuedFrames, channels);
      if left > 0 { MulOrder(1, left, channels); }
    }

    /** Moves the read position past `frames` frames of the head chunk. */
    method Advance(frames: nat)
      requires Valid() && queue != [] && readFrames + frames <= chunkFrames[0]
      modifies `readOffset, `readFrames, `queuedFrames, `gone
      ensures Shaped() && Holds(Unread(), queuedFrames, channels) && Holds(gone, played + discarded + frames, channels)
      ensures readFrames == old(readFrames) + frames && queuedFrames == old(queuedFrames) - frames
      ensures frames * channels <= |old(Unread())| && Unread() == old(Unread())[frames * channels..]
      ensures Pushed() == old(Pushed())
    {
      HeadFrames();
      HoldsRest(Unread(), queuedFrames, frames, channels);
      HoldsAll(gone, played + discarded, Unread()[..frames * channels], frames, channels);
      Distribute(readFrames, frames, channels);
      gone := gone + Unread()[..frames * channels];
      readOffset := readOffset + frames * channels;
      readFrames := readFrames + frames;
      queuedFrames := queuedFrames - frames;
    }

    /** Throws away `frames` frames of the head chunk. */
    method Discard(frames: nat)
      requires Valid() && queue != [] && readFrames + frames <= chunkFrames[0]
      modifies `readOffset, `readFrames, `queuedFrames, `gone, `discarded
      ensures Valid() && Pushed() == old(Pushed()) && Suffix(Unread(), old(Unread()))
      ensures readFrames == old(readFrames) + frames && queuedFrames == old(queuedFrames) - frames
      ensures discarded == old(discarded) + frames
    {
      Advance(frames);
      discarded := discarded + frames;
    }

    /** Drops the head chunk once it is fully read. */
    method Shift()
      requires Valid() && queue != [] && readFrames == chunkFrames[0]
      modifies `queue, `chunkFrames, `readOffset, `readFrames
      ensures Valid() && Unread() == old(Unread()) && |queue| == |old(queue)| - 1
    {
      assert Flat(queue)[|queue[0]|..] == Flat(queue[1..]);
      queue, chunkFrames := queue[1..], chunkFrames[1..];
      readOffset, readFrames := 0, 0;
    }

    /** One turn of the trimming loop: throws away the head chunk, or as much of it as is too much. */
    method DiscardOldest()
      requires Valid() && queuedFrames > maxFrames
      modifies `queue, `readOffset, `queuedFrames, `chunkFrames, `readFrames, `gone, `discarded
      ensures Valid() && Pushed() == old(Pushed()) && Suffix(Unread(), old(Unread()))
      ensures maxFrames <= queuedFrames <= old(queuedFrames)
      ensures discarded + queuedFrames == old(discarded) + old(queuedFrames)
      ensures |queue| < |old(queue)| || (|queue| == |old(queue)| && queuedFrames == maxFrames < old(queuedFrames))
    {
      if queue == [] {
        HoldsFewer(Unread(), queuedFrames, [], 0, channels);
        assert false;
      }
      HeadFrames();
      var oldest := queue[0];
      var available := (|oldest| - readOffset) / channels;
      var discard := if available < queuedFrames - maxFrames then available else queuedFrames - maxFrames;
      Discard(discard);
      HeadFrames();
      if readOffset == |oldest| {
        Shift();
      }
    }

    /** Throws away the oldest frames until at most `maxFrames` are left. */
    method Trim()
      requires Valid()
      modifies `queue, `readOffset, `queuedFrames, `chunkFrames, `readFrames, `gone, `discarded
      ensures Valid() && Pushed() == old(Pushed()) && Suffix(Unread(), old(Unread()))
      ensures queuedFrames == if old(queuedFrames) <= maxFrames then old(queuedFrames) else maxFrames
      ensures discarded + queuedFrames == old(discarded) + old(queuedFrames)
    {
      while queuedFrames > maxFrames
        invariant Valid() && Pushed() == old(Pushed()) && Suffix(Unread(), old(Unread()))
        invariant queuedFrames == old(queuedFrames) || maxFrames <= queuedFrames < old(queuedFrames)
        invariant discarded + queuedFrames == old(discarded) + old(queuedFrames)
        decreases |queue|, queuedFrames
      {
        DiscardOldest();
      }
    }

    /** A chunk arrives: its whole frames are queued, and the oldest beyond `maxFrames` are thrown away. */
    method OnSamples(samples: seq<real>)
      requires Valid() && queuedFrames <= maxFrames
      modifies `queue, `readOffset, `queuedFrames, `chunkFrames, `readFrames, `gone, `discarded
      ensures Valid() && queuedFrames <= maxFrames
      ensures Pushed() == old(Pushed()) + WholePart(samples, channels)
      ensures Waiting() == LastOf(old(Waiting()) + Frames(WholePart(samples, channels), |samples| / channels, channels), maxFrames)
      ensures discarded + queuedFrames == old(discarded) + old(queuedFrames) + |samples| / channels
    {
      var frames := |samples| / channels;
      var chunk := WholePart(samples, channels);
      if frames == 0 {
        assert chunk == [] && Waiting() + [] == Waiting() && Pushed() + [] == Pushed();
      } else {
        Enqueue(chunk, frames);
      }
    }

    method Enqueue(chunk: seq<real>, frames: nat)
      requires Valid() && queuedFrames <= maxFrames && frames > 0 && Holds(chunk, frames, channels)
      modifies `queue, `readOffset, `queuedFrames, `chunkFrames, `readFrames, `gone, `discarded
      ensures Valid() && queuedFrames <= maxFrames && Pushed() == old(Pushed()) + chunk
      ensures Waiting() == LastOf(old(Waiting()) + Frames(chunk, frames, channels), maxFrames)
      ensures discarded + queuedFrames == old(discarded) + old(queuedFrames) + frames
    {
      FramesConcat(Unread(), queuedFrames, chunk, frames, channels);
      ghost var before := Unread();
      Append(chunk, frames);
      assert gone + (before + chunk) == gone + before + chunk;
      KeepLast();
    }

    /** What is left after trimming is the last `maxFrames` frames. */
    method KeepLast()
      requires Valid()
      modifies `queue, `readOffset, `queuedFrames, `chunkFrames, `readFrames, `gone, `discarded
      ensures Valid() && queuedFrames <= maxFrames && Pushed() == old(Pushed())
      ensures Waiting() == LastOf(old(Waiting()), maxFrames)
      ensures discarded + queuedFrames == old(discarded) + old(queuedFrames)
    {
      ghost var all, n := Unread(), queuedFrames;
      Trim();
      KeptIsLast(all, n, Unread(), queuedFrames);
    }

    lemma KeptIsLast(all: seq<real>, n: nat, kept: seq<real>, k: nat)
      requires channels > 0 && Holds(all, n, channels) && Holds(kept, k, channels) && Suffix(kept, all) && k <= n
      ensures Frames(kept, k, channels) == Frames(all, n, channels)[n - k..]
    {
      var dropped := all[..|all| - |kept|];
      Distribute(n, k, channels);
      FramesConcat(dropped, n - k, kept, k, channels);
      assert all == dropped + kept;
    }

    /** The oldest frame, or nothing exactly when no frame is left. */
    method ReadFrame() returns (frame: Option<seq<real>>)
      requires Valid()
      modifies `queue, `readOffset, `queuedFrames, `chunkFrames, `readFrames, `gone, `played
      ensures Valid() && Pushed() == old(Pushed())
      ensures frame.None? <==> old(queuedFrames) == 0
      ensures frame.None? ==> Waiting() == old(Waiting()) == [] && played == old(played)
      ensures frame.Some? ==> old(Waiting()) == [frame.value] + Waiting() && |frame.value| == channels
                              && played == old(played) + 1
    {
      while queue != []
        invariant Valid() && Pushed() == old(Pushed()) && Unread() == old(Unread())
        invariant played == old(played) && queuedFrames == old(queuedFrames)
        decreases |queue|
      {
        var samples := queue[0];
        HeadFrames();
        if readOffset + channels <= |samples| {
          frame := Some(samples[readOffset..readOffset + channels]);
          HoldsRest(Unread(), queuedFrames, 1, channels);
          assert Unread()[..channels] == samples[readOffset..readOffset + channels];
          Advance(1);
          played := played + 1;
          return;
        }
        Shift();
      }
      frame := None;
      HoldsFewer(Unread(), queuedFrames, [], 0, channels);
    }

    /** Writes one frame across the output channels, going round the frame's own channels when there are more. */
    method WriteFrame(output: array2<real>, f: nat, frame: seq<real>)
      requires f < output.Length1 && |frame| == channels > 0
      modifies output
      ensures forall c, g :: 0 <= c < output.Length0 && 0 <= g < output.Length1 ==>
                output[c, g] == if g == f then frame[c % channels] else old(output[c, g])
    {
      for channel := 0 to output.Length0
        invariant forall c, g :: 0 <= c < output.Length0 && 0 <= g < output.Length1 ==>
                    output[c, g] == if g == f && c < channel then frame[c % channels] else old(output[c, g])
      {
        output[channel, f] := frame[channel % |frame|];
      }
    }

    method FillSilence(output: array2<real>)
      modifies output
      ensures forall c, g :: 0 <= c < output.Length0 && 0 <= g < output.Length1 ==> output[c, g] == 0.0
    {
      for channel := 0 to output.Length0
        invariant forall c, g :: 0 <= c < channel && 0 <= g < output.Length1 ==> output[c, g] == 0.0
      {
        for g := 0 to output.Length1
          invariant forall c, h :: 0 <= c < channel && 0 <= h < output.Length1 ==> output[c, h] == 0.0
          invariant forall h :: 0 <= h < g ==> output[channel, h] == 0.0
        {
          output[channel, g] := 0.0;
        }
      }
    }

    /** One audio block: the frames there are, then silence. */
    method Process(output: array2<real>)
      requires Valid()
      modifies output, `queue, `readOffset, `queuedFrames, `chunkFrames, `readFrames, `gone, `played
      ensures Valid() && Pushed() == old(Pushed())
      ensures var frameCount := if output.Length0 == 0 then 0 else output.Length1;
              var k := if old(queuedFrames) < frameCount then old(queuedFrames) else frameCount;
              && Waiting() == old(Waiting())[k..] && played == old(played) + k
              && forall c, f :: 0 <= c < output.Length0 && 0 <= f < output.Length1 ==>
                   output[c, f] == PlayedAt(old(Waiting()), c, f)
    {
      if output.Length0 == 0 { return; }
      FillSilence(output);
      ghost var all := Waiting();
      var frame := 0;
      while frame < output.Length1
        invariant 0 <= frame <= output.Length1 && frame <= |all|
        invariant Valid() && Pushed() == old(Pushed())
        invariant Waiting() == all[frame..] && played == old(played) + frame
        invariant forall c, f :: 0 <= c < output.Length0 && 0 <= f < output.Length1 ==>
                    output[c, f] == if f < frame then PlayedAt(all, c, f) else 0.0
      {
        var sampleFrame := ReadFrame();
        if sampleFrame.None? { break; }
        WriteFrame(output, frame, sampleFrame.value);
        frame := frame + 1;
      }
    }
  }

  /** What channel `c` plays in frame `f`: the frame's own channels in turn, silence when no frame is left. */
  function PlayedAt(frames: seq<seq<real>>, c: nat, f: nat): real {
    if f < |frames| && |frames[f]| > 0 then frames[f][c % |frames[f]|] else 0.0
  }
}
