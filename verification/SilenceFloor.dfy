/** Turns an inaudible tail into exact silence, block by block. */
module SilenceFloor {
  import opened Arithmetic
  import opened Options

  predicate Audible(input: seq<real>, floor: real) {
    floor <= 0.0 || exists i :: 0 <= i < |input| && Abs(input[i]) >= floor
  }

  class SilenceFloorProcessor {
    const floor: real
    const holdSamples: nat
    var holdRemaining: nat

    /** The samples of the blocks since the last audible one, or since the start. */
    ghost var quiet: nat

    ghost predicate Valid()
      reads this
    {
      && floor >= 0.0
      && holdRemaining == if quiet < holdSamples then holdSamples - quiet else 0
    }

    constructor (floor: real, holdSamples: nat)
      ensures Valid() && quiet == 0
      ensures this.floor == (if floor > 0.0 then floor else 0.0) && this.holdSamples == holdSamples
    {
      this.floor := if floor > 0.0 then floor else 0.0;
      this.holdSamples := holdSamples;
      holdRemaining := holdSamples;
      quiet := 0;
    }

    method PeakOf(input: seq<real>) returns (peak: real)
      ensures peak >= 0.0
      ensures forall i :: 0 <= i < |input| ==> Abs(input[i]) <= peak
      ensures peak > 0.0 ==> exists i :: 0 <= i < |input| && Abs(input[i]) == peak
    {
      peak := 0.0;
      for index := 0 to |input|
        invariant peak >= 0.0
        invariant forall i :: 0 <= i < index ==> Abs(input[i]) <= peak
        invariant peak > 0.0 ==> exists i :: 0 <= i < index && Abs(input[i]) == peak
      {
        var level := Abs(input[index]);
        if level > peak { peak := level; }
      }
    }

    /**
     * A block passes untouched or comes out silent: silent exactly once the quiet since the last
     * audible block, this one included, has reached the hold.
     */
    method ProcessInput(input: seq<real>, output: array<real>)
      requires Valid()
      modifies this, output
      ensures Valid()
      ensures quiet == if Audible(input, floor) then 0 else old(quiet) + |input|
      ensures var passes := quiet < holdSamples;
              forall i :: 0 <= i < output.Length ==>
                output[i] == if !passes then 0.0 else if i < |input| then input[i] else old(output[i])
    {
      var peak := PeakOf(input);
      assert peak >= floor <==> Audible(input, floor);
      if peak >= floor {
        holdRemaining := holdSamples;
        quiet := 0;
      } else {
        quiet := quiet + |input|;
        if holdRemaining > 0 {
          holdRemaining := if holdRemaining > |input| then holdRemaining - |input| else 0;
        }
      }
      var passes := holdRemaining > 0;
      for i := 0 to output.Length
        modifies output
        invariant forall k :: 0 <= k < output.Length ==>
                    output[k] == if k >= i then old(output[k])
                                 else if !passes then 0.0 else if k < |input| then input[k] else old(output[k])
      {
        if !passes { output[i] := 0.0; } else if i < |input| { output[i] := input[i]; }
      }
    }

    /**
     * An audible block comes out as it went in exactly when there is any hold at all, or when it is all zeros
     * and audible only because the floor is zero: a hold of zero silences every block.
     */
    method ProcessAudible(input: seq<real>, output: array<real>)
      requires Valid() && Audible(input, floor) && output.Length == |input|
      modifies this, output
      ensures Valid()
      ensures output[..] == input <==> holdSamples > 0 || forall i :: 0 <= i < |input| ==> input[i] == 0.0
      ensures holdSamples == 0 ==> forall i :: 0 <= i < output.Length ==> output[i] == 0.0
    {
      ProcessInput(input, output);
      if holdSamples > 0 {
        assert output[..] == input;
      } else if exists i :: 0 <= i < |input| && input[i] != 0.0 {
        var i :| 0 <= i < |input| && input[i] != 0.0;
        assert output[..][i] != input[i];
      } else {
        assert output[..] == input;
      }
    }

    /** A block: silence, with nothing changed, while no input is connected. */
    method Process(input: Option<seq<real>>, output: array<real>)
      requires Valid()
      modifies this, output
      ensures Valid()
      ensures input.None? ==> quiet == old(quiet) && forall i :: 0 <= i < output.Length ==> output[i] == 0.0
      ensures input.Some? ==>
                && quiet == (if Audible(input.value, floor) then 0 else old(quiet) + |input.value|)
                && forall i :: 0 <= i < output.Length ==>
                     output[i] == if quiet >= holdSamples then 0.0
                                  else if i < |input.value| then input.value[i] else old(output[i])
    {
      if input.None? {
        forall i | 0 <= i < output.Length { output[i] := 0.0; }
        return;
      }
      ProcessInput(input.value, output);
    }
  }
}
