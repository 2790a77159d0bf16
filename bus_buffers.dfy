/**
 `BusBuffers`: the channel buffers of one audio bus, worked on together. A
 channel is a buffer of samples; an operation touches one frame of the bus,
 on one, two or all of its channels.
 */
module BusBuffers {

  /** `BusBuffers`: one sample buffer per channel. */
  class BusBuffers {
    const buffers: seq<array<real>>

    /** The channels are different buffers. */
    ghost predicate Distinct()
      reads this
    {
      forall i, j :: 0 <= i < j < |buffers| ==> buffers[i] != buffers[j]
    }

    /** Every channel holds the frame. */
    ghost predicate HasFrame(frame: nat)
      reads this
    {
      forall k :: 0 <= k < |buffers| ==> frame < buffers[k].Length
    }

    /** The explicit constructor over a list of channel buffers. */
    constructor(buffers: seq<array<real>>)
      ensures this.buffers == buffers
    {
      this.buffers := buffers;
    }

    /** `isValid`: the bus has at least one channel. */
    predicate IsValid()
      reads this
    {
      |buffers| != 0
    }

    /** `isMono`: exactly one channel. */
    predicate IsMono()
      reads this
    {
      |buffers| == 1
    }

    /** `isStereo`: more than one channel. */
    predicate IsStereo()
      reads this
    {
      |buffers| > 1
    }

    /** `addMono`: the sample is added to the frame of channel 0 and nothing else changes. */
    method AddMono(frame: nat, monoSample: real)
      requires IsMono() && HasFrame(frame)
      modifies buffers[0]
      ensures buffers[0][frame] == old(buffers[0][frame]) + monoSample
      ensures forall i :: 0 <= i < buffers[0].Length && i != frame ==> buffers[0][i] == old(buffers[0][i])
    {
      buffers[0][frame] := buffers[0][frame] + monoSample;
    }

    /** `addStereo`: left goes onto channel 0, right onto channel 1, at the frame only. */
    method AddStereo(frame: nat, leftSample: real, rightSample: real)
      requires IsStereo() && HasFrame(frame) && Distinct()
      modifies buffers[0], buffers[1]
      ensures buffers[0][frame] == old(buffers[0][frame]) + leftSample
      ensures buffers[1][frame] == old(buffers[1][frame]) + rightSample
      ensures forall i :: 0 <= i < buffers[0].Length && i != frame ==> buffers[0][i] == old(buffers[0][i])
      ensures forall i :: 0 <= i < buffers[1].Length && i != frame ==> buffers[1][i] == old(buffers[1][i])
    {
      assert buffers[0] != buffers[1];
      buffers[0][frame] := buffers[0][frame] + leftSample;
      buffers[1][frame] := buffers[1][frame] + rightSample;
    }

    /** `addAll`: the sample is added to the frame of every channel; other frames keep their samples. */
    method AddAll(frame: nat, sample: real)
      requires HasFrame(frame) && Distinct()
      modifies set b | b in buffers
      ensures forall k :: 0 <= k < |buffers| ==> buffers[k][frame] == old(buffers[k][frame]) + sample
      ensures forall k, i :: 0 <= k < |buffers| && 0 <= i < buffers[k].Length && i != frame ==>
                buffers[k][i] == old(buffers[k][i])
    {
      var index := 0;
      while index < |buffers|
        invariant 0 <= index <= |buffers|
        invariant forall k :: 0 <= k < index ==> buffers[k][frame] == old(buffers[k][frame]) + sample
        invariant forall k :: index <= k < |buffers| ==> buffers[k][frame] == old(buffers[k][frame])
        invariant forall k, i :: 0 <= k < |buffers| && 0 <= i < buffers[k].Length && i != frame ==>
                    buffers[k][i] == old(buffers[k][i])
      {
        buffers[index][frame] := buffers[index][frame] + sample;
        index := index + 1;
      }
    }

    /**
     `addAlternating`: despite its name, the frame of every even channel is SET
     to the even sample and of every odd channel to the odd sample.
     */
    method AddAlternating(frame: nat, evenSample: real, oddSample: real)
      requires HasFrame(frame) && Distinct()
      modifies set b | b in buffers
      ensures forall k :: 0 <= k < |buffers| ==> buffers[k][frame] == AlternatingSample(k, evenSample, oddSample)
      ensures forall k, i :: 0 <= k < |buffers| && 0 <= i < buffers[k].Length && i != frame ==>
                buffers[k][i] == old(buffers[k][i])
    {
      var size := |buffers|;
      var index := 0;
      while index < size
        invariant 0 <= index <= size
        invariant forall k :: 0 <= k < index ==> buffers[k][frame] == AlternatingSample(k, evenSample, oddSample)
        invariant forall k, i :: 0 <= k < |buffers| && 0 <= i < buffers[k].Length && i != frame ==>
                    buffers[k][i] == old(buffers[k][i])
      {
        buffers[index][frame] := if index % 2 == 1 then oddSample else evenSample;
        index := index + 1;
      }
    }
  }

  /** The sample `addAlternating` puts on channel `index`. */
  function AlternatingSample(index: nat, evenSample: real, oddSample: real): (r: real)
    ensures index % 2 == 0 ==> r == evenSample
    ensures index % 2 == 1 ==> r == oddSample
  {
    if index % 2 == 1 then oddSample else evenSample
  }
}
