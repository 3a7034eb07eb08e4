/**
 Block processing of complex_clip. The host hands over input channels and
 output channels; they are paired up in order, and within each pair the
 samples are paired up in order, stopping at the shorter side each time.
 Every paired output sample becomes the clipped input sample; every other
 output sample keeps what it held. One parameter snapshot, read before
 any sample is touched, serves the whole block.
 */
module Block {
  import opened Parameters
  import opened Transfer

  /** True when position (c, k) of the output has a partner in the input. */
  predicate Paired(input: seq<seq<real>>, output: seq<seq<real>>, c: int, k: int) {
    0 <= c < |input| && c < |output| && 0 <= k < |input[c]| && k < |output[c]|
  }

  /** Whatever the host has written to the store, the snapshot a block reads
      meets the precondition of `Process` (by `ReachableValid`): its effective clip point is
      strictly positive, so the curve never divides by zero, and its gain is
      positive, so every output lies in [-gain, gain]. */
  lemma SnapshotSafe(writes: seq<Write>)
    ensures Effective(ApplyAll(Default(), writes).threshold) >= Floor / 3.0 > 0.0
    ensures ApplyAll(Default(), writes).gain >= Floor > 0.0
  {
    ReachableValid(writes);
  }

  /** Fill one output channel from its input channel with the curve at
      clip point `t` and gain `gain`. */
  method ProcessChannel(t: real, gain: real, input: seq<real>, output: seq<real>)
    returns (result: seq<real>)
    requires t > 0.0 && gain >= 0.0
    ensures |result| == |output|
    ensures forall k :: 0 <= k < |input| && k < |output| ==>
      result[k] == Clip(input[k], t, gain)
    ensures forall k :: |input| <= k < |output| ==> result[k] == output[k]
    ensures forall k :: 0 <= k < |input| && k < |output| ==>
      -gain <= result[k] <= gain
  {
    result := output;
    var n := if |input| < |output| then |input| else |output|;
    var k := 0;
    while k < n
      invariant 0 <= k <= n
      invariant |result| == |output|
      invariant forall j :: 0 <= j < k ==> result[j] == Clip(input[j], t, gain)
      invariant forall j :: 0 <= j < k ==> -gain <= result[j] <= gain
      invariant forall j :: k <= j < |output| ==> result[j] == output[j]
    {
      Bounded(input[k], t, gain);
      result := result[k := Clip(input[k], t, gain)];
      k := k + 1;
    }
  }

  /** Process one block: read the snapshot once, then clip every paired
      sample of every paired channel. */
  method Process(p: Params, input: seq<seq<real>>, output: seq<seq<real>>)
    returns (result: seq<seq<real>>)
    requires Valid(p)
    ensures |result| == |output|
    ensures forall c :: 0 <= c < |output| ==> |result[c]| == |output[c]|
    ensures forall c, k :: Paired(input, output, c, k) ==>
      result[c][k] == Clip(input[c][k], Effective(p.threshold), p.gain)
    ensures forall c, k ::
      0 <= c < |output| && 0 <= k < |output[c]| && !Paired(input, output, c, k) ==>
      result[c][k] == output[c][k]
    ensures forall c, k :: Paired(input, output, c, k) ==>
      -p.gain <= result[c][k] <= p.gain
  {
    var t := Effective(p.threshold);
    var gain := p.gain;
    result := output;
    var n := if |input| < |output| then |input| else |output|;
    var c := 0;
    while c < n
      invariant 0 <= c <= n
      invariant |result| == |output|
      invariant forall d :: 0 <= d < |output| ==> |result[d]| == |output[d]|
      invariant forall d, k :: 0 <= d < c && Paired(input, output, d, k) ==>
        result[d][k] == Clip(input[d][k], t, gain)
      invariant forall d, k :: 0 <= d < c && Paired(input, output, d, k) ==>
        -gain <= result[d][k] <= gain
      invariant forall d, k ::
        0 <= d < c && 0 <= k < |output[d]| && !Paired(input, output, d, k) ==>
        result[d][k] == output[d][k]
      invariant forall d :: c <= d < |output| ==> result[d] == output[d]
    {
      var channel := ProcessChannel(t, gain, input[c], output[c]);
      result := result[c := channel];
      c := c + 1;
    }
  }
}
