/**
 The parameter store of the complex_clip plugin: two values, `threshold`
 (index 0) and `gain` (index 1), addressed by a signed 32-bit index.
 Every index gets a total answer: out-of-range reads give 0.0 and
 out-of-range writes are ignored. Writes clamp the value from below.
 */
module Parameters {
  import opened RealOps

  /** The host addresses parameters with a signed 32-bit integer. */
  newtype i32 = x: int | -0x8000_0000 <= x < 0x8000_0000

  /** The lower bound every write clamps to. */
  const Floor: real := 0.001

  /** Number of parameters the store exposes. */
  const Count: int := 2

  const ThresholdIndex: i32 := 0
  const GainIndex: i32 := 1

  /** A snapshot of the store. Both cells are plain values here. */
  datatype Params = Params(threshold: real, gain: real)

  /** The text shown for a parameter: empty, or the value as a percentage. */
  datatype DisplayText = Empty | Percent(value: real)

  predicate IsIndex(index: i32) {
    0 <= index as int < Count
  }

  /** The store's invariant: both parameters sit at or above the floor. */
  predicate Valid(p: Params) {
    p.threshold >= Floor && p.gain >= Floor
  }

  /** The store as the plugin creates it. */
  function Default(): (p: Params)
    ensures p.threshold == 1.0 && p.gain == 0.5
    ensures Valid(p)
  {
    Params(1.0, 0.5)
  }

  /** Read a parameter; any index other than 0 and 1 reads as 0.0. */
  function Get(p: Params, index: i32): (r: real)
    ensures index == ThresholdIndex ==> r == p.threshold
    ensures index == GainIndex ==> r == p.gain
    ensures !IsIndex(index) ==> r == 0.0
    ensures Valid(p) ==> (r == 0.0 <==> !IsIndex(index))
    ensures Valid(p) && IsIndex(index) ==> r >= Floor
  {
    match index
    case 0 => p.threshold
    case 1 => p.gain
    case _ => 0.0
  }

  /** Write a parameter, clamping the value from below to `Floor`;
      an index other than 0 and 1 leaves the store as it was. */
  function Set(p: Params, index: i32, value: real): (r: Params)
    ensures IsIndex(index) ==> Get(r, index) == Max(value, Floor)
    ensures forall j: i32 :: j != index ==> Get(r, j) == Get(p, j)
    ensures !IsIndex(index) ==> r == p
    ensures Valid(p) ==> Valid(r)
  {
    match index
    case 0 => p.(threshold := Max(value, Floor))
    case 1 => p.(gain := Max(value, Floor))
    case _ => p
  }

  /** The fixed display name of each parameter. */
  function Name(index: i32): (r: string)
    ensures index == ThresholdIndex ==> r == "threshold"
    ensures index == GainIndex ==> r == "gain"
    ensures r != [] <==> IsIndex(index)
  {
    match index
    case 0 => "threshold"
    case 1 => "gain"
    case _ => ""
  }

  /** The unit label: a percent sign for every parameter. */
  function Label(index: i32): (r: string)
    ensures IsIndex(index) ==> r == "%"
    ensures !IsIndex(index) ==> r == ""
  {
    match index
    case 0 | 1 => "%"
    case _ => ""
  }

  /** The displayed value: the parameter times 100, or nothing. */
  function Text(p: Params, index: i32): (r: DisplayText)
    ensures r.Empty? <==> !IsIndex(index)
    ensures r.Percent? ==> r.value == Get(p, index) * 100.0
  {
    match index
    case 0 => Percent(p.threshold * 100.0)
    case 1 => Percent(p.gain * 100.0)
    case _ => Empty
  }

  /** One host write: an index and the value written there. */
  datatype Write = Write(index: i32, value: real)

  /** The store after a sequence of writes, applied in order. */
  function ApplyAll(p: Params, writes: seq<Write>): (r: Params)
    decreases |writes|
  {
    if writes == [] then p
    else ApplyAll(Set(p, writes[0].index, writes[0].value), writes[1..])
  }

  /** Every write keeps the invariant, so any sequence of them does. */
  lemma {:induction false} ApplyAllPreservesValid(p: Params, writes: seq<Write>)
    requires Valid(p)
    ensures Valid(ApplyAll(p, writes))
    decreases |writes|
  {
    if writes != [] {
      ApplyAllPreservesValid(Set(p, writes[0].index, writes[0].value), writes[1..]);
    }
  }

  /** Every store the host can reach from the default satisfies the invariant. */
  lemma ReachableValid(writes: seq<Write>)
    ensures Valid(ApplyAll(Default(), writes))
  {
    ApplyAllPreservesValid(Default(), writes);
  }

  /** Writing a value and reading it back gives the value itself when it is
      at or above the floor, and the floor otherwise (the two cases of the
      clamped read-back that `Set` promises). */
  lemma SetGetRoundTrip(p: Params, index: i32, value: real)
    requires IsIndex(index)
    ensures value >= Floor ==> Get(Set(p, index, value), index) == value
    ensures value < Floor ==> Get(Set(p, index, value), index) == Floor
  {
  }

  /** A write to index 0 moves the threshold and a write to index 1 moves
      the gain, each to the clamped value; neither touches the other. */
  lemma SetIsolated(p: Params, value: real)
    ensures Set(p, ThresholdIndex, value).threshold == Max(value, Floor)
    ensures Set(p, GainIndex, value).gain == Max(value, Floor)
    ensures Set(p, ThresholdIndex, value).gain == p.gain
    ensures Set(p, GainIndex, value).threshold == p.threshold
  {
  }

  /** The later of two writes to the same index wins. */
  lemma SetOverwrites(p: Params, index: i32, v1: real, v2: real)
    ensures Set(Set(p, index, v1), index, v2) == Set(p, index, v2)
  {
  }

  /** Re-writing the value a valid parameter already holds changes nothing. */
  lemma SetCurrentIsIdentity(p: Params, index: i32)
    requires Valid(p)
    ensures Set(p, index, Get(p, index)) == p
  {
  }

  /** Names, labels and texts agree on which indices exist, and the names
      tell the two parameters apart. */
  lemma MetadataAgrees(p: Params, i: i32, j: i32)
    ensures Name(i) != [] <==> Label(i) != []
    ensures Label(i) != [] <==> Text(p, i).Percent?
    ensures IsIndex(i) && IsIndex(j) && i != j ==> Name(i) != Name(j)
  {
  }
}
