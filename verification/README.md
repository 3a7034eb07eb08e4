# complex_clip in Dafny

A model of the core of `complex_clip`, a small VST distortion plugin written
in Rust. The plugin has two pieces of logic:

- a **parameter store** holding `threshold` (index 0) and `gain` (index 1).
  The host reads and writes them by a signed 32-bit index. Reads of an
  unknown index give 0.0, writes to an unknown index are ignored, and every
  write clamps the value from below to 0.001. Each index also has a fixed
  name and a `%` label, and its value is displayed as a percentage;
- a **symmetric hard clip** applied to every sample of every channel of an
  audio block. The effective clip point is `t = threshold / 3`. A
  non-negative sample `x` becomes `min(x, t) / t * gain`, and a negative one
  becomes `max(x, -t) / t * gain`.

Files:

- `realops.dfy`, module `RealOps`: `Min` and `Max` on reals, standing for
  Rust's `f32::min` and `f32::max`.
- `params.dfy`, module `Parameters`: the store as an immutable `Params`
  record with pure `Get` / `Set` / `Name` / `Label` / `Text`. `ApplyAll`
  replays a sequence of host writes. The store invariant `Valid` says both
  values are at least 0.001.
- `transfer.dfy`, module `Transfer`: the curve `Clip` exactly as the plugin
  evaluates it, split on the sign of the sample. Next to it is an
  independent definition `ClampThenScale`, which clamps into `[-t, t]` and
  then scales. The contract of `Clip` says the two agree, and lemmas prove
  the linear region, saturation, bounds, sign preservation, oddness and
  monotonicity.
- `block.dfy`, module `Block`: `Process` applies the curve to a block. It
  reads the snapshot `(threshold / 3, gain)` once before touching any
  sample. `SnapshotSafe` ties the store invariant to the division in the
  curve.

Samples and parameters are modelled as `real`, not as 32-bit floats. The
host's output buffer is an input to `Process`, and the filled buffer is its
result.

## Model

| member | source | states |
|---|---|---|
| Parameters.Default | src/lib.rs:14-21 | The store starts with threshold 1.0 and gain 0.5, and it already satisfies the floor invariant. |
| Parameters.Get | src/lib.rs:74-80 | Index 0 reads the threshold and index 1 reads the gain. Any index other than 0 and 1 reads as 0.0. On a store that keeps the invariant, a read is 0.0 exactly when the index is out of range, and a valid index reads at least 0.001. |
| Parameters.Set | src/lib.rs:82-88 | After a write, reading that index gives `max(value, 0.001)`. Every other index reads as before. An out-of-range write leaves the store unchanged. Writes preserve the invariant. |
| Parameters.Name | src/lib.rs:90-96 | Index 0 is named "threshold" and index 1 "gain". The name is non-empty exactly for indices 0 and 1. |
| Parameters.Label | src/lib.rs:106-111 | Indices 0 and 1 are labelled "%", and every other index has an empty label. |
| Parameters.Text | src/lib.rs:98-104 | The display text is empty exactly for out-of-range indices. Otherwise it shows the value read at that index times 100. |
| Parameters.ApplyAllPreservesValid | src/lib.rs:82-88 | Starting from a valid store, any sequence of host writes leaves both values at or above 0.001. |
| Parameters.ReachableValid | src/lib.rs:14-21 | Every store reachable from the default by host writes satisfies the invariant. |
| Parameters.SetGetRoundTrip | src/lib.rs:74-88 | The two cases of the clamped read-back: writing `v` to index 0 or 1 and reading it back gives `v` when `v >= 0.001`, and 0.001 otherwise. |
| Parameters.SetIsolated | src/lib.rs:82-88 | A write to index 0 sets the threshold field to `max(value, 0.001)` and leaves gain unchanged. A write to index 1 sets the gain field the same way and leaves threshold unchanged. |
| Parameters.SetOverwrites | src/lib.rs:82-88 | Of two writes to the same index, only the later one is observable. |
| Parameters.SetCurrentIsIdentity | src/lib.rs:74-88 | On a valid store, writing back the value just read changes nothing, for every index. |
| Parameters.MetadataAgrees | src/lib.rs:90-111 | Name, label and text agree on which indices exist. The two valid indices have different names. |
| Transfer.Effective | src/lib.rs:52 | The effective clip point is one third of the stored threshold. For a positive threshold it is positive and strictly below the threshold. |
| RealOps.Min | src/lib.rs:60 | The result is at most both operands and is one of them, as `f32::min` gives for non-NaN operands. |
| RealOps.Max | src/lib.rs:84-85 | The result is at least both operands and is one of them, as `f32::max` gives for non-NaN operands. The curve uses it too, at src/lib.rs:62. |
| Transfer.Clip | src/lib.rs:59-63 | The per-sample expression: `min(x, t) / t * gain` for `x >= 0` and `max(x, -t) / t * gain` otherwise, defined whenever `t != 0`. For `t > 0` it equals, for every input, the curve that clamps the sample into `[-t, t]` and then maps that interval linearly onto `[-gain, gain]`. |
| Transfer.SignSplitIsClamp | src/lib.rs:59-63 | For `t > 0`, the `min` branch taken for non-negative samples and the `max` branch taken for negative ones both compute the clamp of the sample into `[-t, t]`. |
| Transfer.LinearRegion | src/lib.rs:59-63 | For `-t <= x <= t` the output is `x / t * gain`. |
| Transfer.Saturation | src/lib.rs:59-63 | For `x >= t` the output is exactly `gain`. For `x <= -t` it is exactly `-gain`. |
| Transfer.Bounded | src/lib.rs:59-63 | With `t > 0` and `gain >= 0`, every output lies in `[-gain, gain]`, however large the input. |
| Transfer.SignPreserved | src/lib.rs:59-63 | A non-negative input gives a non-negative output, a negative input gives a non-positive output, and 0 maps to 0. |
| Transfer.Odd | src/lib.rs:59-63 | `Clip(-x) == -Clip(x)` for every `x`. |
| Transfer.Monotone | src/lib.rs:59-63 | `x <= y` implies `Clip(x) <= Clip(y)`. |
| Transfer.DefaultExample | src/lib.rs:52-63 | With the default snapshot (threshold 1.0, gain 0.5), 0.5 and 1.5 map to 0.5 and -2.0 maps to -0.5. |
| Transfer.DefaultExampleLinear | src/lib.rs:52-63 | With the default snapshot, 1/6 (half the effective clip point) maps to 0.25 (half the gain). |
| Block.SnapshotSafe | src/lib.rs:52-53 | Using `Parameters.ReachableValid`, any snapshot a block can read has an effective clip point of at least 0.001/3 and a gain of at least 0.001. So the curve's division is always defined. |
| Block.ProcessChannel | src/lib.rs:55-64 | Each paired sample becomes the clipped input sample and lies in `[-gain, gain]`. Output samples past the end of the input keep their old values, and the channel length is preserved. |
| Block.Process | src/lib.rs:51-66 | Channels and samples are paired in order, stopping at the shorter side. Every paired output sample is the curve applied to its input sample, using one `(threshold / 3, gain)` snapshot. Every unpaired output sample is unchanged. Channel count and lengths are preserved, and paired outputs lie in `[-gain, gain]`. |

## Left out

- Concurrency: the plugin keeps each parameter in an atomic cell shared between the audio and control threads. Here the store is a plain value, and `Process` takes one snapshot of it as an argument.
- 32-bit floats: values and samples are `real`. Rounding, NaN and infinities are not modelled. In particular, a NaN write, which Rust's `max` turns into 0.001, is not modelled.
- Parameters.Text: the Rust code formats `value * 100.0` with the default float-to-string conversion. The model returns the number `value * 100.0` rather than its decimal rendering.
- Block.Process: requires the store invariant. The Rust code does not check it, but `SnapshotSafe` shows that every store reachable through `Set` satisfies it, so the store never holds a threshold of 0. What the model cannot express is f32's behaviour on such a threshold, where `0 / 0` gives NaN.
- Block.Process: treats the input and output channels as separate buffers. A host may process in place. If input channel c is the same buffer as output channel c, the result is the same, because each sample is read before it is written. Aliasing between channels of different indices is not modelled, and there the result could differ.
- Plugin shell: `get_info` metadata, `get_parameter_object` and the `plugin_main!` registration are host glue with no logic.
- Folding variant: `src/lib.rs` contains only the symmetric hard clip. A four-parameter clip-with-fold engine is not part of this model.
