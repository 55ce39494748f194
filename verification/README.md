# guitar_tuner in Dafny

A model of the pitch-tracking algorithms of the `guitar_tuner` experiments.
Each experiment estimates the period of a plucked guitar string, as a count of
samples called the *delay*, from a window of recent samples.

- **Search/Track tracker** (`SimpleTuner`, `simple_tuner.dfy`). This is the
  real-time tuner. Every input block is pushed into a 2048-slot history ring
  with a cursor `index_h`. Then one mode step runs for the whole block.
  - *Search* scans delays upward to 600. It looks for an autocorrelation that
    beats the running `best_corr` and is confirmed, within 0.25 %, by the
    correlation one period further back.
  - *Track* moves the delay by one sample towards a smaller squared-difference
    score. An energy jump sends it back to Search. The result is clamped to
    `[current_delay*8/10, current_delay*12/10]`.
  - The closure's captured state is the class `Tracker`. The two arms are
    proved against the specification functions `SearchFrom` and `TrackFrom`.
- **Integer tracker on the nRF52840** (`RticTuner`, `rtic_tuner.dfy`). The
  `process` task stores `i16` samples in a 1024-slot ring. Every `period * 5`
  samples it compares the sums of absolute differences at lags `period + 1`,
  `period` and `period - 1`, and moves `period` by one step inside `[2, 13]`.
- **Offline prototypes.**
  - `Autocorrelation` is the non-wrapping autocorrelation search over a
    one-second recording.
  - `Correlation` is the squared-difference gradient descent. Its `panic!()`
    and the index panics are outcomes of their own.
- **Zero-crossing meters.**
  - `Feedback` is the Neg/Pos sign machine with its 32-slot frequency average.
  - `ZeroCrossing` is the rising-crossing counter `process`. It is identical in
    `zero_crossing_high.rs` and `zero_crossing_high2.rs`.
- **`lerp_zero`** (`Lerp`).
- **`Ring`** is shared by the two ring-buffer trackers. It gives the slot `k`
  back from the cursor, and the predicate that a ring mirrors the stream of
  pushed samples. Each tracker proves, for its own ring size, that the
  Rust index expression `(SIZE + index - k) % SIZE` picks that slot.

Sample values are `real`; `i16` samples are a newtype. The rtic sums are
unbounded `int`, and a lemma shows that they fit in `i32`.

The model follows the code, including these details:
- The mode step runs once per input block, not once per sample.
- On an energy reset the energy average is still updated. The gradient step
  still runs, on `initial_delay` with the scores measured at the old delay, and
  the clamp still applies around the unchanged `current_delay`.
- The upper clamp bound truncates: `(current_delay as f32 * 1.2) as usize`.

## Model

| member | source | states |
|---|---|---|
| Ring.Back | examples/simple_tuner_works.rs:113-114 | the slot read `k` behind the cursor is a valid slot of the ring |
| Ring.Advance | examples/simple_tuner_works.rs:179 | advancing the cursor lands on the slot a full turn minus one behind it, so the next write overwrites the oldest sample |
| Ring.BackInjective | examples/simple_tuner_works.rs:113-114 | two different look-backs of less than a full turn read different slots |
| Ring.MirrorAt | examples/simple_tuner_works.rs:137-138 | in a ring that mirrors the stream, reading `k` back gives the sample pushed `k` steps before the latest |
| Ring.PushMirrors | examples/simple_tuner_works.rs:179-180 | advancing the cursor and overwriting the slot it lands on keeps the ring a mirror of the stream extended by the new sample |
| SimpleTuner.SlotIsBack | examples/simple_tuner_works.rs:113-114 | for `k <= 2048 + index` the `usize` expression does not underflow and its remainder is the ring slot `k` back |
| SimpleTuner.AdvanceMod | examples/simple_tuner_works.rs:179 | after `a` pushes from slot 0, one more push leaves the cursor at `(a + 1) % 2048` |
| SimpleTuner.DiffSumOf | examples/simple_tuner_works.rs:109-120 | the windowed sum of squared differences is never negative |
| SimpleTuner.EnergyOf | examples/simple_tuner_works.rs:122-131 | the windowed energy is never negative |
| SimpleTuner.RingAutocorrIsLagged | examples/simple_tuner_works.rs:133-142 | read through a mirroring ring, the wrapped autocorrelation equals the plain lagged product sum over the latest samples of the stream |
| SimpleTuner.DiffSum | examples/simple_tuner_works.rs:109-120 | the loop over the wrapped indices computes the squared-difference sum at the given lag |
| SimpleTuner.Energy | examples/simple_tuner_works.rs:122-131 | the loop computes the sum of squares of the latest `window` samples; its `delay` argument plays no part |
| SimpleTuner.Autocorr | examples/simple_tuner_works.rs:133-142 | the loop computes the product sum at lag `delay + offset2`; the requires is exactly the no-underflow condition `2*delay + offset2 - 1 <= 2048 + offset` |
| SimpleTuner.SearchFromOutcome | examples/simple_tuner_works.rs:196-234 | from a mid-scan state where no delay passed qualifies and `best_corr` is 0 or the best correlation passed, the scan from `start` ends in Track at the first delay that qualifies (positive correlation strictly beating every delay scanned before it, octave test passed), with `current_delay = delay` and `best_corr` that correlation; it resets to `initial_delay` with `best_corr = 0` exactly when no delay up to 600 qualifies; the energy average never changes |
| SimpleTuner.GradientMovesToBetterNeighbour | examples/simple_tuner_works.rs:252-266 | the step moves by at most one; down exactly when `low < mid`, even if `high < mid` too; up exactly when `high < mid <= low`; it stays exactly when no neighbour is strictly smaller, ties included |
| SimpleTuner.InvBoundsLookBack | examples/simple_tuner_works.rs:197-208 | under the tracker invariant, Search reads at most `3*delay - 1 < 2048` back, Track at most `2*delay < 2048`, and Track's `delay - 1` does not underflow |
| SimpleTuner.TrackOutcome | examples/simple_tuner_works.rs:244-271 | whatever the scores: `current_delay` unchanged, the delay in the clamp band, the energy average updated; on an energy jump, Search with `best_corr = 0`; otherwise still Track with `best_corr` kept and the delay moved by at most one |
| SimpleTuner.TrackKeepsInv | examples/simple_tuner_works.rs:244-271 | a Track step preserves the tracker invariant |
| SimpleTuner.StepKeepsInv | examples/simple_tuner_works.rs:193-273 | the mode step preserves the invariant in both modes: Search starts each block with `best_corr = 0` and delay in `[initial_delay - 1, 600]`; Track keeps delay in the band around an anchor in `[initial_delay - 1, 600]` |
| SimpleTuner.SearchOutcome | examples/simple_tuner_works.rs:205-233 | a Search block either ends confirmed in Track at the first delay from where it started that qualifies, with `current_delay = delay` and `best_corr` its correlation, or, exactly when no delay up to 600 qualifies, stays in Search with `delay = initial_delay` and `best_corr = 0` |
| SimpleTuner.SearchScan | examples/simple_tuner_works.rs:196-234 | the scan loop ends with the state `SearchFrom` specifies, after at most `601 - delay` candidate delays (a ghost count) |
| SimpleTuner.TrackAdjust | examples/simple_tuner_works.rs:236-273 | the Track arm ends with the state `TrackFrom` specifies |
| SimpleTuner.Tracker.constructor | examples/simple_tuner_works.rs:156-174 | starts in Search with `delay = current_delay = initial_delay`, `best_corr = energy_average = 0`, a zeroed history and cursor 0 |
| SimpleTuner.Tracker.Push | examples/simple_tuner_works.rs:179-180 | the cursor advances to `(index_h + 1) % 2048`, only that slot is overwritten, and the ring mirrors the stream plus the sample |
| SimpleTuner.Tracker.PushBlock | examples/simple_tuner_works.rs:178-185 | the block is appended to the stream in order, the cursor moves by the block length mod 2048, and the mode state is untouched |
| SimpleTuner.Tracker.OnInput | examples/simple_tuner_works.rs:175-275 | push the block, then exactly one mode step on the new history, keeping the invariant and the ring mirror |
| RticTuner.SlotIsBack | nrf52840/rtic_app/examples/rtic_tuner.rs:136-139 | each index expression of `estimate_error` that does not underflow reads the ring slot that many samples back |
| RticTuner.AdvanceIsMod | nrf52840/rtic_app/examples/rtic_tuner.rs:105 | `(ptr + 1) % buffer.len()` is the ring advance |
| RticTuner.AbsDiffSum | nrf52840/rtic_app/examples/rtic_tuner.rs:141-143 | a sum of absolute differences is never negative |
| RticTuner.AbsDiffSumBound | nrf52840/rtic_app/examples/rtic_tuner.rs:141-143 | a sum of `n` absolute differences of `i16` values is at most `n * 65535` |
| RticTuner.ErrStep | nrf52840/rtic_app/examples/rtic_tuner.rs:135-144 | one iteration adds `|curr - low|`, `|curr - mid|` and `|curr - high|`, the terms at lags `period + 1`, `period` and `period - 1` |
| RticTuner.EstimateError | nrf52840/rtic_app/examples/rtic_tuner.rs:131-146 | the three accumulators are the absolute-difference sums over `period` samples at lags `period + 1`, `period` and `period - 1`; the requires is exactly the no-underflow condition |
| RticTuner.ErrorsFitI32 | nrf52840/rtic_app/examples/rtic_tuner.rs:131-146 | each error is between 0 and `period * 65535`, so for `period <= 13` it fits in `i32` |
| RticTuner.AdjustSteps | nrf52840/rtic_app/examples/rtic_tuner.rs:117-124 | from `[2, 13]` re-estimation stays in `[2, 13]` and moves by at most one; it stays exactly when `err_mid` is already smallest or the step would leave the range; it moves down only when `err_low` is strictly smallest and up only when `err_high` is strictly below `err_mid` and at most `err_low` |
| RticTuner.AdjustDirectionInLags | nrf52840/rtic_app/examples/rtic_tuner.rs:137-139 | stated in lags: a smallest error at lag `period + 1` makes the period shorter, a smallest error at lag `period - 1` makes it longer |
| RticTuner.Process.constructor | nrf52840/rtic_app/examples/rtic_tuner.rs:96-97 | `cnt = 0`, `period = 3`, `ptr = 0` and a zeroed buffer |
| RticTuner.Process.Store | nrf52840/rtic_app/examples/rtic_tuner.rs:105-106 | `ptr` advances modulo 1024, only `buffer[ptr]` changes, the ring mirrors the stream plus the sample, and `period`, `cnt` are untouched |
| RticTuner.Process.Run | nrf52840/rtic_app/examples/rtic_tuner.rs:98-128 | after the store, with `cnt == 0` the period is re-estimated from the three errors on the new buffer and `cnt` becomes `period*5 - 1`; otherwise only `cnt` decreases by one; the invariant `period` in `[2, 13]`, `cnt < period*5` is kept, so `cnt` never underflows |
| RticTuner.CounterBound | nrf52840/rtic_app/examples/rtic_tuner.rs:125-127 | the counter stays below 65 |
| Autocorrelation.Abs | examples/autocorrelation.rs:47 | the absolute value is non-negative and is `x` or `-x` |
| Autocorrelation.Autocorr | examples/autocorrelation.rs:64-72 | the loop computes the lagged product sum at lag `delay + offset2`; the requires is exactly the in-bounds, no-underflow condition |
| Autocorrelation.BestBefore | examples/autocorrelation.rs:30-43 | the running best correlation is never negative |
| Autocorrelation.BestBeforeBounds | examples/autocorrelation.rs:41-43 | the running best is at least the correlation of every delay already scanned |
| Autocorrelation.BestBeforeAttained | examples/autocorrelation.rs:41-43 | the running best is 0 or the correlation of some delay already scanned |
| Autocorrelation.RecordCharacterization | examples/autocorrelation.rs:41-43 | `best_corr` is raised at a delay exactly when its correlation is positive and strictly beats every earlier delay |
| Autocorrelation.Search | examples/autocorrelation.rs:22-59 | the search returns the first delay in 120..599 that is a new best and passes the 5 % octave test, with `best_delay = delay` and `best_corr` its positive, strictly best correlation; the `delay == 600` panic happens exactly when no delay qualifies |
| Correlation.DiffSquareSum | examples/correlation.rs:52-68 | the squared-difference score is never negative |
| Correlation.ConvolutionSum | examples/correlation.rs:52-68 | the loop computes the sum of `(data[i] - data[i + delay])^2` over `i < size`; the requires is exactly the in-bounds condition |
| Correlation.NextDelay | examples/correlation.rs:35-43 | one pass of the body stays within one of the current delay, and whenever it moves the new delay has a strictly smaller score; the branch order (down when `low < mid`, even if `high < mid` too; up only otherwise) is the definition's |
| Correlation.Probe | examples/correlation.rs:30-43 | one pass of the loop body moves exactly when `NextDelay` moves, and then to `NextDelay`; otherwise it stops at the current delay with the outcome `Stopped` describes: break at a strict local minimum, `panic!()` when neither neighbour is strictly smaller and one ties, an index panic exactly when the delay is 0 or `delay + 1` reads past the data |
| Correlation.Descend | examples/correlation.rs:27-44 | the loop terminates with an outcome `Stopped` describes; the ghost `path` runs from the starting delay to the final one, each step is `NextDelay` of the delay before it, a probeable delay that is not a strict minimum, and the scores strictly decrease along it; any final delay other than the start has a strictly smaller score than the start |
| Feedback.SumBounds | examples/feedback.rs:140-141 | a ring of frequencies in `[lo, hi]` sums to between `32*lo` and `32*hi` |
| Feedback.SumOf | examples/feedback.rs:140 | the accumulation computes the sum of the ring |
| Feedback.Freq | examples/feedback.rs:132 | the frequency times the period in samples is the sample rate, and it is positive |
| Feedback.SignFollowsLastNonZero | examples/feedback.rs:160-166 | after each sample the sign machine holds the sign of the last non-zero sample; a zero never changes it |
| Feedback.UpdateKeepsInv | examples/feedback.rs:131-144 | a rejected count leaves the ring, index and average unchanged; an accepted one writes only `buf[index]`, advances `index` modulo 32 and makes the average the mean of the ring, which stays within `[0, 400]` |
| Feedback.FreqMeter.constructor | examples/feedback.rs:109-128 | `sign = Neg`, `sample_count = 0`, a zeroed ring, index 0 and average 0 |
| Feedback.FreqMeter.UpdateFreq | examples/feedback.rs:131-144 | `update_freq` performs the averaging update, keeps every stored frequency in `[0, 400]` and the average their mean, and leaves count and sign alone |
| Feedback.FreqMeter.OnSample | examples/feedback.rs:151-166 | every sample advances the sign machine; a rising edge calls `update_freq` with the count including this sample, which is at least 1, and resets the count to 0; otherwise the count grows by one and the ring is untouched |
| ZeroCrossing.Crossings | examples/zero_crossing_high.rs:40-52 | the count is at most the number of samples |
| ZeroCrossing.Process | examples/zero_crossing_high.rs:40-52 | the loop returns the number of rising crossings of the sequence; `process` at examples/zero_crossing_high2.rs:52-64 is the same code |
| ZeroCrossing.CrossingsCountsRisingPositions | examples/zero_crossing_high.rs:43-49 | the count equals the number of positions `i` with `s[i-1] < 0 < s[i]` |
| ZeroCrossing.FirstSampleNeverCounted | examples/zero_crossing_high.rs:41-42 | the first sample is never a crossing, so empty and one-sample inputs give 0 |
| ZeroCrossing.CrossingsBound | examples/zero_crossing_high.rs:40-52 | the count is at most half the number of samples |
| ZeroCrossing.ZeroBreaksCrossing | examples/zero_crossing_high.rs:44-49 | a zero between a negative and a positive sample removes the crossing those two would make |
| ZeroCrossing.FallingNotCounted | examples/zero_crossing_high.rs:44-45 | a positive-to-negative transition does not count |
| Lerp.LerpZero | src/lerp.rs:3-5 | the result is a root of the line through `(0, y0)` and `(1, y1)` |
| Lerp.LerpZeroUnique | src/lerp.rs:3-5 | it is the only root |
| Lerp.OppositeSignsInterpolate | src/lerp.rs:8-13 | samples of strictly opposite sign give a crossing strictly inside `(0, 1)` |
| Lerp.ZeroEndpoints | src/lerp.rs:10-14 | a zero second sample gives 1 and a zero first sample gives 0 |
| Lerp.LerpZeroNegation | src/lerp.rs:8-14 | negating both samples leaves the crossing unchanged |
| Lerp.SameSignExtrapolates | src/lerp.rs:16 | same-sign samples give a crossing outside `[0, 1]` |
| Lerp.LerpZeroExamples | src/lerp.rs:7-17 | the values of the test's seven cases, such as `lerp_zero(-1, 1) = 0.5` and `lerp_zero(2, 1) = 2` |

## Left out

- Audio transport: cpal host and device selection, stream building and `play`, option parsing, the `HeapRb` monitoring ring with its latency fill, `output_data_fn`, `err_fn`, the `output_fell_behind` flag and the final `loop {}`. These are I/O and thread scheduling.
- `examples/tuner.rs` is not part of this model. It is a biquad filterbank over an external crate.
- The `biquad` band-pass filters in `feedback.rs` and the zero-crossing experiments. The filtered samples are the model's input.
- The `sin` test-signal synthesis in `autocorrelation.rs` and `correlation.rs`, and `read_lines` file parsing. The recording is an input sequence.
- Every `println!`/`rprintln!`, including the `FS / delay` frequency printouts.
- The RTIC `init`, `idle` and `sample` tasks and `get_sample`. These are ADC registers, DMA fences and task scheduling; the sample is a parameter of `Run`.
- f32 rounding: samples, sums and tolerances are real numbers. `1.0 / (count / rate)` is exact; the `f32` `+inf` of a zero count is modelled as the rejection it causes.
- `(current_delay as f32 * 1.2) as usize` and `* 0.8` are modelled as `current_delay*12/10` and `current_delay*8/10`. These agree for the delays that occur (at most 720).
- The unused `count` variable and the commented-out every-100-blocks gate of the real-time tuner.
- SimpleTuner.Tracker.constructor: requires `3 <= initial_delay < 600`. `simple_tuner_works.rs` computes `initial_delay = fs / 400`, 120 at 48 kHz; the bounds keep the clamp's lower edge at least 1, so Track's `delay - 1` cannot underflow.
- Feedback.FreqMeter.OnSample: the sample counter is unbounded; the wrap-around of the `i32` `sample_count` in `feedback.rs` after 2^31 samples without a rising edge is not modelled.
- ZeroCrossing.Process: the count is an unbounded `nat`; the Rust `nr_zero` is a `u32`, whose wrap-around cannot happen below 2^33 samples because the count is at most half the length (`CrossingsBound`).
- Lerp.LerpZero: requires `y1 != y0`. In f32 that case yields an infinity or NaN, which the model does not represent.
- Autocorrelation.Search: requires the 48000-sample recording of `main`. `main` in `autocorrelation.rs` runs the search on no other input.
