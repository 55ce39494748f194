/**
 * The offline autocorrelation search: a one-second recording is scanned
 * backwards from its last sample for the first delay whose autocorrelation is
 * a new best and is confirmed one period further back.
 */
module Autocorrelation {

  /** Samples in the recording: `FS * T` with FS = 48000 Hz and T = 1 s. */
  const RecordingLength: nat := 48000
  /** `(48000.0 / 400.0).round()`: the search starts at a 400 Hz period. */
  const InitialDelay: nat := 120
  /** Reaching this delay panics: the scan covers 120 ..= 599. */
  const MaxDelay: nat := 600
  /** Relative tolerance of the octave-confirmation test. */
  const Tolerance: real := 0.05

  function Abs(x: real): (r: real)
    ensures r >= 0.0 && (r == x || r == -x)
  {
    if x < 0.0 then -x else x
  }

  /**
   * Sum over `i < n` of `data[offset - i] * data[offset - (i + lag)]`: the
   * lagged product sum that `autocorr(delay, offset, offset2, data)` computes
   * with `n = delay` and `lag = delay + offset2`.  Every index read is in
   * bounds and no unsigned subtraction underflows exactly when the requires
   * holds.
   */
  function Lagged(data: seq<real>, offset: nat, lag: nat, n: nat): real
    requires offset < |data| && (n == 0 || n - 1 + lag <= offset)
  {
    if n == 0 then 0.0
    else Lagged(data, offset, lag, n - 1) + data[offset - (n - 1)] * data[offset - (n - 1 + lag)]
  }

  /** `autocorr`: an accumulator loop over `i in 0..delay`. */
  method Autocorr(delay: nat, offset: nat, offset2: nat, data: seq<real>) returns (acc: real)
    requires offset < |data| && (delay == 0 || 2 * delay + offset2 - 1 <= offset)
    ensures acc == Lagged(data, offset, delay + offset2, delay)
  {
    acc := 0.0;
    for i := 0 to delay
      invariant acc == Lagged(data, offset, delay + offset2, i)
    {
      acc := acc + data[offset - i] * data[offset - (i + delay + offset2)];
    }
  }

  /** The correlation of the window ending at the last sample with the one a `delay` back. */
  function Acc(data: seq<real>, delay: nat): real
    requires |data| == RecordingLength && delay < MaxDelay
  {
    Lagged(data, |data| - 1, delay, delay)
  }

  /** The same window correlated one further period back. */
  function Acc2(data: seq<real>, delay: nat): real
    requires |data| == RecordingLength && delay < MaxDelay
  {
    Lagged(data, |data| - 1, 2 * delay, delay)
  }

  /** The octave test: the correlation one period further back agrees within 5 %. */
  predicate Confirms(data: seq<real>, delay: nat)
    requires |data| == RecordingLength && delay < MaxDelay
  {
    Abs(Acc2(data, delay) - Acc(data, delay)) < Tolerance * Acc(data, delay)
  }

  /** `best_corr` when the scan reaches `delay`: the running maximum, starting from 0. */
  function BestBefore(data: seq<real>, delay: nat): (best: real)
    requires |data| == RecordingLength && InitialDelay <= delay <= MaxDelay
    ensures best >= 0.0
  {
    if delay == InitialDelay then 0.0
    else
      var prev := BestBefore(data, delay - 1);
      var acc := Acc(data, delay - 1);
      if acc > prev then acc else prev
  }

  /** The scan raises `best_corr` at `delay`. */
  predicate IsRecord(data: seq<real>, delay: nat)
    requires |data| == RecordingLength && InitialDelay <= delay < MaxDelay
  {
    Acc(data, delay) > BestBefore(data, delay)
  }

  /** The scan stops at `delay`: a new best that passes the octave test. */
  predicate Accepts(data: seq<real>, delay: nat)
    requires |data| == RecordingLength && InitialDelay <= delay < MaxDelay
  {
    IsRecord(data, delay) && Confirms(data, delay)
  }

  /**
   * A record is exactly a positive correlation that beats every earlier
   * delay of the scan strictly.
   */
  lemma {:induction false} RecordCharacterization(data: seq<real>, delay: nat)
    requires |data| == RecordingLength && InitialDelay <= delay < MaxDelay
    ensures IsRecord(data, delay) <==>
      (Acc(data, delay) > 0.0 &&
       forall d :: InitialDelay <= d < delay ==> Acc(data, d) < Acc(data, delay))
  {
    BestBeforeBounds(data, delay);
    BestBeforeAttained(data, delay);
  }

  lemma {:induction false} BestBeforeBounds(data: seq<real>, delay: nat)
    requires |data| == RecordingLength && InitialDelay <= delay <= MaxDelay
    ensures forall d :: InitialDelay <= d < delay ==> Acc(data, d) <= BestBefore(data, delay)
  {
    if delay > InitialDelay {
      BestBeforeBounds(data, delay - 1);
    }
  }

  lemma {:induction false} BestBeforeAttained(data: seq<real>, delay: nat)
    requires |data| == RecordingLength && InitialDelay <= delay <= MaxDelay
    ensures BestBefore(data, delay) == 0.0 ||
      exists d :: InitialDelay <= d < delay && Acc(data, d) == BestBefore(data, delay)
  {
    if delay > InitialDelay {
      BestBeforeAttained(data, delay - 1);
    }
  }

  datatype SearchResult =
    | Detected(delay: nat, corr: real)  // `break` with `best_delay` and `best_corr`
    | Exhausted                         // `delay == 600`: the `panic!()`

  /**
   * The search loop of `main`: the result is the first delay of 120 ..= 599
   * that the scan accepts, or `Exhausted` when there is none.
   */
  method Search(data: seq<real>) returns (r: SearchResult)
    requires |data| == RecordingLength
    ensures r.Detected? ==>
      && InitialDelay <= r.delay < MaxDelay
      && Accepts(data, r.delay)
      && r.corr == Acc(data, r.delay) && r.corr > 0.0
      && (forall d :: InitialDelay <= d < r.delay ==> Acc(data, d) < r.corr)
      && (forall d :: InitialDelay <= d < r.delay ==> !Accepts(data, d))
    ensures r.Exhausted? ==> forall d :: InitialDelay <= d < MaxDelay ==> !Accepts(data, d)
  {
    var delay := InitialDelay;
    var offset := |data| - 1;
    var bestCorr := 0.0;
    var bestDelay := 0;
    while true
      invariant InitialDelay <= delay < MaxDelay
      invariant bestCorr == BestBefore(data, delay)
      invariant forall d :: InitialDelay <= d < delay ==> !Accepts(data, d)
      decreases MaxDelay - delay
    {
      var acc := Autocorr(delay, offset, 0, data);
      if acc > bestCorr {
        bestCorr := acc;
        bestDelay := delay;
        var acc2 := Autocorr(delay, offset, delay, data);
        if Abs(acc2 - acc) < Tolerance * acc {
          RecordCharacterization(data, delay);
          return Detected(bestDelay, bestCorr);
        }
      }
      delay := delay + 1;
      if delay == MaxDelay {
        return Exhausted;
      }
    }
  }
}
