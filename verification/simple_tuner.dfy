/**
 * The Search/Track pitch tracker of the real-time tuner.  Every input block
 * is pushed into a 2048-slot history ring; then, once per block, either the
 * Search engine scans candidate delays for an autocorrelation peak that is
 * confirmed one period further back, or the Track engine nudges the delay by
 * one sample towards a smaller squared-difference score, falling back to
 * Search on an energy jump.  Samples are real numbers (f32 rounding is not
 * modelled).
 */
module SimpleTuner {
  import Ring
  import Autocorrelation

  const HistorySize: nat := 2048
  /** The Search scan stops at this delay (80 Hz at 48 kHz). */
  const MaxDelay: nat := 600
  /** Relative tolerance of the octave-confirmation test. */
  const Tolerance: real := 0.0025
  /** An energy above this multiple of the running average resets to Search. */
  const EnergyJump: real := 4.0

  datatype Mode = Search | Track

  /** The tracker's scalar state: everything but the history ring. */
  datatype Pitch = Pitch(mode: Mode, delay: nat, currentDelay: nat, bestCorr: real, energyAverage: real)

  /** For the constant ring size, the Rust index expression `(HISTORY_SIZE + index - k) % HISTORY_SIZE` picks the ring slot `k` back. */
  lemma SlotIsBack(index: nat, k: nat)
    requires index < HistorySize && k <= HistorySize + index
    ensures (HistorySize + index - k) % HistorySize == Ring.Back(HistorySize, index, k)
  {
  }

  /** Advancing the cursor `a` steps from slot 0 lands on slot `a % 2048`. */
  lemma AdvanceMod(a: nat)
    ensures Ring.Advance(HistorySize, a % HistorySize) == (a + 1) % HistorySize
  {
  }

  predicate Cursor(h: seq<real>, index: nat)
  {
    |h| == HistorySize && index < HistorySize
  }

  /** The sample `k` positions behind the cursor. */
  function At(h: seq<real>, index: nat, k: nat): real
    requires Cursor(h, index) && k <= HistorySize + index
  {
    h[Ring.Back(HistorySize, index, k)]
  }

  // ---------------------------------------------------------------------------
  // Windowed sums over the ring

  /** Sum over `i < n` of `(at(i) - at(i + delay))^2`: `diff_sum(n, delay, index, h)`. */
  function DiffSumOf(h: seq<real>, index: nat, delay: nat, n: nat): (r: real)
    requires Cursor(h, index) && (n == 0 || n - 1 + delay <= HistorySize + index)
    ensures r >= 0.0
  {
    if n == 0 then 0.0
    else
      var d := At(h, index, n - 1) - At(h, index, n - 1 + delay);
      DiffSumOf(h, index, delay, n - 1) + d * d
  }

  /** Sum over `i < n` of `at(i)^2`: `energy(n, _, index, h)`. */
  function EnergyOf(h: seq<real>, index: nat, n: nat): (r: real)
    requires Cursor(h, index) && (n == 0 || n - 1 <= HistorySize + index)
    ensures r >= 0.0
  {
    if n == 0 then 0.0
    else
      var x := At(h, index, n - 1);
      EnergyOf(h, index, n - 1) + x * x
  }

  /** Sum over `i < n` of `at(i) * at(i + lag)`: `autocorr` with `n = delay`, `lag = delay + offset2`. */
  function AutocorrOf(h: seq<real>, index: nat, lag: nat, n: nat): real
    requires Cursor(h, index) && (n == 0 || n - 1 + lag <= HistorySize + index)
  {
    if n == 0 then 0.0
    else AutocorrOf(h, index, lag, n - 1) + At(h, index, n - 1) * At(h, index, n - 1 + lag)
  }

  /**
   * Read through a ring that mirrors the sample stream, the wrapped
   * autocorrelation is the plain lagged sum over the stream ending at its
   * latest sample.
   */
  lemma {:induction false} RingAutocorrIsLagged(h: seq<real>, index: nat, stream: seq<real>, lag: nat, n: nat)
    requires |h| == HistorySize && Ring.Mirrors(h, index, stream)
    requires n == 0 || n - 1 + lag < HistorySize
    ensures AutocorrOf(h, index, lag, n) == Autocorrelation.Lagged(stream, |stream| - 1, lag, n)
  {
    if n > 0 {
      RingAutocorrIsLagged(h, index, stream, lag, n - 1);
      Ring.MirrorAt(h, index, stream, n - 1);
      Ring.MirrorAt(h, index, stream, n - 1 + lag);
    }
  }

  /** `diff_sum`: an accumulator loop over `i in 0..window`. */
  method DiffSum(window: nat, delay: nat, index: nat, data: array<real>) returns (diffSquare: real)
    requires Cursor(data[..], index) && (window == 0 || window - 1 + delay <= HistorySize + index)
    ensures diffSquare == DiffSumOf(data[..], index, delay, window)
  {
    diffSquare := 0.0;
    for i := 0 to window
      invariant diffSquare == DiffSumOf(data[..], index, delay, i)
    {
      SlotIsBack(index, i);
      SlotIsBack(index, i + delay);
      var d := data[(HistorySize + index - i) % HistorySize]
             - data[(HistorySize + index - (i + delay)) % HistorySize];
      diffSquare := diffSquare + d * d;
    }
  }

  /** `energy`: an accumulator loop over `i in 0..window` (its `delay` argument is unused). */
  method Energy(window: nat, delay: nat, index: nat, data: array<real>) returns (energy: real)
    requires Cursor(data[..], index) && (window == 0 || window - 1 <= HistorySize + index)
    ensures energy == EnergyOf(data[..], index, window)
  {
    energy := 0.0;
    for i := 0 to window
      invariant energy == EnergyOf(data[..], index, i)
    {
      SlotIsBack(index, i);
      var x := data[(HistorySize + index - i) % HistorySize];
      energy := energy + x * x;
    }
  }

  /** `autocorr`: an accumulator loop over `i in 0..delay`. */
  method Autocorr(delay: nat, offset: nat, offset2: nat, data: array<real>) returns (acc: real)
    requires Cursor(data[..], offset) && (delay == 0 || 2 * delay + offset2 - 1 <= HistorySize + offset)
    ensures acc == AutocorrOf(data[..], offset, delay + offset2, delay)
  {
    acc := 0.0;
    for i := 0 to delay
      invariant acc == AutocorrOf(data[..], offset, delay + offset2, i)
    {
      SlotIsBack(offset, i);
      SlotIsBack(offset, i + delay + offset2);
      acc := acc + data[(HistorySize + offset - i) % HistorySize]
                 * data[(HistorySize + offset - (i + delay + offset2)) % HistorySize];
    }
  }

  // ---------------------------------------------------------------------------
  // The Search engine

  /** The correlation of the latest `delay` samples with the `delay` before them. */
  function Acc(h: seq<real>, index: nat, delay: nat): real
    requires Cursor(h, index) && delay <= MaxDelay
  {
    AutocorrOf(h, index, delay, delay)
  }

  /** The same window correlated one further period back. */
  function Acc2(h: seq<real>, index: nat, delay: nat): real
    requires Cursor(h, index) && delay <= MaxDelay
  {
    AutocorrOf(h, index, 2 * delay, delay)
  }

  /** The octave test `|acc2 - acc| < 0.0025 * acc`. */
  predicate Confirms(h: seq<real>, index: nat, delay: nat)
    requires Cursor(h, index) && delay <= MaxDelay
  {
    Autocorrelation.Abs(Acc2(h, index, delay) - Acc(h, index, delay)) < Tolerance * Acc(h, index, delay)
  }

  /**
   * The Search arm of the mode step, from the scan position `st.delay`: stop
   * at the first delay whose correlation beats `best_corr` and passes the
   * octave test; otherwise raise `best_corr` as needed and try the next delay;
   * past 600, reset to the initial delay with `best_corr = 0`.
   */
  function SearchFrom(h: seq<real>, index: nat, initialDelay: nat, st: Pitch): Pitch
    requires Cursor(h, index) && st.delay <= MaxDelay
    decreases MaxDelay - st.delay
  {
    var acc := Acc(h, index, st.delay);
    if acc > st.bestCorr && Confirms(h, index, st.delay) then
      st.(mode := Track, currentDelay := st.delay, bestCorr := acc)
    else
      var best := if acc > st.bestCorr then acc else st.bestCorr;
      if st.delay < MaxDelay then
        SearchFrom(h, index, initialDelay, st.(delay := st.delay + 1, bestCorr := best))
      else
        st.(delay := initialDelay, bestCorr := 0.0)
  }

  /** One step of the scan, with the correlation at the current delay already measured. */
  lemma SearchFromStep(h: seq<real>, index: nat, initialDelay: nat, st: Pitch, acc: real)
    requires Cursor(h, index) && st.delay <= MaxDelay && acc == Acc(h, index, st.delay)
    ensures SearchFrom(h, index, initialDelay, st) ==
      if acc > st.bestCorr && Confirms(h, index, st.delay) then
        st.(mode := Track, currentDelay := st.delay, bestCorr := acc)
      else if st.delay < MaxDelay then
        SearchFrom(h, index, initialDelay,
          st.(delay := st.delay + 1, bestCorr := if acc > st.bestCorr then acc else st.bestCorr))
      else
        st.(delay := initialDelay, bestCorr := 0.0)
  {
  }

  /**
   * Scanning from `start` with `best_corr = 0`, the scan would stop at `d`:
   * its correlation is positive, strictly beats every delay scanned before
   * it, and passes the octave test.
   */
  predicate Qualifies(h: seq<real>, index: nat, start: nat, d: nat)
    requires Cursor(h, index) && d <= MaxDelay
  {
    && Acc(h, index, d) > 0.0
    && (forall e :: start <= e < d ==> Acc(h, index, e) < Acc(h, index, d))
    && Confirms(h, index, d)
  }

  /**
   * The scan from `start` stops at the first qualifying delay, and it is
   * exhausted, resetting to the initial delay with `best_corr = 0`, exactly
   * when no delay up to 600 qualifies; the energy average never changes.
   * Mid-scan, `best_corr` is the running maximum of the correlations passed
   * (or 0) and none of them qualified.
   */
  lemma {:induction false} SearchFromOutcome(h: seq<real>, index: nat, initialDelay: nat, st: Pitch, start: nat)
    requires Cursor(h, index) && st.mode == Search && start <= st.delay <= MaxDelay && st.bestCorr >= 0.0
    requires forall d :: start <= d < st.delay ==> Acc(h, index, d) <= st.bestCorr
    requires st.bestCorr == 0.0 || exists e :: start <= e < st.delay && Acc(h, index, e) == st.bestCorr
    requires forall d :: start <= d < st.delay ==> !Qualifies(h, index, start, d)
    ensures var r := SearchFrom(h, index, initialDelay, st);
      && r.energyAverage == st.energyAverage
      && (r.mode == Track ==>
            && st.delay <= r.delay <= MaxDelay && r.currentDelay == r.delay
            && r.bestCorr == Acc(h, index, r.delay) && r.bestCorr > st.bestCorr
            && Qualifies(h, index, start, r.delay)
            && (forall d :: start <= d < r.delay ==> !Qualifies(h, index, start, d)))
      && (r.mode == Search ==>
            && r.delay == initialDelay && r.bestCorr == 0.0 && r.currentDelay == st.currentDelay
            && (forall d :: start <= d <= MaxDelay ==> !Qualifies(h, index, start, d)))
    decreases MaxDelay - st.delay
  {
    var acc := Acc(h, index, st.delay);
    if acc <= st.bestCorr && st.bestCorr != 0.0 {
      var e :| start <= e < st.delay && Acc(h, index, e) == st.bestCorr;
      assert !Qualifies(h, index, start, st.delay);
    }
    assert Qualifies(h, index, start, st.delay) <==> acc > st.bestCorr && Confirms(h, index, st.delay);
    if !(acc > st.bestCorr && Confirms(h, index, st.delay)) && st.delay < MaxDelay {
      var best := if acc > st.bestCorr then acc else st.bestCorr;
      if acc > st.bestCorr {
        assert Acc(h, index, st.delay) == best;
      }
      SearchFromOutcome(h, index, initialDelay, st.(delay := st.delay + 1, bestCorr := best), start);
    }
  }

  // ---------------------------------------------------------------------------
  // The Track engine

  /** `(current_delay as f32 * 0.8) as usize`, exact for the delays that occur. */
  function Lower(currentDelay: nat): nat
  {
    currentDelay * 8 / 10
  }

  /** `(current_delay as f32 * 1.2) as usize`, exact for the delays that occur. */
  function Upper(currentDelay: nat): nat
  {
    currentDelay * 12 / 10
  }

  function Min(a: nat, b: nat): nat
  {
    if a <= b then a else b
  }

  function Max(a: nat, b: nat): nat
  {
    if a >= b then a else b
  }

  /** The ±1 gradient step on the three scores `low` (lag d-1), `mid` (d) and `high` (d+1). */
  function Gradient(d: nat, low: real, mid: real, high: real): nat
    requires d >= 1
  {
    if mid < low && mid < high then d
    else if low < mid then d - 1
    else if high < mid then d + 1
    else d
  }

  /**
   * The step only ever moves to a neighbour whose score is strictly smaller
   * than `mid`, preferring the shorter lag when both are; it stays when
   * `mid` is a strict minimum and on every tie where no neighbour is strictly
   * smaller.
   */
  lemma GradientMovesToBetterNeighbour(d: nat, low: real, mid: real, high: real)
    requires d >= 1
    ensures var g := Gradient(d, low, mid, high);
      && d - 1 <= g <= d + 1
      && (g == d - 1 <==> low < mid)
      && (g == d + 1 <==> high < mid && mid <= low)
      && (g == d <==> mid <= low && mid <= high)
  {
  }

  /**
   * The decision half of the Track arm, on the four measured sums: an energy
   * jump switches to Search and clears `best_corr` but the gradient step still
   * runs, on `initial_delay`, and the clamp still applies around the unchanged
   * `current_delay`; the energy average is updated in every case.
   */
  function TrackUpdate(st: Pitch, initialDelay: nat, mid: real, low: real, high: real, energy: real): Pitch
    requires 1 <= st.delay && initialDelay >= 1
  {
    var reset := energy > EnergyJump * st.energyAverage;
    var base := if reset then initialDelay else st.delay;
    Pitch(
      if reset then Search else st.mode,
      Max(Min(Gradient(base, low, mid, high), Upper(st.currentDelay)), Lower(st.currentDelay)),
      st.currentDelay,
      if reset then 0.0 else st.bestCorr,
      0.5 * (st.energyAverage + energy))
  }

  /**
   * The Track arm of the mode step: the three scores at lags `delay`,
   * `delay - 1` and `delay + 1` and the energy, all over a window of `delay`
   * samples, then the decision.
   */
  function TrackFrom(h: seq<real>, index: nat, initialDelay: nat, st: Pitch): Pitch
    requires Cursor(h, index) && 1 <= st.delay && 2 * st.delay <= HistorySize && initialDelay >= 1
  {
    TrackUpdate(st, initialDelay,
      DiffSumOf(h, index, st.delay, st.delay),
      DiffSumOf(h, index, st.delay - 1, st.delay),
      DiffSumOf(h, index, st.delay + 1, st.delay),
      EnergyOf(h, index, st.delay))
  }

  /** `TrackFrom` is the decision applied to its four measured sums. */
  lemma TrackFromParts(h: seq<real>, index: nat, initialDelay: nat, st: Pitch, mid: real, low: real, high: real, energy: real)
    requires Cursor(h, index) && 1 <= st.delay && 2 * st.delay <= HistorySize && initialDelay >= 1
    requires mid == DiffSumOf(h, index, st.delay, st.delay)
    requires low == DiffSumOf(h, index, st.delay - 1, st.delay)
    requires high == DiffSumOf(h, index, st.delay + 1, st.delay)
    requires energy == EnergyOf(h, index, st.delay)
    ensures TrackFrom(h, index, initialDelay, st) == TrackUpdate(st, initialDelay, mid, low, high, energy)
  {
  }

  // ---------------------------------------------------------------------------
  // The mode step and its invariant

  /** One run of the mode match after a block has been pushed. */
  function Step(h: seq<real>, index: nat, initialDelay: nat, st: Pitch): Pitch
    requires Cursor(h, index) && Inv(st, initialDelay)
  {
    match st.mode
    case Search => SearchFrom(h, index, initialDelay, st)
    case Track => TrackFrom(h, index, initialDelay, st)
  }

  /**
   * The bounds the mode step keeps.  Search always starts a block with
   * `best_corr = 0` and a delay in [initial_delay - 1, 600]; Track keeps the
   * delay in the clamp band around an anchor `current_delay` in
   * [initial_delay - 1, 600].  (An energy reset can restart Search one below
   * `initial_delay`, hence the `- 1`.)
   */
  ghost predicate Inv(st: Pitch, initialDelay: nat)
  {
    && 3 <= initialDelay < MaxDelay
    && initialDelay - 1 <= st.currentDelay <= MaxDelay
    && st.bestCorr >= 0.0 && st.energyAverage >= 0.0
    && (st.mode == Search ==> initialDelay - 1 <= st.delay <= MaxDelay && st.bestCorr == 0.0)
    && (st.mode == Track ==> Lower(st.currentDelay) <= st.delay <= Upper(st.currentDelay))
  }

  /**
   * Under the invariant every ring read stays less than one full turn back:
   * Search reads up to `3 * delay - 1` back, Track up to `2 * delay`, and the
   * `delay - 1` of Track does not underflow.
   */
  lemma InvBoundsLookBack(st: Pitch, initialDelay: nat)
    requires Inv(st, initialDelay)
    ensures st.mode == Search ==> 3 * st.delay - 1 < HistorySize
    ensures st.mode == Track ==> 1 <= st.delay && 2 * st.delay < HistorySize
  {
  }

  /**
   * One Track step, whatever the measured sums: the anchor is unchanged, the
   * delay ends in the clamp band and the energy average is updated in every
   * case; on an energy jump the tracker returns to Search with
   * `best_corr = 0` and a delay in [initial_delay - 1, 600], otherwise it
   * stays in Track, keeps `best_corr` and moves the delay by at most one.
   */
  lemma TrackOutcome(st: Pitch, initialDelay: nat, mid: real, low: real, high: real, energy: real)
    requires Inv(st, initialDelay) && st.mode == Track
    ensures var r := TrackUpdate(st, initialDelay, mid, low, high, energy);
      && r.currentDelay == st.currentDelay
      && Lower(st.currentDelay) <= r.delay <= Upper(st.currentDelay)
      && r.energyAverage == 0.5 * (st.energyAverage + energy)
      && (energy > EnergyJump * st.energyAverage ==>
            r.mode == Search && r.bestCorr == 0.0 && initialDelay - 1 <= r.delay <= MaxDelay)
      && (!(energy > EnergyJump * st.energyAverage) ==>
            && r.mode == Track && r.bestCorr == st.bestCorr
            && st.delay - 1 <= r.delay <= st.delay + 1)
  {
    var reset := energy > EnergyJump * st.energyAverage;
    var base := if reset then initialDelay else st.delay;
    GradientMovesToBetterNeighbour(base, low, mid, high);
    assert st.currentDelay <= Upper(st.currentDelay);
  }

  /** A Track step preserves the invariant, for any non-negative measured energy. */
  lemma TrackKeepsInv(st: Pitch, initialDelay: nat, mid: real, low: real, high: real, energy: real)
    requires Inv(st, initialDelay) && st.mode == Track && energy >= 0.0
    ensures Inv(TrackUpdate(st, initialDelay, mid, low, high, energy), initialDelay)
  {
    TrackOutcome(st, initialDelay, mid, low, high, energy);
    assert 0.5 * (st.energyAverage + energy) >= 0.0;
  }

  /** The mode step preserves the invariant, whichever mode it runs in. */
  lemma StepKeepsInv(h: seq<real>, index: nat, initialDelay: nat, st: Pitch)
    requires Cursor(h, index) && Inv(st, initialDelay)
    ensures Inv(Step(h, index, initialDelay, st), initialDelay)
  {
    match st.mode
    case Search =>
      SearchFromOutcome(h, index, initialDelay, st, st.delay);
      var r := SearchFrom(h, index, initialDelay, st);
      if r.mode == Track {
        assert Lower(r.currentDelay) <= r.delay <= Upper(r.currentDelay);
      }
    case Track =>
      TrackKeepsInv(st, initialDelay,
        DiffSumOf(h, index, st.delay, st.delay),
        DiffSumOf(h, index, st.delay - 1, st.delay),
        DiffSumOf(h, index, st.delay + 1, st.delay),
        EnergyOf(h, index, st.delay));
  }

  /**
   * A Search step that starts a block ends confirmed in Track at the first
   * delay from where it started that qualifies, or, exactly when no delay up
   * to 600 qualifies, back at `initial_delay` with `best_corr = 0`.
   */
  lemma SearchOutcome(h: seq<real>, index: nat, initialDelay: nat, st: Pitch)
    requires Cursor(h, index) && Inv(st, initialDelay) && st.mode == Search
    ensures var r := SearchFrom(h, index, initialDelay, st);
      && r.energyAverage == st.energyAverage
      && (r.mode == Track ==>
            && r.currentDelay == r.delay && st.delay <= r.delay <= MaxDelay
            && r.bestCorr == Acc(h, index, r.delay)
            && Qualifies(h, index, st.delay, r.delay)
            && (forall d :: st.delay <= d < r.delay ==> !Qualifies(h, index, st.delay, d)))
      && (r.mode == Search ==>
            && r.delay == initialDelay && r.bestCorr == 0.0 && r.currentDelay == st.currentDelay
            && (forall d :: st.delay <= d <= MaxDelay ==> !Qualifies(h, index, st.delay, d)))
  {
    SearchFromOutcome(h, index, initialDelay, st, st.delay);
  }

  /**
   * The Search arm of the mode match, on the captured variables: a bounded
   * scan over the delays from the current one up to 600; the ghost `scanned`
   * counts the candidate delays examined.
   */
  method SearchScan(history: array<real>, indexH: nat, initialDelay: nat, st: Pitch) returns (r: Pitch, ghost scanned: nat)
    requires Cursor(history[..], indexH) && st.delay <= MaxDelay
    ensures r == SearchFrom(history[..], indexH, initialDelay, st)
    ensures 1 <= scanned <= MaxDelay + 1 - st.delay
  {
    ghost var h := history[..];
    ghost var target := SearchFrom(h, indexH, initialDelay, st);
    var mode, delay, currentDelay, bestCorr := st.mode, st.delay, st.currentDelay, st.bestCorr;
    scanned := 0;
    while true
      invariant st.delay <= delay <= MaxDelay && scanned == delay - st.delay
      invariant SearchFrom(h, indexH, initialDelay, Pitch(mode, delay, currentDelay, bestCorr, st.energyAverage)) == target
      decreases MaxDelay - delay
    {
      ghost var cur := Pitch(mode, delay, currentDelay, bestCorr, st.energyAverage);
      var acc := Autocorr(delay, indexH, 0, history);
      SearchFromStep(h, indexH, initialDelay, cur, acc);
      scanned := scanned + 1;
      if acc > bestCorr {
        bestCorr := acc;
        var acc2 := Autocorr(delay, indexH, delay, history);
        var error := Autocorrelation.Abs(acc2 - acc);
        assert error < Tolerance * acc <==> Confirms(h, indexH, delay);
        if error < Tolerance * acc {
          currentDelay := delay;
          mode := Track;
          break;
        }
      }
      if delay < MaxDelay {
        delay := delay + 1;
      } else {
        bestCorr := 0.0;
        delay := initialDelay;
        break;
      }
    }
    r := Pitch(mode, delay, currentDelay, bestCorr, st.energyAverage);
  }

  /** The Track arm of the mode match, on the captured variables. */
  method TrackAdjust(history: array<real>, indexH: nat, initialDelay: nat, st: Pitch) returns (r: Pitch)
    requires Cursor(history[..], indexH) && 1 <= st.delay && 2 * st.delay <= HistorySize && initialDelay >= 1
    ensures r == TrackFrom(history[..], indexH, initialDelay, st)
  {
    var mode, delay, currentDelay, bestCorr, energyAverage := st.mode, st.delay, st.currentDelay, st.bestCorr, st.energyAverage;
    var mid := DiffSum(delay, delay, indexH, history);
    var low := DiffSum(delay, delay - 1, indexH, history);
    var high := DiffSum(delay, delay + 1, indexH, history);
    var energy := Energy(delay, delay, indexH, history);
    ghost var target := TrackUpdate(st, initialDelay, mid, low, high, energy);
    TrackFromParts(history[..], indexH, initialDelay, st, mid, low, high, energy);

    if energy > EnergyJump * energyAverage {
      delay := initialDelay;
      bestCorr := 0.0;
      mode := Search;
    }
    energyAverage := 0.5 * (energyAverage + energy);

    if mid < low && mid < high {
      // a strict local minimum: keep the delay
    } else if low < mid {
      delay := delay - 1;
    } else if high < mid {
      delay := delay + 1;
    }

    // clamp within reasonable bounds
    delay := Max(Min(delay, Upper(currentDelay)), Lower(currentDelay));
    r := Pitch(mode, delay, currentDelay, bestCorr, energyAverage);
    assert r == target;
  }

  // ---------------------------------------------------------------------------
  // The tracker state captured by the input callback

  class Tracker {
    /** `(fs as f32 / 400.0) as usize`: 120 at 48 kHz. */
    const initialDelay: nat
    const history: array<real>
    var indexH: nat
    var mode: Mode
    var delay: nat
    var currentDelay: nat
    var bestCorr: real
    var energyAverage: real
    /** Every sample ever pushed, after the 2048 zeros the history starts with. */
    ghost var stream: seq<real>

    ghost function Snapshot(): Pitch
      reads this
    {
      Pitch(mode, delay, currentDelay, bestCorr, energyAverage)
    }

    ghost predicate Valid()
      reads this, history
    {
      && history.Length == HistorySize
      && Ring.Mirrors(history[..], indexH, stream)
      && Inv(Snapshot(), initialDelay)
    }

    constructor (initialDelay: nat)
      requires 3 <= initialDelay < MaxDelay
      ensures Valid() && fresh(history)
      ensures this.initialDelay == initialDelay
      ensures Snapshot() == Pitch(Search, initialDelay, initialDelay, 0.0, 0.0)
      ensures indexH == 0 && history[..] == seq(HistorySize, _ => 0.0)
    {
      this.initialDelay := initialDelay;
      history := new real[HistorySize](_ => 0.0);
      indexH := 0;
      mode := Search;
      delay := initialDelay;
      currentDelay := initialDelay;
      bestCorr := 0.0;
      energyAverage := 0.0;
      stream := seq(HistorySize, _ => 0.0);
    }

    /** Store one sample: advance the cursor, then overwrite the slot it lands on. */
    method Push(s: real)
      requires Valid()
      modifies this, history
      ensures Valid() && Snapshot() == old(Snapshot())
      ensures indexH == Ring.Advance(HistorySize, old(indexH))
      ensures history[..] == old(history[..])[indexH := s]
      ensures stream == old(stream) + [s]
    {
      indexH := (indexH + 1) % HistorySize;
      assert indexH == Ring.Advance(HistorySize, old(indexH));
      history[indexH] := s;
      Ring.PushMirrors(old(history[..]), old(indexH), stream, s);
      stream := stream + [s];
    }

    /** The push loop of the input callback: every sample of the block, in order. */
    method PushBlock(data: seq<real>)
      requires Valid()
      modifies this, history
      ensures Valid() && Snapshot() == old(Snapshot())
      ensures stream == old(stream) + data
      ensures indexH == (old(indexH) + |data|) % HistorySize
    {
      for i := 0 to |data|
        invariant Valid() && Snapshot() == old(Snapshot())
        invariant stream == old(stream) + data[..i]
        invariant indexH == (old(indexH) + i) % HistorySize
      {
        AdvanceMod(old(indexH) + i);
        Push(data[i]);
        assert data[..i + 1] == data[..i] + [data[i]];
      }
      assert data[..|data|] == data;
    }

    /**
     * The input callback: push every sample of the block, then run the mode
     * match once for the whole block.
     */
    method OnInput(data: seq<real>)
      requires Valid()
      modifies this, history
      ensures Valid()
      ensures stream == old(stream) + data
      ensures indexH == (old(indexH) + |data|) % HistorySize
      ensures Snapshot() == Step(history[..], indexH, initialDelay, old(Snapshot()))
    {
      PushBlock(data);
      ghost var h := history[..];
      var st := Pitch(mode, delay, currentDelay, bestCorr, energyAverage);
      StepKeepsInv(h, indexH, initialDelay, st);
      InvBoundsLookBack(st, initialDelay);
      ghost var next := Step(h, indexH, initialDelay, st);
      var r;
      match mode {
        case Search =>
          ghost var scanned;
          r, scanned := SearchScan(history, indexH, initialDelay, st);
        case Track =>
          r := TrackAdjust(history, indexH, initialDelay, st);
      }
      assert r == next;
      mode, delay, currentDelay, bestCorr, energyAverage := r.mode, r.delay, r.currentDelay, r.bestCorr, r.energyAverage;
      assert history[..] == h;
    }
  }
}
