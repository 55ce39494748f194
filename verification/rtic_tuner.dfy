/**
 * The integer period tracker of the microcontroller tuner: the `process`
 * task stores each 16-bit ADC sample in a 1024-slot ring and, every
 * `period * 5` samples, compares the sums of absolute differences at lags
 * `period + 1`, `period` and `period - 1` to move `period` by one step inside
 * [2, 13].
 */
module RticTuner {
  import Ring

  const BufferSize: nat := 1024
  const MinPeriod: nat := 2
  const MaxPeriod: nat := 13
  /** `*cnt = *period * 5`: re-estimate every five periods. */
  const PeriodsPerEstimate: nat := 5
  /** The largest `|a - b|` of two `i16` values. */
  const MaxAbsDiff: nat := 65535
  const I32Max: int := 0x7fff_ffff

  newtype int16 = x: int | -0x8000 <= x < 0x8000

  /** For the constant ring size, the Rust index expression `(BUFFER_SIZE + ptr - k) % BUFFER_SIZE` picks the ring slot `k` back. */
  lemma SlotIsBack(ptr: nat, k: nat, e: int)
    requires ptr < BufferSize && k <= BufferSize + ptr && e == BufferSize + ptr - k
    ensures e % BufferSize == Ring.Back(BufferSize, ptr, k)
  {
  }

  /** The cursor advance `(ptr + 1) % buffer.len()` of the task. */
  lemma AdvanceIsMod(ptr: nat)
    requires ptr < BufferSize
    ensures (ptr + 1) % BufferSize == Ring.Advance(BufferSize, ptr)
  {
  }

  function Abs(x: int): nat
  {
    if x < 0 then -x else x
  }

  /**
   * Sum over `i < n` of `|x[ptr - i] - x[ptr - i - lag]|`, reading the ring
   * backwards from the cursor.
   */
  function AbsDiffSum(b: seq<int16>, ptr: nat, lag: nat, n: nat): (r: int)
    requires |b| == BufferSize && ptr < BufferSize
    requires n == 0 || n - 1 + lag <= BufferSize + ptr
    ensures r >= 0
  {
    if n == 0 then 0
    else
      AbsDiffSum(b, ptr, lag, n - 1)
      + Abs(b[Ring.Back(BufferSize, ptr, n - 1)] as int - b[Ring.Back(BufferSize, ptr, n - 1 + lag)] as int)
  }

  /** Each term is at most the widest `i16` difference. */
  lemma {:induction false} AbsDiffSumBound(b: seq<int16>, ptr: nat, lag: nat, n: nat)
    requires |b| == BufferSize && ptr < BufferSize
    requires n == 0 || n - 1 + lag <= BufferSize + ptr
    ensures AbsDiffSum(b, ptr, lag, n) <= n * MaxAbsDiff
  {
    if n > 0 {
      AbsDiffSumBound(b, ptr, lag, n - 1);
    }
  }

  /**
   * One iteration of `estimate_error`: with the four samples read through the
   * Rust index expressions of `estimate_error`, each of the three sums gains one term.
   */
  lemma ErrStep(b: seq<int16>, ptr: nat, period: nat, i: nat, curr: int, low: int, mid: int, high: int)
    requires |b| == BufferSize && ptr < BufferSize && i < period && 2 * period <= BufferSize + ptr
    requires curr == b[(BufferSize + ptr - i) % BufferSize] as int
    requires low == b[(BufferSize + ptr - i - period - 1) % BufferSize] as int
    requires mid == b[(BufferSize + ptr - i - period) % BufferSize] as int
    requires high == b[(BufferSize + ptr - i - period + 1) % BufferSize] as int
    ensures AbsDiffSum(b, ptr, period + 1, i + 1) == AbsDiffSum(b, ptr, period + 1, i) + Abs(curr - low)
    ensures AbsDiffSum(b, ptr, period, i + 1) == AbsDiffSum(b, ptr, period, i) + Abs(curr - mid)
    ensures AbsDiffSum(b, ptr, period - 1, i + 1) == AbsDiffSum(b, ptr, period - 1, i) + Abs(curr - high)
  {
    SlotIsBack(ptr, i, BufferSize + ptr - i);
    SlotIsBack(ptr, i + period + 1, BufferSize + ptr - i - period - 1);
    SlotIsBack(ptr, i + period, BufferSize + ptr - i - period);
    SlotIsBack(ptr, i + period - 1, BufferSize + ptr - i - period + 1);
  }

  /** `err_low` is measured at lag `period + 1`. */
  function ErrLow(b: seq<int16>, ptr: nat, period: nat): int
    requires |b| == BufferSize && ptr < BufferSize && 2 * period <= BufferSize + ptr
  {
    AbsDiffSum(b, ptr, period + 1, period)
  }

  /** `err_mid` is measured at lag `period`. */
  function ErrMid(b: seq<int16>, ptr: nat, period: nat): int
    requires |b| == BufferSize && ptr < BufferSize && 2 * period <= BufferSize + ptr
  {
    AbsDiffSum(b, ptr, period, period)
  }

  /** `err_high` is measured at lag `period - 1` (no term at all when `period == 0`). */
  function ErrHigh(b: seq<int16>, ptr: nat, period: nat): int
    requires |b| == BufferSize && ptr < BufferSize && 2 * period <= BufferSize + ptr
  {
    if period == 0 then 0 else AbsDiffSum(b, ptr, period - 1, period)
  }

  /**
   * `estimate_error`: one loop over `i in 0..period` with three accumulators.
   * The requires is exactly what keeps `BUFFER_SIZE + ptr - i - period - 1`
   * from underflowing.
   */
  method EstimateError(period: nat, ptr: nat, buffer: array<int16>) returns (errLow: int, errMid: int, errHigh: int)
    requires buffer.Length == BufferSize && ptr < BufferSize
    requires 2 * period <= BufferSize + ptr
    ensures errLow == ErrLow(buffer[..], ptr, period)
    ensures errMid == ErrMid(buffer[..], ptr, period)
    ensures errHigh == ErrHigh(buffer[..], ptr, period)
  {
    ghost var b := buffer[..];
    errLow, errMid, errHigh := 0, 0, 0;
    for i := 0 to period
      invariant errLow == AbsDiffSum(b, ptr, period + 1, i)
      invariant errMid == AbsDiffSum(b, ptr, period, i)
      invariant errHigh == if period == 0 then 0 else AbsDiffSum(b, ptr, period - 1, i)
    {
      var curr := buffer[(BufferSize + ptr - i) % BufferSize] as int;
      var low := buffer[(BufferSize + ptr - i - period - 1) % BufferSize] as int;
      var mid := buffer[(BufferSize + ptr - i - period) % BufferSize] as int;
      var high := buffer[(BufferSize + ptr - i - period + 1) % BufferSize] as int;
      ErrStep(b, ptr, period, i, curr, low, mid, high);

      errLow := errLow + Abs(curr - low);
      errMid := errMid + Abs(curr - mid);
      errHigh := errHigh + Abs(curr - high);
    }
  }

  /**
   * Each of the three errors is a sum of `period` differences of `i16`
   * values, so for a period of at most 13 it fits in the `i32` the task
   * accumulates in.
   */
  lemma ErrorsFitI32(b: seq<int16>, ptr: nat, period: nat)
    requires |b| == BufferSize && ptr < BufferSize && 2 * period <= BufferSize + ptr
    ensures 0 <= ErrLow(b, ptr, period) <= period * MaxAbsDiff
    ensures 0 <= ErrMid(b, ptr, period) <= period * MaxAbsDiff
    ensures 0 <= ErrHigh(b, ptr, period) <= period * MaxAbsDiff
    ensures period <= MaxPeriod ==>
      ErrLow(b, ptr, period) <= I32Max && ErrMid(b, ptr, period) <= I32Max && ErrHigh(b, ptr, period) <= I32Max
  {
    AbsDiffSumBound(b, ptr, period + 1, period);
    AbsDiffSumBound(b, ptr, period, period);
    if period > 0 {
      AbsDiffSumBound(b, ptr, period - 1, period);
    }
  }

  function Min(a: int, b: int): int
  {
    if a <= b then a else b
  }

  /** `period.clamp(2, 13)`. */
  function Clamp(p: nat): nat
  {
    if p < MinPeriod then MinPeriod else if p > MaxPeriod then MaxPeriod else p
  }

  /**
   * The re-estimation step: when `err_mid` is not the smallest error, take one
   * step (down when `err_low < err_high`, up otherwise), then clamp.
   */
  function Adjust(period: nat, errLow: int, errMid: int, errHigh: int): nat
    requires period >= 1
  {
    var stepped :=
      if errMid > Min(errLow, errHigh) then
        (if errLow < errHigh then period - 1 else period + 1)
      else period;
    Clamp(stepped)
  }

  /**
   * From a period in [2, 13], re-estimation stays in [2, 13], moves by at most
   * one, stays put exactly when `err_mid` is already the smallest (or the step
   * would leave the range), and otherwise moves down exactly when
   * `err_low < err_high`, ties going up.
   */
  lemma AdjustSteps(period: nat, errLow: int, errMid: int, errHigh: int)
    requires MinPeriod <= period <= MaxPeriod
    ensures var p := Adjust(period, errLow, errMid, errHigh);
      && MinPeriod <= p <= MaxPeriod
      && period - 1 <= p <= period + 1
      && (p == period <==>
            (errMid <= errLow && errMid <= errHigh)
            || (errLow < errHigh && period == MinPeriod)
            || (errHigh <= errLow && period == MaxPeriod))
      && (p < period ==> errLow < errMid && errLow < errHigh)
      && (p > period ==> errHigh < errMid && errHigh <= errLow)
  {
  }

  /**
   * The direction of the step relative to the lags: `err_low` is the error at
   * lag `period + 1`, yet it being the smallest makes the period shorter; and
   * the error at lag `period - 1` being the smallest makes it longer.
   */
  lemma AdjustDirectionInLags(b: seq<int16>, ptr: nat, period: nat)
    requires |b| == BufferSize && ptr < BufferSize
    requires MinPeriod < period < MaxPeriod
    ensures var p := Adjust(period, ErrLow(b, ptr, period), ErrMid(b, ptr, period), ErrHigh(b, ptr, period));
      && (AbsDiffSum(b, ptr, period + 1, period) < AbsDiffSum(b, ptr, period, period)
          && AbsDiffSum(b, ptr, period + 1, period) < AbsDiffSum(b, ptr, period - 1, period)
          ==> p == period - 1)
      && (AbsDiffSum(b, ptr, period - 1, period) < AbsDiffSum(b, ptr, period, period)
          && AbsDiffSum(b, ptr, period - 1, period) <= AbsDiffSum(b, ptr, period + 1, period)
          ==> p == period + 1)
  {
  }

  /** The local resources of the `process` task. */
  class Process {
    var cnt: nat
    var period: nat
    var ptr: nat
    const buffer: array<int16>
    /** Every sample ever stored, after the 1024 zeros the buffer starts with. */
    ghost var stream: seq<int16>

    ghost predicate Valid()
      reads this, buffer
    {
      && buffer.Length == BufferSize
      && Ring.Mirrors(buffer[..], ptr, stream)
      && MinPeriod <= period <= MaxPeriod
      && cnt < period * PeriodsPerEstimate
    }

    /** `cnt = 0, period = 3, ptr = 0, buffer = [0; 1024]`. */
    constructor ()
      ensures Valid() && fresh(buffer)
      ensures cnt == 0 && period == 3 && ptr == 0
      ensures buffer[..] == seq(BufferSize, _ => 0 as int16)
    {
      cnt := 0;
      period := 3;
      ptr := 0;
      buffer := new int16[BufferSize](_ => 0 as int16);
      stream := seq(BufferSize, _ => 0 as int16);
    }

    /** Store one sample: advance the cursor, then overwrite the slot it lands on. */
    method Store(sample: int16)
      requires Valid()
      modifies this, buffer
      ensures Valid()
      ensures ptr == Ring.Advance(BufferSize, old(ptr))
      ensures buffer[..] == old(buffer[..])[ptr := sample]
      ensures stream == old(stream) + [sample]
      ensures period == old(period) && cnt == old(cnt)
    {
      AdvanceIsMod(ptr);
      ptr := (ptr + 1) % buffer.Length;
      buffer[ptr] := sample;
      Ring.PushMirrors(old(buffer[..]), old(ptr), stream, sample);
      stream := stream + [sample];
    }

    /**
     * One run of the task: store the sample, then either count down or, when
     * the counter is 0, re-estimate the period and restart the counter.
     */
    method Run(sample: int16)
      requires Valid()
      modifies this, buffer
      ensures Valid()
      ensures ptr == Ring.Advance(BufferSize, old(ptr))
      ensures buffer[..] == old(buffer[..])[ptr := sample]
      ensures stream == old(stream) + [sample]
      ensures old(cnt) == 0 ==>
        && period == Adjust(old(period), ErrLow(buffer[..], ptr, old(period)),
                            ErrMid(buffer[..], ptr, old(period)), ErrHigh(buffer[..], ptr, old(period)))
        && cnt == period * PeriodsPerEstimate - 1
      ensures old(cnt) != 0 ==> period == old(period) && cnt == old(cnt) - 1
    {
      Store(sample);
      ghost var b := buffer[..];
      if cnt == 0 {
        var errLow, errMid, errHigh := EstimateError(period, ptr, buffer);
        ghost var next := Adjust(period, errLow, errMid, errHigh);
        if errMid > Min(errLow, errHigh) {
          if errLow < errHigh {
            period := period - 1;
          } else {
            period := period + 1;
          }
        }
        period := Clamp(period);
        assert period == next;
        cnt := period * PeriodsPerEstimate;
      }
      cnt := cnt - 1;
      assert buffer[..] == b;
    }
  }

  /** The counter never underflows and stays below 65. */
  lemma CounterBound(period: nat, cnt: nat)
    requires MinPeriod <= period <= MaxPeriod && cnt < period * PeriodsPerEstimate
    ensures cnt < MaxPeriod * PeriodsPerEstimate
  {
  }
}
