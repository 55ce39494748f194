/**
 * The zero-crossing frequency meter of the feedback experiment: every
 * band-passed sample advances a sample counter and a two-state sign machine;
 * at each rising crossing the counted period is turned into a frequency and,
 * unless it exceeds 400 Hz, stored in a 32-slot ring whose mean is the
 * reported average frequency.
 */
module Feedback {

  const BufSize: nat := 32
  /** Frequencies above this are discarded by `update_freq`. */
  const MaxFreq: real := 400.0

  datatype Sign = Neg | Pos

  /** `buf.iter().sum()` as a specification: the sum of a sequence. */
  function Sum(s: seq<real>): real
  {
    if s == [] then 0.0 else Sum(s[..|s| - 1]) + s[|s| - 1]
  }

  /** Values inside `[lo, hi]` sum to within `|s|` times those bounds. */
  lemma {:induction false} SumBounds(s: seq<real>, lo: real, hi: real)
    requires forall k :: 0 <= k < |s| ==> lo <= s[k] <= hi
    ensures |s| as real * lo <= Sum(s) <= |s| as real * hi
  {
    if s != [] {
      SumBounds(s[..|s| - 1], lo, hi);
    }
  }

  /** `buf.iter().sum()`: accumulate the array from the front. */
  method SumOf(a: array<real>) returns (sum: real)
    ensures sum == Sum(a[..])
  {
    sum := 0.0;
    for i := 0 to a.Length
      invariant sum == Sum(a[..i])
    {
      assert a[..i + 1][..i] == a[..i];
      sum := sum + a[i];
    }
    assert a[..a.Length] == a[..];
  }

  /**
   * `1.0 / (sample_count / sample_rate)`, the frequency of a crossing period of
   * `count` samples; a zero count is +inf in f32, which the guard rejects.
   */
  function Freq(sampleRate: nat, count: nat): (f: real)
    requires sampleRate > 0 && count > 0
    ensures f > 0.0 && f * count as real == sampleRate as real
  {
    1.0 / (count as real / sampleRate as real)
  }

  /** `update_freq` returns early for this count. */
  predicate Rejects(sampleRate: nat, count: nat)
    requires sampleRate > 0
  {
    count == 0 || Freq(sampleRate, count) > MaxFreq
  }

  /** A rising crossing: positive sample while the machine is in `Neg`. */
  predicate Rising(sign: Sign, sample: real)
  {
    sample > 0.0 && sign == Neg
  }

  /** The sign machine's transition for one sample. */
  function NextSign(sign: Sign, sample: real): Sign
  {
    if Rising(sign, sample) then Pos
    else if sample < 0.0 && sign == Pos then Neg
    else sign
  }

  /**
   * The machine remembers the sign of the last non-zero sample: a zero never
   * changes it, a positive sample always leaves it `Pos`, a negative one `Neg`.
   */
  lemma SignFollowsLastNonZero(sign: Sign, sample: real)
    ensures NextSign(sign, sample) == if sample > 0.0 then Pos else if sample < 0.0 then Neg else sign
  {
  }

  /** The averaging state that `update_freq` captures. */
  datatype Average = Average(buf: seq<real>, index: nat, freqAverage: real)

  /** The averaging state is well formed and every stored frequency is in [0, 400]. */
  ghost predicate AverageInv(a: Average)
  {
    && |a.buf| == BufSize && a.index < BufSize
    && (forall k :: 0 <= k < BufSize ==> 0.0 <= a.buf[k] <= MaxFreq)
    && a.freqAverage == Sum(a.buf) / BufSize as real
  }

  /** `update_freq(count)` on the averaging state. */
  function Update(a: Average, sampleRate: nat, count: nat): Average
    requires sampleRate > 0 && a.index < |a.buf|
  {
    if Rejects(sampleRate, count) then a
    else
      var buf := a.buf[a.index := Freq(sampleRate, count)];
      Average(buf, (a.index + 1) % BufSize, Sum(buf) / BufSize as real)
  }

  /**
   * `update_freq` keeps the ring well formed; its average stays the mean of
   * the ring and therefore within [0, 400] Hz.
   */
  lemma UpdateKeepsInv(a: Average, sampleRate: nat, count: nat)
    requires sampleRate > 0 && AverageInv(a)
    ensures AverageInv(Update(a, sampleRate, count))
    ensures 0.0 <= Update(a, sampleRate, count).freqAverage <= MaxFreq
    ensures Rejects(sampleRate, count) ==> Update(a, sampleRate, count) == a
    ensures !Rejects(sampleRate, count) ==>
      var r := Update(a, sampleRate, count);
      && r.buf[a.index] == Freq(sampleRate, count)
      && (forall k :: 0 <= k < BufSize && k != a.index ==> r.buf[k] == a.buf[k])
      && r.index == if a.index == BufSize - 1 then 0 else a.index + 1
  {
    var r := Update(a, sampleRate, count);
    SumBounds(r.buf, 0.0, MaxFreq);
  }

  class FreqMeter {
    const sampleRate: nat
    const buf: array<real>
    var index: nat
    var freqAverage: real
    var sampleCount: nat
    var sign: Sign

    ghost function View(): Average
      reads this, buf
    {
      Average(buf[..], index, freqAverage)
    }

    ghost predicate Valid()
      reads this, buf
    {
      sampleRate > 0 && AverageInv(View())
    }

    /** The state before the first sample: `Neg`, count 0, a zeroed ring. */
    constructor (sampleRate: nat)
      requires sampleRate > 0
      ensures Valid() && fresh(buf)
      ensures this.sampleRate == sampleRate
      ensures sign == Neg && sampleCount == 0
      ensures View() == Average(seq(BufSize, _ => 0.0), 0, 0.0)
    {
      this.sampleRate := sampleRate;
      buf := new real[BufSize](_ => 0.0);
      index := 0;
      freqAverage := 0.0;
      sampleCount := 0;
      sign := Neg;
      new;
      ZeroSum(buf[..]);
    }

    /** `update_freq`: store an accepted frequency, advance the slot, recompute the mean. */
    method UpdateFreq(count: nat)
      requires Valid()
      modifies this, buf
      ensures Valid()
      ensures View() == Update(old(View()), sampleRate, count)
      ensures sampleCount == old(sampleCount) && sign == old(sign)
    {
      if count == 0 {
        return;  // 1.0 / 0.0 is +inf in f32, which fails the 400 Hz test
      }
      var freq := 1.0 / (count as real / sampleRate as real);
      if freq > MaxFreq {
        return;
      }
      buf[index] := freq;
      index := (index + 1) % BufSize;
      var sum := SumOf(buf);
      freqAverage := sum / BufSize as real;
      UpdateKeepsInv(old(View()), sampleRate, count);
    }

    /** The per-sample body of the input callback (after the band-pass filters). */
    method OnSample(sample: real)
      requires Valid()
      modifies this, buf
      ensures Valid()
      ensures sign == NextSign(old(sign), sample)
      ensures sampleCount == if Rising(old(sign), sample) then 0 else old(sampleCount) + 1
      ensures View() ==
        if Rising(old(sign), sample) then Update(old(View()), sampleRate, old(sampleCount) + 1)
        else old(View())
    {
      sampleCount := sampleCount + 1;
      if sample > 0.0 && sign == Neg {
        UpdateFreq(sampleCount);
        sampleCount := 0;
        sign := Pos;
      } else if sample < 0.0 && sign == Pos {
        sign := Neg;
      }
    }
  }

  lemma {:induction false} ZeroSum(s: seq<real>)
    requires forall k :: 0 <= k < |s| ==> s[k] == 0.0
    ensures Sum(s) == 0.0
  {
    if s != [] {
      ZeroSum(s[..|s| - 1]);
    }
  }
}
