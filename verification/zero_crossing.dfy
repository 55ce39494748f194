/**
 * The zero-crossing counter `process` (identical in the two offline
 * experiments): it counts the rising crossings of a filtered sample sequence,
 * remembering only the previous sample.
 */
module ZeroCrossing {

  /** Position `i` is a rising crossing: the sample before it is negative and it is positive. */
  predicate RisesAt(s: seq<real>, i: nat)
    requires 1 <= i < |s|
  {
    s[i - 1] < 0.0 && 0.0 < s[i]
  }

  /** Number of rising crossings of `s`, counted over its prefixes. */
  function Crossings(s: seq<real>): (count: nat)
    ensures count <= |s|
  {
    if |s| < 2 then 0
    else Crossings(s[..|s| - 1]) + (if RisesAt(s, |s| - 1) then 1 else 0)
  }

  /** The positions that `Crossings` counts, as a set. */
  function RisingPositions(s: seq<real>): set<nat>
  {
    set i: nat | 1 <= i < |s| && RisesAt(s, i)
  }

  /**
   * `process`: loop over the samples with `prev` starting at 0.0; a sample
   * counts when it is positive and the one before it was negative.
   */
  method Process(s: seq<real>) returns (nrZero: nat)
    ensures nrZero == Crossings(s)
  {
    var prev := 0.0;
    nrZero := 0;
    for i := 0 to |s|
      invariant prev == if i == 0 then 0.0 else s[i - 1]
      invariant nrZero == Crossings(s[..i])
    {
      var y := s[i];
      if y > 0.0 && prev < 0.0 {
        nrZero := nrZero + 1;
      }
      assert s[..i + 1][..i] == s[..i];
      prev := y;
    }
    assert s[..|s|] == s;
  }

  /** The count is exactly the number of rising positions. */
  lemma {:induction false} CrossingsCountsRisingPositions(s: seq<real>)
    ensures Crossings(s) == |RisingPositions(s)|
  {
    if |s| < 2 {
      assert RisingPositions(s) == {};
    } else {
      var p := s[..|s| - 1];
      CrossingsCountsRisingPositions(p);
      var last := |s| - 1;
      assert forall i: nat :: 1 <= i < |p| ==> (RisesAt(p, i) <==> RisesAt(s, i));
      if RisesAt(s, last) {
        assert RisingPositions(s) == RisingPositions(p) + {last};
      } else {
        assert RisingPositions(s) == RisingPositions(p);
      }
    }
  }

  /** The first sample is never counted, so the empty and one-sample inputs give 0. */
  lemma FirstSampleNeverCounted(s: seq<real>)
    ensures 0 !in RisingPositions(s)
    ensures |s| <= 1 ==> Crossings(s) == 0
  {
  }

  /**
   * Crossings are at least two samples apart, so at most every second
   * position counts.
   */
  lemma {:induction false} CrossingsBound(s: seq<real>)
    ensures Crossings(s) <= |s| / 2
  {
    if |s| >= 2 {
      var p := s[..|s| - 1];
      CrossingsBound(p);
      if RisesAt(s, |s| - 1) && |s| >= 3 {
        var q := s[..|s| - 2];
        CrossingsBound(q);
        assert p[..|p| - 1] == q;
        assert !RisesAt(p, |p| - 1);
      }
    }
  }

  /** A zero between a negative and a positive sample breaks the crossing. */
  lemma ZeroBreaksCrossing(a: real, b: real)
    requires a < 0.0 && 0.0 < b
    ensures Crossings([a, 0.0, b]) == 0
    ensures Crossings([a, b]) == 1
  {
    assert [a, 0.0][..1] == [a];
    assert Crossings([a, 0.0]) == 0;
    assert [a, 0.0, b][..2] == [a, 0.0];
    assert [a, b][..1] == [a];
  }

  /** Only negative-to-positive transitions count. */
  lemma FallingNotCounted(a: real, b: real)
    requires 0.0 < a && b < 0.0
    ensures Crossings([a, b]) == 0
  {
    assert [a, b][..1] == [a];
  }
}
