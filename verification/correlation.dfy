/**
 * The offline gradient descent on squared differences: starting from a
 * guessed delay, step to a neighbouring delay with a strictly smaller score
 * until the current delay is a strict local minimum.  The `panic!()` of the
 * flat case and the panics of unsigned underflow and slice indexing are
 * outcomes of their own.
 */
module Correlation {

  /** `convolution_sum(size, delay, data)` reads `data[i + delay]` up to `i = size - 1`. */
  predicate InBounds(data: seq<real>, size: nat, delay: nat)
  {
    size == 0 || size - 1 + delay < |data|
  }

  /** Sum over `i < size` of `(data[i] - data[i + delay])^2`. */
  function DiffSquareSum(data: seq<real>, size: nat, delay: nat): (r: real)
    requires InBounds(data, size, delay)
    ensures r >= 0.0
  {
    if size == 0 then 0.0
    else
      var d := data[size - 1] - data[size - 1 + delay];
      DiffSquareSum(data, size - 1, delay) + d * d
  }

  /** `convolution_sum`: an accumulator loop over `i in 0..size`. */
  method ConvolutionSum(size: nat, delay: nat, data: seq<real>) returns (diffSquare: real)
    requires InBounds(data, size, delay)
    ensures diffSquare == DiffSquareSum(data, size, delay)
  {
    diffSquare := 0.0;
    for i := 0 to size
      invariant diffSquare == DiffSquareSum(data, i, delay)
    {
      var d := data[i] - data[i + delay];
      diffSquare := diffSquare + d * d;
    }
  }

  /** The window is fixed once, from the starting delay. */
  function Window(start: nat): nat
  {
    start / 4
  }

  /**
   * At `delay` the loop body runs without panicking before its comparisons:
   * `delay - 1` does not underflow and `convolution_sum` at `delay + 1` stays
   * inside the slice.
   */
  predicate Probeable(data: seq<real>, window: nat, delay: nat)
  {
    1 <= delay && (window == 0 || window + delay < |data|)
  }

  /** The delays below `n`, as a finite set. */
  function Below(n: nat): (r: set<nat>)
    ensures forall v: nat :: v in r <==> v < n
  {
    if n == 0 then {} else Below(n - 1) + {n - 1}
  }

  /**
   * The delay one pass of the loop body moves to from a probeable `delay`:
   * down when `low < mid`, even if `high < mid` as well; up only otherwise,
   * when `high < mid`; it stays at a strict minimum and on the flat case.
   */
  function NextDelay(data: seq<real>, window: nat, delay: nat): (next: nat)
    requires Probeable(data, window, delay)
    ensures delay - 1 <= next <= delay + 1
    ensures next != delay ==>
      DiffSquareSum(data, window, next) < DiffSquareSum(data, window, delay)
  {
    var low := DiffSquareSum(data, window, delay - 1);
    var mid := DiffSquareSum(data, window, delay);
    var high := DiffSquareSum(data, window, delay + 1);
    if mid < low && mid < high then delay
    else if low < mid then delay - 1
    else if high < mid then delay + 1
    else delay
  }

  /**
   * `path` is a run of the loop body: each delay but the last is probeable
   * and the body moves from it to `NextDelay`, a different delay with a
   * strictly smaller score.
   */
  ghost predicate Descends(data: seq<real>, window: nat, path: seq<nat>)
  {
    forall j :: 0 <= j < |path| - 1 ==>
      && Probeable(data, window, path[j])
      && path[j + 1] == NextDelay(data, window, path[j]) != path[j]
      && DiffSquareSum(data, window, path[j + 1]) < DiffSquareSum(data, window, path[j])
  }

  /** A move of the loop body extends a run by one delay. */
  lemma DescendsExtend(data: seq<real>, window: nat, path: seq<nat>, next: nat)
    requires |path| >= 1 && Descends(data, window, path)
    requires Probeable(data, window, path[|path| - 1])
    requires next == NextDelay(data, window, path[|path| - 1]) != path[|path| - 1]
    ensures Descends(data, window, path + [next])
  {
    var path' := path + [next];
    forall j | 0 <= j < |path'| - 1
      ensures Probeable(data, window, path'[j])
      ensures path'[j + 1] == NextDelay(data, window, path'[j]) != path'[j]
      ensures DiffSquareSum(data, window, path'[j + 1]) < DiffSquareSum(data, window, path'[j])
    {
      if j < |path| - 1 {
        assert path'[j] == path[j] && path'[j + 1] == path[j + 1];
      }
    }
  }

  /**
   * The state the descent loop keeps: `path` is the run so far, ending at
   * `curr`; `visited` holds the delays left behind, each in the slice and
   * each with a score strictly above the current one, and so does `start`
   * once the loop has moved away from it.
   */
  ghost predicate Trail(data: seq<real>, window: nat, start: nat, visited: set<nat>, path: seq<nat>, curr: nat)
  {
    && (curr != start ==>
          && InBounds(data, window, start) && InBounds(data, window, curr)
          && DiffSquareSum(data, window, curr) < DiffSquareSum(data, window, start))
    && (visited != {} ==> InBounds(data, window, curr))
    && visited <= Below(|data|) && curr !in visited
    && (forall v | v in visited ::
          && v < |data| && InBounds(data, window, v)
          && DiffSquareSum(data, window, curr) < DiffSquareSum(data, window, v))
    && |path| >= 1 && path[0] == start && path[|path| - 1] == curr
    && Descends(data, window, path)
  }

  /**
   * One move of the loop body keeps the trail, and the delay it leaves is a
   * delay of the slice not visited before.
   */
  lemma TrailStep(data: seq<real>, window: nat, start: nat, visited: set<nat>, path: seq<nat>, prev: nat, next: nat)
    requires Trail(data, window, start, visited, path, prev)
    requires Probeable(data, window, prev) && next == NextDelay(data, window, prev) != prev
    ensures Trail(data, window, start, visited + {prev}, path + [next], next)
    ensures prev < |data| && prev !in visited
  {
    DescendsExtend(data, window, path, next);
  }

  datatype Descent =
    | Settled(delay: nat)      // `break`: `mid` is a strict local minimum
    | Flat(delay: nat)         // `panic!()`: no neighbour is strictly better, no strict minimum
    | OutOfBounds(delay: nat)  // `delay - 1` underflows or a slice index is out of range

  /** What holds of the delay the loop stops at, for each way of stopping. */
  ghost predicate Stopped(data: seq<real>, window: nat, o: Descent)
  {
    && (o.Settled? ==>
          && Probeable(data, window, o.delay)
          && DiffSquareSum(data, window, o.delay) < DiffSquareSum(data, window, o.delay - 1)
          && DiffSquareSum(data, window, o.delay) < DiffSquareSum(data, window, o.delay + 1))
    && (o.Flat? ==>
          && Probeable(data, window, o.delay)
          && DiffSquareSum(data, window, o.delay - 1) >= DiffSquareSum(data, window, o.delay)
          && DiffSquareSum(data, window, o.delay + 1) >= DiffSquareSum(data, window, o.delay)
          && (DiffSquareSum(data, window, o.delay - 1) == DiffSquareSum(data, window, o.delay) ||
              DiffSquareSum(data, window, o.delay + 1) == DiffSquareSum(data, window, o.delay)))
    && (o.OutOfBounds? ==> !Probeable(data, window, o.delay))
  }

  /** One pass of the loop body: it either stops the loop or moves the delay. */
  datatype Pass = Stop(outcome: Descent) | Move(next: nat)

  /**
   * The body of the descent loop at `delay`: it stops with an outcome about
   * `delay` exactly when `NextDelay` would not move, and otherwise moves to
   * `NextDelay`.
   */
  method Probe(data: seq<real>, window: nat, delay: nat) returns (p: Pass)
    ensures p.Stop? ==> p.outcome.delay == delay && Stopped(data, window, p.outcome)
    ensures p.Stop? ==> !Probeable(data, window, delay) || NextDelay(data, window, delay) == delay
    ensures p.Move? ==> Probeable(data, window, delay) && p.next == NextDelay(data, window, delay) != delay
  {
    if delay == 0 || (window > 0 && window + delay >= |data|) {
      return Stop(OutOfBounds(delay));
    }
    var low := ConvolutionSum(window, delay - 1, data);
    var mid := ConvolutionSum(window, delay, data);
    var high := ConvolutionSum(window, delay + 1, data);
    if mid < low && mid < high {
      p := Stop(Settled(delay));
    } else if low < mid {
      p := Move(delay - 1);
    } else if high < mid {
      p := Move(delay + 1);
    } else {
      p := Stop(Flat(delay));
    }
  }

  /**
   * The descent loop of `main`.  Every step goes to a neighbour with a
   * strictly smaller score, so no delay is visited twice and the loop ends.
   */
  method Descend(data: seq<real>, start: nat) returns (o: Descent, ghost path: seq<nat>)
    ensures Stopped(data, Window(start), o)
    ensures o.delay != start ==>
      && InBounds(data, Window(start), start) && InBounds(data, Window(start), o.delay)
      && DiffSquareSum(data, Window(start), o.delay) < DiffSquareSum(data, Window(start), start)
    ensures |path| >= 1 && path[0] == start && path[|path| - 1] == o.delay
    ensures Descends(data, Window(start), path)
  {
    var currDelay := start;
    var window := start / 4;
    assert window == Window(start);
    ghost var visited: set<nat> := {};
    path := [start];
    while true
      invariant Trail(data, window, start, visited, path, currDelay)
      decreases Below(|data|) - visited
    {
      var p := Probe(data, window, currDelay);
      if p.Stop? {
        o := p.outcome;
        return;
      }
      TrailStep(data, window, start, visited, path, currDelay, p.next);
      visited := visited + {currDelay};
      path := path + [p.next];
      currDelay := p.next;
    }
  }
}
