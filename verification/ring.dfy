/**
 * Wrap-around reads behind a write cursor, shared by the two ring-buffer
 * trackers.  A ring of `n` slots whose cursor `index` points at the most
 * recent sample is read `k` positions back at slot `(n + index - k) % n`;
 * the unsigned subtraction only stays non-negative while `k <= n + index`.
 * Here the slot is defined by cases; each tracker proves, for its own
 * constant ring size, that its Rust `(SIZE + index - k) % SIZE` expression picks the
 * same slot.
 */
module Ring {

  /** The slot `k` positions behind `index` in a ring of `n` slots. */
  function Back(n: nat, index: nat, k: nat): (slot: nat)
    requires index < n && k <= n + index
    ensures slot < n
  {
    if k <= index then index - k
    else if k < n + index then n + index - k
    else 0
  }

  /** The cursor advance used by every push: `(index + 1) % n`. */
  function Advance(n: nat, index: nat): (next: nat)
    requires index < n
    ensures next < n
    ensures next == Back(n, index, n - 1)
  {
    if index + 1 == n then 0 else index + 1
  }

  /** Slots are distinct for distinct look-backs of less than a full turn. */
  lemma BackInjective(n: nat, index: nat, j: nat, k: nat)
    requires index < n && j < n && k < n && j != k
    ensures Back(n, index, j) != Back(n, index, k)
  {
  }

  /**
   * The ring `h`, with its cursor at `index`, holds the last `|h|` samples of
   * `stream`: reading `k` back gives the sample pushed `k` steps earlier.
   */
  ghost predicate Mirrors<T>(h: seq<T>, index: nat, stream: seq<T>)
  {
    && index < |h| <= |stream|
    && forall k {:trigger Ago(stream, k)} :: 0 <= k < |h| ==>
         h[Back(|h|, index, k)] == Ago(stream, k)
  }

  /** The sample pushed `k` steps before the latest one. */
  function Ago<T>(stream: seq<T>, k: nat): T
    requires k < |stream|
  {
    stream[|stream| - 1 - k]
  }

  /** Reading `k` back from a mirroring ring gives the `k`-th latest sample. */
  lemma MirrorAt<T>(h: seq<T>, index: nat, stream: seq<T>, k: nat)
    requires Mirrors(h, index, stream) && k < |h|
    ensures h[Back(|h|, index, k)] == stream[|stream| - 1 - k]
  {
    assert h[Back(|h|, index, k)] == Ago(stream, k);
  }

  /**
   * Pushing `s` (advance the cursor, then overwrite the slot it lands on) keeps
   * the ring a mirror of the stream extended by `s`.
   */
  lemma PushMirrors<T>(h: seq<T>, index: nat, stream: seq<T>, s: T)
    requires Mirrors(h, index, stream)
    ensures Mirrors(h[Advance(|h|, index) := s], Advance(|h|, index), stream + [s])
  {
    var n := |h|;
    var next := Advance(n, index);
    var h' := h[next := s];
    var stream' := stream + [s];
    forall k | 0 <= k < n
      ensures h'[Back(n, next, k)] == Ago(stream', k)
    {
      if k == 0 {
        assert Back(n, next, 0) == next;
      } else {
        assert Back(n, next, k) == Back(n, index, k - 1);
        BackInjective(n, index, k - 1, n - 1);
        assert h[Back(n, index, k - 1)] == Ago(stream, k - 1);
      }
    }
  }
}
