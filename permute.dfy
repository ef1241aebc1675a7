/**
 * The index array of the reordering loop (validator/validator.go lines 80-90) and the swaps
 * that rearrange it.  The loop draws its swaps from Heap's algorithm in the external
 * `permute` package; the model takes the swap sequence as an input and only requires every
 * swap to stay inside the array.
 */
module Permute {
  /** One step of the permutation generator: exchange the entries at `i` and `j`. */
  datatype Swap = Swap(i: nat, j: nat)

  predicate ValidSwaps(swaps: seq<Swap>, n: nat)
  {
    forall k :: 0 <= k < |swaps| ==> swaps[k].i < n && swaps[k].j < n
  }

  /** `lo, lo+1, ..., hi-1`: how `intermediateIdx` starts out. */
  function Range(lo: nat, hi: nat): (r: seq<nat>)
    requires lo <= hi
    ensures |r| == hi - lo
    ensures forall k :: 0 <= k < |r| ==> r[k] == lo + k
  {
    seq(hi - lo, k requires 0 <= k < hi - lo => lo + k)
  }

  /** `permute.SwapInts`. */
  function SwapAt(xs: seq<nat>, s: Swap): (r: seq<nat>)
    requires s.i < |xs| && s.j < |xs|
    ensures |r| == |xs|
    ensures r[s.i] == xs[s.j] && r[s.j] == xs[s.i]
    ensures forall k :: 0 <= k < |xs| && k != s.i && k != s.j ==> r[k] == xs[k]
  {
    xs[s.i := xs[s.j]][s.j := xs[s.i]]
  }

  /** One generator step on an index array; a swap outside it leaves it as it is. */
  function Step(xs: seq<nat>, s: Swap): (r: seq<nat>)
    ensures |r| == |xs|
  {
    if s.i < |xs| && s.j < |xs| then SwapAt(xs, s) else xs
  }

  /** The index array after the first `n` swaps, applied in order. */
  function ApplySwaps(xs: seq<nat>, swaps: seq<Swap>, n: nat): (r: seq<nat>)
    requires n <= |swaps|
    ensures |r| == |xs|
  {
    if n == 0 then xs else Step(ApplySwaps(xs, swaps, n - 1), swaps[n - 1])
  }

  /** A swap only exchanges two entries: the multiset of indices is unchanged. */
  lemma SwapAtPermutes(xs: seq<nat>, s: Swap)
    requires s.i < |xs| && s.j < |xs|
    ensures multiset(SwapAt(xs, s)) == multiset(xs)
  {
  }

  lemma StepPermutes(xs: seq<nat>, s: Swap)
    ensures multiset(Step(xs, s)) == multiset(xs)
  {
    if s.i < |xs| && s.j < |xs| {
      SwapAtPermutes(xs, s);
    }
  }

  predicate InRange(order: seq<nat>, n: nat)
  {
    forall k :: 0 <= k < |order| ==> order[k] < n
  }

  /** The initial index array holds the indices `1..n-1` of the intermediates. */
  lemma RangeInRange(lo: nat, hi: nat)
    requires lo <= hi
    ensures InRange(Range(lo, hi), hi)
  {
  }

  /** A swap moves indices around without bringing in new ones. */
  lemma StepInRange(xs: seq<nat>, s: Swap, n: nat)
    requires InRange(xs, n)
    ensures InRange(Step(xs, s), n)
  {
  }

  /** However many swaps are applied, every index stays below the bound it started under. */
  lemma {:induction false} ApplySwapsInRange(xs: seq<nat>, swaps: seq<Swap>, k: nat, n: nat)
    requires k <= |swaps| && InRange(xs, n)
    ensures InRange(ApplySwaps(xs, swaps, k), n)
  {
    if k > 0 {
      ApplySwapsInRange(xs, swaps, k - 1, n);
      StepInRange(ApplySwaps(xs, swaps, k - 1), swaps[k - 1], n);
    }
  }
}
