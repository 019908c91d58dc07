/**
 * `Array.shuffled()`, the Fisher–Yates shuffle the preview data uses. The
 * random choice `Int.random(in: 0...i)` of step `i` is `picks[i]`, supplied
 * by the caller.
 */
module Shuffle {

  /** Every step's choice lies in `0...i`; `picks[0]` is never used. */
  predicate ValidPicks(n: nat, picks: seq<int>) {
    |picks| == n && forall i :: 1 <= i < n ==> 0 <= picks[i] <= i
  }

  /** `swapAt(i, j)`. */
  function Swap<T>(a: seq<T>, i: nat, j: nat): (r: seq<T>)
    requires i < |a| && j < |a|
    ensures |r| == |a| && r[i] == a[j] && r[j] == a[i]
    ensures forall k :: 0 <= k < |a| && k != i && k != j ==> r[k] == a[k]
  {
    a[i := a[j]][j := a[i]]
  }

  lemma SwapPermutes<T>(a: seq<T>, i: nat, j: nat)
    requires i < |a| && j < |a|
    ensures multiset(Swap(a, i, j)) == multiset(a)
  {
  }

  /** One loop step: swap position `i` with the chosen one unless they are the same. */
  function StepAt<T>(a: seq<T>, picks: seq<int>, i: nat): (r: seq<T>)
    requires i < |a| && ValidPicks(|a|, picks) && i >= 1
    ensures |r| == |a|
  {
    var j := picks[i];
    if i != j then Swap(a, i, j) else a
  }

  /** Steps `i`, `i - 1`, ..., `1`. */
  function ShuffleDown<T>(a: seq<T>, picks: seq<int>, i: nat): (r: seq<T>)
    requires i < |a| && ValidPicks(|a|, picks)
    ensures |r| == |a|
    decreases i
  {
    if i == 0 then a else ShuffleDown(StepAt(a, picks, i), picks, i - 1)
  }

  /** `shuffled()`: the steps run from the last index down to 1. */
  function Shuffled<T>(a: seq<T>, picks: seq<int>): (r: seq<T>)
    requires ValidPicks(|a|, picks)
    ensures |r| == |a|
  {
    if |a| <= 1 then a else ShuffleDown(a, picks, |a| - 1)
  }

  /** The steps from `i` down never touch a position above `i`. */
  lemma {:induction false} ShuffleDownKeepsAbove<T>(a: seq<T>, picks: seq<int>, i: nat)
    requires i < |a| && ValidPicks(|a|, picks)
    ensures forall k :: i < k < |a| ==> ShuffleDown(a, picks, i)[k] == a[k]
    decreases i
  {
    if i > 0 {
      ShuffleDownKeepsAbove(StepAt(a, picks, i), picks, i - 1);
    }
  }

  /** Every step only rearranges: the result is a permutation of the input. */
  lemma {:induction false} ShuffleDownPermutes<T>(a: seq<T>, picks: seq<int>, i: nat)
    requires i < |a| && ValidPicks(|a|, picks)
    ensures multiset(ShuffleDown(a, picks, i)) == multiset(a)
    decreases i
  {
    if i > 0 {
      if picks[i] != i {
        SwapPermutes(a, i, picks[i]);
      }
      ShuffleDownPermutes(StepAt(a, picks, i), picks, i - 1);
    }
  }

  /** The shuffle returns a permutation of its input, and leaves arrays of length 0 or 1 as they are. */
  lemma ShuffledPermutes<T>(a: seq<T>, picks: seq<int>)
    requires ValidPicks(|a|, picks)
    ensures multiset(Shuffled(a, picks)) == multiset(a)
    ensures |a| <= 1 ==> Shuffled(a, picks) == a
  {
    if |a| > 1 {
      ShuffleDownPermutes(a, picks, |a| - 1);
    }
  }

  /** Skipping the swap when `j == i` changes nothing: swapping a position with itself is the identity. */
  lemma SwapSelf<T>(a: seq<T>, i: nat)
    requires i < |a|
    ensures Swap(a, i, i) == a
  {
  }

  /** When every step picks its own index, nothing moves. */
  lemma {:induction false} ShuffleDownIdentity<T>(a: seq<T>, picks: seq<int>, i: nat)
    requires i < |a| && ValidPicks(|a|, picks)
    requires forall k :: 1 <= k <= i ==> picks[k] == k
    ensures ShuffleDown(a, picks, i) == a
    decreases i
  {
    if i > 0 {
      ShuffleDownIdentity(a, picks, i - 1);
    }
  }

  /**
   * The loop of `shuffled()`, on a copy of the input. Once step `i` is done,
   * positions `i` and above hold their final values.
   */
  method ShuffleInPlace<T>(xs: seq<T>, picks: seq<int>) returns (r: seq<T>)
    requires ValidPicks(|xs|, picks)
    ensures r == Shuffled(xs, picks)
    ensures multiset(r) == multiset(xs)
  {
    ShuffledPermutes(xs, picks);
    r := xs;
    if |xs| <= 1 {
      return;
    }
    var i := |xs| - 1;
    while i >= 1
      invariant 0 <= i < |xs| && |r| == |xs|
      invariant ShuffleDown(r, picks, i) == Shuffled(xs, picks)
      invariant forall k :: i < k < |xs| ==> r[k] == Shuffled(xs, picks)[k]
      decreases i
    {
      var j := picks[i];
      if i != j {
        r := r[i := r[j]][j := r[i]];
      }
      i := i - 1;
      ShuffleDownKeepsAbove(r, picks, i);
    }
  }
}
