/** The Fisher–Yates shuffle of Game.js, which permutes an array in place.

    For i from the last index down to 1 it draws j with
    `Math.floor(Math.random() * (i + 1))` and swaps elements i and j. The swaps
    it performs are given by `SwapPlan`, their effect by `ApplySwaps`. */
module Shuffler {
  import opened Random

  /** `s` with the elements at i and j exchanged (nothing changes when i == j). */
  function Swap<T>(s: seq<T>, i: nat, j: nat): (r: seq<T>)
    requires i < |s| && j < |s|
    ensures |r| == |s|
    ensures multiset(r) == multiset(s)
  {
    s[i := s[j]][j := s[i]]
  }

  /** Every pair of a plan names two positions of a list of length `len`. */
  ghost predicate InRange(plan: seq<(nat, nat)>, len: nat)
  {
    forall k :: 0 <= k < |plan| ==> plan[k].0 < len && plan[k].1 < len
  }

  /** The swaps the loop performs on a list of length n, given the draws it
      consumes in order: step k swaps position n - 1 - k with a position at or
      below it, chosen by draw k. */
  function SwapPlan(n: nat, draws: seq<Draw>): (plan: seq<(nat, nat)>)
    requires |draws| >= n - 1
    ensures |plan| == if n == 0 then 0 else n - 1
    ensures forall k :: 0 <= k < |plan| ==>
              plan[k].0 == n - 1 - k && plan[k].1 <= plan[k].0 &&
              plan[k].1 == RandomIndex(draws[k], n - k)
  {
    if n <= 1 then []
    else [(n - 1, RandomIndex(draws[0], n))] + SwapPlan(n - 1, draws[1..])
  }

  /** The plan only names positions of the list. */
  lemma SwapPlanInRange(n: nat, draws: seq<Draw>)
    requires |draws| >= n - 1
    ensures InRange(SwapPlan(n, draws), n)
  {
  }

  /** The first `count` swaps of `plan` applied to `s` one after the other. */
  function ApplySwaps<T>(s: seq<T>, plan: seq<(nat, nat)>, count: nat): (r: seq<T>)
    requires InRange(plan, |s|) && count <= |plan|
    ensures |r| == |s|
    ensures multiset(r) == multiset(s)
    decreases count
  {
    if count == 0 then s
    else
      var step := plan[count - 1];
      Swap(ApplySwaps(s, plan, count - 1), step.0, step.1)
  }

  /** The list that shuffling `s` with the given draws produces: every swap of
      its plan applied. */
  function Shuffled<T>(s: seq<T>, draws: seq<Draw>): seq<T>
    requires |draws| >= |s| - 1
  {
    SwapPlanInRange(|s|, draws);
    var plan := SwapPlan(|s|, draws);
    ApplySwaps(s, plan, |plan|)
  }

  /** A shuffled list is a permutation of the original: same length, same
      elements with the same multiplicities. */
  lemma ShuffledIsPermutation<T>(s: seq<T>, draws: seq<Draw>)
    requires |draws| >= |s| - 1
    ensures |Shuffled(s, draws)| == |s|
    ensures multiset(Shuffled(s, draws)) == multiset(s)
    ensures forall x :: x in Shuffled(s, draws) <==> x in s
  {
    var r := Shuffled(s, draws);
    forall x ensures x in r <==> x in s {
      assert x in r <==> x in multiset(r);
      assert x in s <==> x in multiset(s);
    }
  }

  /** The destructuring swap `[a[i], a[j]] = [a[j], a[i]]`. */
  method SwapInPlace<T>(a: array<T>, i: nat, j: nat)
    requires i < a.Length && j < a.Length
    modifies a
    ensures a[..] == Swap(old(a[..]), i, j)
  {
    a[i], a[j] := a[j], a[i];
  }

  /** Shuffles `a` in place, consuming one draw per step (one fewer draw than
      elements), and returns that same array. */
  method Shuffle<T>(a: array<T>, draws: seq<Draw>) returns (r: array<T>)
    requires |draws| >= a.Length - 1
    modifies a
    ensures r == a
    ensures a[..] == Shuffled(old(a[..]), draws)
  {
    ghost var plan := SwapPlan(a.Length, draws);
    SwapPlanInRange(a.Length, draws);
    ghost var original := a[..];
    var i: int := a.Length - 1;
    while i > 0
      invariant -1 <= i < a.Length && (i == -1 ==> a.Length == 0)
      invariant a[..] == ApplySwaps(original, plan, a.Length - 1 - i)
    {
      var j := RandomIndex(draws[a.Length - 1 - i], i + 1);
      assert plan[a.Length - 1 - i] == (i, j);
      SwapInPlace(a, i, j);
      i := i - 1;
    }
    assert a.Length - 1 - i == |plan|;
    r := a;
  }
}
