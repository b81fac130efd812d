/** How much the operations on a spanning forest of `n` transactions can cost, in the units of the cost model. */
module CostBounds {

  /** Pick a dependency between two chunks and activate it. */
  function PairCost(n: nat): nat { 15 * n + 6 }

  /** Look for the best chunk to merge with, and merge. */
  function MergeCost(n: nat): nat { 8 * n + PairCost(n) }

  function Merges(k: nat, n: nat): nat { k * MergeCost(n) }

  function SplitCost(n: nat): nat { 11 * n + 8 }

  /** Split a chunk and merge both parts as long as possible: every merge leaves one chunk less. */
  function ImproveCost(n: nat): nat { SplitCost(n) + Merges(n + 2, n) }

  function OptimizeCost(n: nat): nat { n + 4 + 8 * n + 9 + ImproveCost(n) }

  function MinimizeCost(n: nat): nat { 11 * n + 11 + SplitCost(n) + PairCost(n) + 24 }

  /** Load a list of `m` transactions. */
  function LoadCost(n: nat, m: nat): nat { Merges(m + n, n) }

  function TopologicalCost(n: nat): nat { 104 * n + Merges(6 * n, n) }

  /** How far the last step can go beyond the budget, with the preparation before the first. */
  function StepCost(n: nat): nat {
    if 13 * n + OptimizeCost(n) < 18 * n + MinimizeCost(n) then 18 * n + MinimizeCost(n) else 13 * n + OptimizeCost(n)
  }

  /** What a sequence of merges costs that leaves `b` of `a` chunks, with the search that ends it. */
  predicate SpentMerging(before: int, after: int, a: int, b: int, n: nat) {
    b <= a && before <= after <= before + Merges(a - b + 1, n)
  }

  /** The same without the search. */
  predicate SpentSoFar(before: int, after: int, a: int, b: int, n: nat) {
    b <= a && before <= after <= before + Merges(a - b, n)
  }

  lemma {:induction false} SpentNothing(before: int, a: int, n: nat)
    ensures SpentSoFar(before, before, a, a, n)
  {}

  lemma {:induction false} SpentNext(before: int, spent: int, now: int, a: int, b: int, n: nat)
    requires SpentSoFar(before, spent, a, b, n) && spent <= now <= spent + MergeCost(n)
    ensures SpentMerging(before, now, a, b, n) && SpentSoFar(before, now, a, b - 1, n)
  {
    hide Merges, MergeCost;
    MergesAdd(a - b, 1, n);
  }

  lemma {:induction false} MergesAdd(j: nat, k: nat, n: nat)
    ensures Merges(j + k, n) == Merges(j, n) + Merges(k, n) && Merges(1, n) == MergeCost(n) && Merges(0, n) == 0
  {
    hide MergeCost;
    assert (j + k) * MergeCost(n) == j * MergeCost(n) + k * MergeCost(n);
  }

  lemma {:induction false} MergesGrow(j: nat, k: nat, n: nat)
    requires j <= k
    ensures Merges(j, n) <= Merges(k, n)
  {
    MergesAdd(j, k - j, n);
  }

  lemma {:induction false} PairIsMerge(n: nat)
    ensures SplitCost(n) + PairCost(n) <= ImproveCost(n)
  {
    hide Merges;
    MergesAdd(1, n + 1, n);
  }

  /** Two sequences of merges, which leave first `b` of `a` chunks and then `c`. */
  lemma {:induction false} TwoSequences(n: nat, a: nat, b: nat, c: nat, k1: nat, k2: nat, k3: nat)
    requires a <= n && SpentMerging(k1, k2, a, b, n) && SpentMerging(k2, k3, b, c, n)
    ensures k1 <= k3 <= k1 + Merges(n + 2, n)
  {
    hide Merges;
    MergesAdd(a - b + 1, b - c + 1, n);
    MergesGrow(a - c + 2, n + 2, n);
  }

  lemma {:induction false} SubsetSize<T>(a: set<T>, b: set<T>)
    requires a <= b
    ensures |a| <= |b|
  {
    assert b == a + (b - a);
  }

  /** Numbers below `n` are at most `n`. */
  lemma {:induction false} RangeSize(a: set<nat>, n: nat)
    requires forall x <- a :: x < n
    ensures |a| <= n
    decreases n
  {
    if n > 0 {
      RangeSize(a - {n - 1}, n - 1);
      SubsetSize(a, (a - {n - 1}) + {n - 1});
    } else {
      assert a == {};
    }
  }
}
