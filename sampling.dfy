/** Weighted choice of one entry of a category. The source builds a
    `WeightedAliasIndex` over the weights and samples it with the thread RNG.
    Here the random number is an input and the choice is the inverse of the
    cumulative weights: entry `j` owns the residues `Cum(ws, j) ..
    Cum(ws, j + 1) - 1` modulo the total, so it is chosen for exactly `ws[j]`
    of every `Total(ws)` consecutive random numbers. */
module Sampling {

  /** The sum of the first `j` weights. */
  function Cum(ws: seq<nat>, j: nat): nat
    requires j <= |ws|
  {
    if j == 0 then 0 else Cum(ws, j - 1) + ws[j - 1]
  }

  function Total(ws: seq<nat>): nat { Cum(ws, |ws|) }

  /** `WeightedAliasIndex::new` succeeds: at least one weight, and not all zero. */
  predicate Samplable(ws: seq<nat>) { |ws| > 0 && Total(ws) > 0 }

  function LocateFrom(ws: seq<nat>, x: nat, j: nat): (k: nat)
    requires j < |ws| && Cum(ws, j) <= x < Total(ws)
    ensures j <= k < |ws| && Cum(ws, k) <= x < Cum(ws, k) + ws[k]
    decreases |ws| - j
  {
    if x < Cum(ws, j + 1) then j else LocateFrom(ws, x, j + 1)
  }

  /** The index drawn for random number `r`: never one of weight zero. */
  function Sample(ws: seq<nat>, r: nat): (k: nat)
    requires Samplable(ws)
    ensures k < |ws| && ws[k] > 0
    ensures Cum(ws, k) <= r % Total(ws) < Cum(ws, k) + ws[k]
  {
    LocateFrom(ws, r % Total(ws), 0)
  }

  lemma {:induction false} CumMonotone(ws: seq<nat>, i: nat, j: nat)
    requires i <= j <= |ws|
    ensures Cum(ws, i) <= Cum(ws, j)
  {
    if i < j { CumMonotone(ws, i, j - 1); }
  }

  /** Index `k` is drawn exactly for the random numbers whose residue falls in
      `k`'s interval, whose length is `k`'s weight. */
  lemma SampleExactly(ws: seq<nat>, r: nat, k: nat)
    requires Samplable(ws) && k < |ws|
    ensures Sample(ws, r) == k <==> Cum(ws, k) <= r % Total(ws) < Cum(ws, k) + ws[k]
  {
    var s := Sample(ws, r);
    if s < k { CumMonotone(ws, s + 1, k); }
    if k < s { CumMonotone(ws, k + 1, s); }
  }

  /** Kept apart from `SampleReaches`: with the cumulative sums in scope the
      solver does not find this step. */
  lemma ModSmall(x: nat, t: nat)
    requires x < t
    ensures x % t == x
  {
  }

  /** Every index of positive weight can be drawn. */
  lemma SampleReaches(ws: seq<nat>, k: nat)
    requires k < |ws| && ws[k] > 0
    ensures Samplable(ws) && Sample(ws, Cum(ws, k)) == k
  {
    CumMonotone(ws, k + 1, |ws|);
    var x := Cum(ws, k);
    ModSmall(x, Total(ws));
    SampleExactly(ws, x, k);
  }
}
