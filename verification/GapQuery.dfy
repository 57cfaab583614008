/**
 The gap query of the quality report: number the slots by a running sum of the
 explained ones, group the unexplained slots by that number and take the
 largest group.  This is the longest run of consecutive unexplained slots.
 */
module GapQuery {

  /** `SUM(CASE WHEN unexplained THEN 0 ELSE 1 END)` over the first `n` slots. */
  function RunningSum(unexplained: seq<bool>, n: nat): nat
    requires n <= |unexplained|
  {
    if n == 0 then 0 else RunningSum(unexplained, n - 1) + if unexplained[n - 1] then 0 else 1
  }

  /** `COUNT(*)` of the unexplained slots among the first `n` whose running sum,
      the slot itself included, is `group`. */
  function GroupCount(unexplained: seq<bool>, group: nat, n: nat): nat
    requires n <= |unexplained|
  {
    if n == 0 then 0
    else
      var here := if unexplained[n - 1] && RunningSum(unexplained, n) == group then 1 else 0;
      GroupCount(unexplained, group, n - 1) + here
  }

  function MaximumGroup(unexplained: seq<bool>, groups: nat): nat {
    var here := GroupCount(unexplained, groups, |unexplained|);
    if groups == 0 then here
    else
      var rest := MaximumGroup(unexplained, groups - 1);
      if here >= rest then here else rest
  }

  /** `COALESCE(MAX(gap_seconds), 0)` in slots. */
  function MaximumGap(unexplained: seq<bool>): nat {
    MaximumGroup(unexplained, RunningSum(unexplained, |unexplained|))
  }

  /** The reference: some `n` consecutive slots are all unexplained. */
  predicate HasRun(unexplained: seq<bool>, n: nat) {
    exists lo: nat, hi: nat | lo <= hi <= |unexplained| && hi == lo + n :: AllTrue(unexplained, lo, hi)
  }

  predicate AllTrue(unexplained: seq<bool>, lo: nat, hi: nat)
    requires hi <= |unexplained|
  {
    forall i | lo <= i < hi :: unexplained[i]
  }

  lemma {:induction false} SumMonotone(unexplained: seq<bool>, m: nat, n: nat)
    requires m <= n <= |unexplained|
    ensures RunningSum(unexplained, m) <= RunningSum(unexplained, n)
    ensures AllTrue(unexplained, m, n) ==> RunningSum(unexplained, m) == RunningSum(unexplained, n)
    decreases n
  {
    if m < n { SumMonotone(unexplained, m, n - 1); }
  }

  /** A group is one block of consecutive slots. */
  lemma {:induction false} GroupIsBlock(unexplained: seq<bool>, group: nat, n: nat)
    requires n <= |unexplained|
    ensures var k, sum := GroupCount(unexplained, group, n), RunningSum(unexplained, n);
      && k <= n
      && (sum < group ==> k == 0)
      && (sum == group ==> AllTrue(unexplained, n - k, n))
      && HasRun(unexplained, k)
  {
    if n == 0 {
      assert AllTrue(unexplained, 0, 0);
    } else {
      GroupIsBlock(unexplained, group, n - 1);
      var k := GroupCount(unexplained, group, n);
      if RunningSum(unexplained, n) == group { assert AllTrue(unexplained, n - k, n); }
    }
  }

  lemma {:induction false} GroupCountMonotone(unexplained: seq<bool>, group: nat, m: nat, n: nat)
    requires m <= n <= |unexplained|
    ensures GroupCount(unexplained, group, m) <= GroupCount(unexplained, group, n)
    decreases n
  {
    if m < n { GroupCountMonotone(unexplained, group, m, n - 1); }
  }

  lemma {:induction false} RunIsGrouped(unexplained: seq<bool>, lo: nat, hi: nat)
    requires lo <= hi <= |unexplained| && AllTrue(unexplained, lo, hi)
    ensures GroupCount(unexplained, RunningSum(unexplained, lo), hi) >= hi - lo
    decreases hi
  {
    if lo < hi {
      assert AllTrue(unexplained, lo, hi - 1);
      RunIsGrouped(unexplained, lo, hi - 1);
      SumMonotone(unexplained, lo, hi);
    }
  }

  lemma {:induction false} MaximumIsReached(unexplained: seq<bool>, groups: nat)
    ensures HasRun(unexplained, MaximumGroup(unexplained, groups))
    ensures forall g | 0 <= g <= groups :: GroupCount(unexplained, g, |unexplained|) <= MaximumGroup(unexplained, groups)
  {
    GroupIsBlock(unexplained, groups, |unexplained|);
    if groups > 0 { MaximumIsReached(unexplained, groups - 1); }
  }

  /** The grouping computes exactly the longest unexplained run. */
  lemma {:induction false} GroupingIsLongestRun(unexplained: seq<bool>, n: nat)
    ensures HasRun(unexplained, n) <==> n <= MaximumGap(unexplained)
  {
    var total := RunningSum(unexplained, |unexplained|);
    MaximumIsReached(unexplained, total);
    if n <= MaximumGap(unexplained) {
      var lo: nat, hi: nat :| lo <= hi <= |unexplained| && hi == lo + MaximumGap(unexplained) && AllTrue(unexplained, lo, hi);
      assert AllTrue(unexplained, lo, lo + n);
    }
    if HasRun(unexplained, n) {
      var lo: nat, hi: nat :| lo <= hi <= |unexplained| && hi == lo + n && AllTrue(unexplained, lo, hi);
      RunIsGrouped(unexplained, lo, hi);
      SumMonotone(unexplained, lo, |unexplained|);
      GroupCountMonotone(unexplained, RunningSum(unexplained, lo), hi, |unexplained|);
    }
  }
}
