/**
 The bounded point-in-time buffers for depth snapshots and chart history: what
 `Before` returns from the retained items is what it would return from every
 item ever added, whenever it returns one.

 `List.Sort` is not stable, so sorting is only known to give some sorted
 permutation.
 */
module SnapshotBuffer {
  import opened Wrappers

  datatype Snapshot = Snapshot(ingestedAt: int, content: nat)

  const MAXIMUM_SNAPSHOTS_PER_MARKET: nat := 4096
  const MAXIMUM_HISTORY_SNAPSHOTS: nat := 8

  ghost predicate IsSorted(items: seq<Snapshot>) {
    forall i, j | 0 <= i < j < |items| :: items[i].ingestedAt <= items[j].ingestedAt
  }

  /** Added, but no longer retained. */
  ghost predicate Evicted(added: seq<Snapshot>, items: seq<Snapshot>, x: Snapshot) {
    multiset(added)[x] > multiset(items)[x]
  }

  /** The newest items are retained: nothing evicted is newer than anything kept. */
  ghost predicate Newest(added: seq<Snapshot>, items: seq<Snapshot>, capacity: nat) {
    && IsSorted(items) && multiset(items) <= multiset(added)
    && |items| == (if |added| <= capacity then |added| else capacity)
    && forall x | Evicted(added, items, x) :: items != [] && x.ingestedAt <= items[0].ingestedAt
  }

  method Insert(sorted: seq<Snapshot>, x: Snapshot) returns (r: seq<Snapshot>)
    requires IsSorted(sorted)
    ensures IsSorted(r) && multiset(r) == multiset(sorted) + multiset{x}
  {
    var k := |sorted|;
    while k > 0 && sorted[k - 1].ingestedAt > x.ingestedAt
      invariant 0 <= k <= |sorted|
      invariant forall i | k <= i < |sorted| :: sorted[i].ingestedAt > x.ingestedAt
    {
      k := k - 1;
    }
    InsertedIsSorted(sorted, x, k);
    InsertedCounts(sorted, x, k);
    r := sorted[..k] + [x] + sorted[k..];
  }

  lemma {:induction false} InsertedIsSorted(sorted: seq<Snapshot>, x: Snapshot, k: nat)
    requires IsSorted(sorted) && k <= |sorted|
    requires k > 0 ==> sorted[k - 1].ingestedAt <= x.ingestedAt
    requires k < |sorted| ==> x.ingestedAt <= sorted[k].ingestedAt
    ensures IsSorted(sorted[..k] + [x] + sorted[k..])
  {
  }

  lemma {:induction false} InsertedCounts(sorted: seq<Snapshot>, x: Snapshot, k: nat)
    requires k <= |sorted|
    ensures multiset(sorted[..k] + [x] + sorted[k..]) == multiset(sorted) + multiset{x}
  {
    assert sorted == sorted[..k] + sorted[k..];
  }

  method SortByIngestion(items: seq<Snapshot>) returns (sorted: seq<Snapshot>)
    ensures IsSorted(sorted) && multiset(sorted) == multiset(items)
  {
    sorted := [];
    for n := 0 to |items|
      invariant IsSorted(sorted) && multiset(sorted) == multiset(items[..n])
    {
      assert items[..n + 1] == items[..n] + [items[n]];
      sorted := Insert(sorted, items[n]);
    }
    assert items[..|items|] == items;
  }

  lemma {:induction false} HeadAndRest(items: seq<Snapshot>)
    requires items != []
    ensures multiset(items) == multiset{items[0]} + multiset(items[1..])
  {
    assert items == [items[0]] + items[1..];
  }

  lemma {:induction false} CancelOne(a: multiset<Snapshot>, b: multiset<Snapshot>, x: Snapshot)
    requires multiset{x} + a == b + multiset{x}
    ensures a == b
  {
    forall y ensures a[y] == b[y] { assert (multiset{x} + a)[y] == (b + multiset{x})[y]; }
  }

  /** After an addition, at most the added item is older than the old oldest. */
  lemma {:induction false} SecondIsNotOlder(items: seq<Snapshot>, x: Snapshot, sorted: seq<Snapshot>)
    requires items != [] && IsSorted(items) && IsSorted(sorted) && multiset(sorted) == multiset(items) + multiset{x}
    requires |sorted| >= 2
    ensures sorted[1].ingestedAt >= items[0].ingestedAt
  {
    HeadAndRest(sorted);
    if sorted[0] == x {
      CancelOne(multiset(sorted[1..]), multiset(items), x);
      assert sorted[1..][0] in multiset(sorted[1..]);
      assert sorted[1] in items;
    } else {
      assert sorted[0] in multiset(sorted);
      assert sorted[0] in items;
    }
  }

  /** Below capacity nothing was ever evicted. */
  lemma {:induction false} AllRetained(added: seq<Snapshot>, items: seq<Snapshot>, capacity: nat)
    requires Newest(added, items, capacity) && |added| <= capacity
    ensures multiset(items) == multiset(added)
  {
    assert |multiset(items)| == |multiset(added)|;
    assert multiset(added) == multiset(items) + (multiset(added) - multiset(items));
    assert |multiset(added) - multiset(items)| == 0;
  }

  lemma {:induction false} KeepAll(
    added: seq<Snapshot>, items: seq<Snapshot>, x: Snapshot, sorted: seq<Snapshot>, capacity: nat)
    requires Newest(added, items, capacity) && |added| < capacity
    requires IsSorted(sorted) && multiset(sorted) == multiset(items) + multiset{x} && |sorted| == |items| + 1
    ensures Newest(added + [x], sorted, capacity)
  {
    AllRetained(added, items, capacity);
    assert multiset(added + [x]) == multiset(added) + multiset{x};
  }

  lemma {:induction false} DropOldest(
    added: seq<Snapshot>, items: seq<Snapshot>, x: Snapshot, sorted: seq<Snapshot>, capacity: nat)
    requires Newest(added, items, capacity) && 0 < capacity <= |added|
    requires IsSorted(sorted) && multiset(sorted) == multiset(items) + multiset{x} && |sorted| == |items| + 1
    ensures Newest(added + [x], sorted[1..], capacity)
  {
    var kept := sorted[1..];
    HeadAndRest(sorted);
    SecondIsNotOlder(items, x, sorted);
    assert multiset(added + [x]) == multiset(added) + multiset{x};
    assert multiset(kept) <= multiset(sorted) <= multiset(added) + multiset{x};
    forall y | Evicted(added + [x], kept, y) ensures y.ingestedAt <= kept[0].ingestedAt {
      if y != sorted[0] {
        assert multiset(sorted)[y] == multiset(kept)[y];
        assert multiset(added + [x])[y] - multiset(sorted)[y] == multiset(added)[y] - multiset(items)[y];
        assert Evicted(added, items, y);
      }
    }
  }

  lemma {:induction false} TrimKeepsNewest(
    added: seq<Snapshot>, items: seq<Snapshot>, x: Snapshot, sorted: seq<Snapshot>, capacity: nat)
    requires capacity > 0 && Newest(added, items, capacity)
    requires IsSorted(sorted) && multiset(sorted) == multiset(items + [x])
    ensures |sorted| == |items| + 1
    ensures Newest(added + [x], if |sorted| > capacity then sorted[|sorted| - capacity..] else sorted, capacity)
  {
    assert |multiset(sorted)| == |sorted| && |multiset(items + [x])| == |items| + 1;
    assert multiset(items + [x]) == multiset(items) + multiset{x};
    if |added| < capacity { KeepAll(added, items, x, sorted, capacity); }
    else { DropOldest(added, items, x, sorted, capacity); }
  }

  lemma {:induction false} RetainedOrOlder(added: seq<Snapshot>, items: seq<Snapshot>, capacity: nat)
    requires Newest(added, items, capacity)
    ensures forall x | x in added :: x in items || (items != [] && x.ingestedAt <= items[0].ingestedAt && |added| > capacity)
    ensures forall x | x in items :: x in added
  {
    if |added| <= capacity {
      AllRetained(added, items, capacity);
      forall x | x in added ensures x in items { assert x in multiset(added); }
    } else {
      forall x | x in added && x !in items ensures items != [] && x.ingestedAt <= items[0].ingestedAt {
        assert x in multiset(added) && x !in multiset(items);
        assert Evicted(added, items, x);
      }
    }
    forall x | x in items ensures x in added { assert x in multiset(items) && x in multiset(added); }
  }

  /** What a search from the newest item down finds. */
  lemma {:induction false} NewestBefore(
    added: seq<Snapshot>, items: seq<Snapshot>, capacity: nat, n: nat, asOf: int)
    requires Newest(added, items, capacity) && n <= |items|
    requires forall i | n <= i < |items| :: items[i].ingestedAt > asOf
    requires n > 0 ==> items[n - 1].ingestedAt <= asOf
    ensures n > 0 ==>
      items[n - 1] in added && forall x | x in added && x.ingestedAt <= asOf :: x.ingestedAt <= items[n - 1].ingestedAt
    ensures n == 0 <==> forall x | x in items :: x.ingestedAt > asOf
    ensures n == 0 && (exists x :: x in added && x.ingestedAt <= asOf) ==>
      |added| > capacity == |items| && asOf < items[0].ingestedAt
  {
    RetainedOrOlder(added, items, capacity);
    if n > 0 { assert items[n - 1] in items; }
  }

  class PointInTimeBuffer {
    const capacity: nat
    var items: seq<Snapshot>
    ghost var added: seq<Snapshot>  // everything ever added

    ghost predicate Valid()
      reads this
    {
      capacity > 0 && Newest(added, items, capacity)
    }

    /** `SnapshotBuffer`. */
    constructor Snapshots()
      ensures Valid() && added == [] && capacity == MAXIMUM_SNAPSHOTS_PER_MARKET
    {
      capacity, items, added := MAXIMUM_SNAPSHOTS_PER_MARKET, [], [];
    }

    /** `HistoryBuffer`, the same code with a smaller bound. */
    constructor Histories()
      ensures Valid() && added == [] && capacity == MAXIMUM_HISTORY_SNAPSHOTS
    {
      capacity, items, added := MAXIMUM_HISTORY_SNAPSHOTS, [], [];
    }

    method Add(snapshot: Snapshot)
      requires Valid()
      modifies this
      ensures Valid() && added == old(added) + [snapshot]
    {
      var sorted := SortByIngestion(items + [snapshot]);
      TrimKeepsNewest(added, items, snapshot, sorted, capacity);
      items := sorted;
      if |items| > capacity {
        items := items[|items| - capacity..];
      }
      added := added + [snapshot];
    }

    /** `LastOrDefault(item => item.IngestedAt <= asOf)`. */
    method Before(asOf: int) returns (r: Option<Snapshot>)
      requires Valid()
      ensures r.Some? ==> r.value in added && r.value.ingestedAt <= asOf
      ensures r.Some? ==> forall x | x in added && x.ingestedAt <= asOf :: x.ingestedAt <= r.value.ingestedAt
      ensures r.None? <==> forall x | x in items :: x.ingestedAt > asOf
      ensures r.None? && (exists x :: x in added && x.ingestedAt <= asOf) ==>
        |added| > capacity == |items| && asOf < items[0].ingestedAt
    {
      var n := |items|;
      while n > 0 && items[n - 1].ingestedAt > asOf
        invariant 0 <= n <= |items|
        invariant forall i | n <= i < |items| :: items[i].ingestedAt > asOf
      {
        n := n - 1;
      }
      NewestBefore(added, items, capacity, n, asOf);
      if n == 0 {
        return None;
      }
      return Some(items[n - 1]);
    }
  }
}
