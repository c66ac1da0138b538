/** The order of the micro-batches, and of the samples in them (utils/seqlen_balancing.py). */
module MicroBatchOrder {
  import opened Arithmetic
  import opened Permutations
  import opened IndexPartitions
  import opened KarmarkarKarp
  import opened KarmarkarKarpTheorems
  import opened BalancedPartitions
  import opened MicroBatches
  import TokenLimits

  // ---------------------------------------------------------------- from the peak to the ends

  /** The heavier list, or of equally heavy ones the one with the larger first sample. */
  predicate AtLeast(key: seq<nat> -> int, a: seq<nat>, b: seq<nat>) {
    key(a) > key(b) || (key(a) == key(b) && First(a) >= First(b))
  }

  /**
   From the peak the lists get lighter to the right and to the left in turn: a list behind the peak is at
   least the one as many places before it, and that one at least the next behind the peak.
   */
  ghost predicate Alternates(lists: seq<seq<nat>>, key: seq<nat> -> int) {
    var peak := (|lists| - 1) / 2;
    && (forall i, j :: 0 <= i < j < |lists| && i + j == 2 * peak ==> AtLeast(key, lists[j], lists[i]))
    && (forall i, j :: 0 <= i < j < |lists| && i + j == 2 * peak + 1 ==> AtLeast(key, lists[i], lists[j]))
  }

  lemma HeavierIsStrict(workloads: seq<int>, size: nat)
    requires 0 < size
    ensures StrictWeak(HeavierFirst(workloads, size))
  {
    hide ListWorkload, First;
  }

  lemma InterleavedAt<T>(s: seq<T>, d: nat)
    requires s != []
    ensures
      var r, peak := Interleave(s), (|s| - 1) / 2;
      && |r| == |s|
      && (d <= peak ==> 2 * d < |s| && r[peak - d] == s[2 * d])
      && (0 < d && peak + d < |s| ==> 2 * d - 1 < |s| && r[peak + d] == s[2 * d - 1])
  {
  }

  lemma SortedAtLeast(s: seq<seq<nat>>, workloads: seq<int>, size: nat, i: nat, j: nat)
    requires 0 < size && InOrder(s, HeavierFirst(workloads, size)) && i <= j < |s|
    ensures AtLeast(KeyWorkload(workloads, size), s[i], s[j])
  {
    hide ListWorkload, First;
    if i < j {
      assert !HeavierFirst(workloads, size)(s[j], s[i]);
    }
  }

  lemma MirrorPlaces(s: seq<seq<nat>>, workloads: seq<int>, size: nat, i: nat, j: nat)
    requires 0 < size && InOrder(s, HeavierFirst(workloads, size)) && i < j < |s|
    ensures
      var r, peak, key := Interleave(s), (|s| - 1) / 2, KeyWorkload(workloads, size);
      && |r| == |s|
      && (i + j == 2 * peak ==> AtLeast(key, r[j], r[i]))
      && (i + j == 2 * peak + 1 ==> AtLeast(key, r[i], r[j]))
  {
    hide Interleave, AtLeast, InOrder, KeyWorkload, HeavierFirst;
    var peak := (|s| - 1) / 2;
    InterleavedAt(s, 0);
    if i <= peak < j {
      InterleavedAt(s, peak - i);
      InterleavedAt(s, j - peak);
      if i + j == 2 * peak {
        SortedAtLeast(s, workloads, size, 2 * (j - peak) - 1, 2 * (j - peak));
      } else if i + j == 2 * peak + 1 {
        SortedAtLeast(s, workloads, size, 2 * (peak - i), 2 * (j - peak) - 1);
      }
    }
  }

  lemma InterleaveAlternates(s: seq<seq<nat>>, workloads: seq<int>, size: nat)
    requires 0 < size && s != [] && InOrder(s, HeavierFirst(workloads, size))
    ensures Alternates(Interleave(s), KeyWorkload(workloads, size))
  {
    hide Interleave, AtLeast, InOrder, KeyWorkload, HeavierFirst;
    var r, peak, key := Interleave(s), (|s| - 1) / 2, KeyWorkload(workloads, size);
    InterleavedAt(s, 0);
    forall i, j | 0 <= i < j < |r|
      ensures i + j == 2 * peak ==> AtLeast(key, r[j], r[i])
      ensures i + j == 2 * peak + 1 ==> AtLeast(key, r[i], r[j])
    {
      MirrorPlaces(s, workloads, size, i, j);
    }
  }

  // ---------------------------------------------------------------- samples in their order

  lemma PartAscends(parts: seq<seq<nat>>, n: nat, p: nat)
    requires IsPartition(parts, n) && p < |parts|
    ensures Ascending(SortedPart(parts[p]))
  {
    var part := SortedPart(parts[p]);
    SortedPartIncreases(parts[p]);
    SortPermutes(parts[p], IndexBefore);
    ConcatWithout(parts, p);
    forall i, j | 0 <= i < j < |part|
      ensures part[i] < part[j]
    {
      if part[i] == part[j] {
        Twice(part, i, j);
        RangeOnce(n, part[i]);
        assert false;
      }
    }
  }

  lemma {:induction false} NothingExpanded(groups: seq<nat>)
    ensures Expand(groups, 0) == []
  {
    if groups == [] {
    } else {
      NothingExpanded(groups[1..]);
    }
  }

  lemma InRest(groups: seq<nat>, size: nat, j: nat)
    requires groups != [] && Ascending(groups) && j < |Expand(groups[1..], size)|
    ensures Times(groups[0], size) + size <= Expand(groups[1..], size)[j]
  {
    var x := Expand(groups[1..], size)[j];
    if size == 0 {
      NothingExpanded(groups[1..]);
      assert false;
    } else {
      InExpand(groups[1..], size, x);
      var i :| 0 <= i < |groups[1..]| && groups[1..][i] == x / size;
      assert groups[0] < groups[i + 1];
      TimesGrows(groups[0] + 1, x / size, size);
      TimesIsProduct(x / size, size);
      Remainder(x, size);
    }
  }

  lemma {:induction false} ExpandAscends(groups: seq<nat>, size: nat)
    requires Ascending(groups)
    ensures Ascending(Expand(groups, size))
  {
    if groups == [] {
    } else {
      var rest := Expand(groups[1..], size);
      ExpandAscends(groups[1..], size);
      forall j | 0 <= j < |rest|
        ensures Times(groups[0], size) + size <= rest[j]
      {
        InRest(groups, size, j);
      }
    }
  }

  // ---------------------------------------------------------------- the lists of a batch

  lemma Unbalanced(workloads: seq<int>, k: nat, size: nat, picks: seq<Pick>)
    requires 0 < k && 0 < size && ValidPicks(|InitialPool(workloads, k, false)|, picks)
    requires forall w <- workloads :: 0 <= w
    ensures
      Falling(Arranged(Map(PartitionBy(workloads, k, false, picks), SortedPart), workloads, size, false),
              KeyWorkload(workloads, size))
  {
    var raw := PartitionBy(workloads, k, false, picks);
    hide PartitionBy, InitialPool, ValidPicks, PartSum, Largest, Expand, ListWorkload, SortedPart;
    ExactPartition(workloads, k, false, picks);
    forall p, q | 0 <= p <= q < k
      ensures PartSum(workloads, raw[p]) >= PartSum(workloads, raw[q])
    {
      SpreadBound(workloads, k, false, picks, p, q);
    }
    forall p | 0 <= p < k
      ensures ListWorkload(Expand(SortedPart(raw[p]), size), workloads, size) == PartSum(workloads, raw[p])
    {
      ExpandedWorkload(raw[p], workloads, size);
    }
  }

  lemma Balanced(parts: seq<seq<nat>>, workloads: seq<int>, size: nat)
    requires 0 < size && parts != []
    ensures Alternates(Arranged(parts, workloads, size, true), KeyWorkload(workloads, size))
  {
    var lists := Map(parts, ExpandBy(size));
    HeavierIsStrict(workloads, size);
    SortPermutes(lists, HeavierFirst(workloads, size));
    SortInOrder(lists, HeavierFirst(workloads, size));
    InterleaveAlternates(SortBy(lists, HeavierFirst(workloads, size)), workloads, size);
  }

  lemma ListsAscend(workloads: seq<int>, k: nat, size: nat, count: nat, balance: bool, picks: seq<Pick>)
    requires 0 < k && 0 < size && |workloads| == count && ValidPicks(|InitialPool(workloads, k, false)|, picks)
    ensures
      forall list <- Arranged(Map(PartitionBy(workloads, k, false, picks), SortedPart), workloads, size, balance) ::
        Ascending(list)
  {
    var raw := PartitionBy(workloads, k, false, picks);
    var parts := Map(raw, SortedPart);
    var lists := Arranged(parts, workloads, size, balance);
    hide PartitionBy, InitialPool, ValidPicks, Arranged, Expand, SortedPart, Ascending, IsPartition;
    ExactPartition(workloads, k, false, picks);
    SortedPartitions(raw, count);
    ArrangedIsPartition(parts, workloads, count, size, balance);
    forall list <- lists
      ensures Ascending(list)
    {
      var p := Origin(lists, raw, size, list);
      PartAscends(raw, count, p);
      ExpandAscends(SortedPart(raw[p]), size);
    }
  }

  lemma {:induction false} MappedTotal(lengths: seq<nat>)
    ensures Total(Map(lengths, WorkloadInt)) == SumBy(lengths, WorkloadInt)
  {
    if lengths == [] {
    } else {
      MappedTotal(lengths[1..]);
      assert Map(lengths, WorkloadInt)[1..] == Map(lengths[1..], WorkloadInt);
    }
  }

  lemma GroupWork(lengths: seq<nat>, group: nat, size: nat, count: nat)
    requires 0 < size && |lengths| == Times(count, size) && group < count
    ensures |GroupWorkloads(lengths, size)| == count
    ensures GroupWorkloads(lengths, size)[group] == PartSum(Map(lengths, WorkloadInt), GroupOf(group, size))
  {
    var start, works := Times(group, size), Map(lengths, WorkloadInt);
    TokenLimits.WorkloadOfGroup(lengths, size, count, group);
    TokenLimits.SelectedSum(works, GroupOf(group, size), start);
    MappedTotal(lengths[start..start + size]);
    assert works[start..start + size] == Map(lengths[start..start + size], WorkloadInt);
  }

  lemma {:induction false} ListWork(lengths: seq<nat>, groups: seq<nat>, size: nat, count: nat)
    requires 0 < size && |lengths| == Times(count, size) && AllBelow(groups, count)
    ensures PartSum(GroupWorkloads(lengths, size), groups) == PartSum(Map(lengths, WorkloadInt), Expand(groups, size))
  {
    hide GroupWorkloads;
    if groups == [] {
    } else {
      ListWork(lengths, groups[1..], size, count);
      GroupWork(lengths, groups[0], size, count);
      SumConcat(GroupOf(groups[0], size), Expand(groups[1..], size), ValueAt(Map(lengths, WorkloadInt)));
    }
  }

  /** What a micro-batch weighs in the order: the work of all its samples. */
  lemma KeysAreWork(lengths: seq<nat>, k: nat, size: nat, count: nat, balance: bool, picks: seq<Pick>)
    requires 0 < k && 0 < size && |lengths| == Times(count, size)
    requires ValidPicks(|InitialPool(GroupWorkloads(lengths, size), k, false)|, picks)
    ensures
      forall list <- Batches(lengths, size, k, balance, picks) ::
        KeyWorkload(GroupWorkloads(lengths, size), size)(list) == PartSum(Map(lengths, WorkloadInt), list)
  {
    GroupCount(lengths, size, count);
    var workloads := GroupWorkloads(lengths, size);
    var raw := PartitionBy(workloads, k, false, picks);
    var lists := Batches(lengths, size, k, balance, picks);
    hide PartitionBy, InitialPool, ValidPicks, Arranged, Expand, SortedPart, GroupWorkloads, IsPartition, PartSum, ListWorkload;
    ExactPartition(workloads, k, false, picks);
    SortedPartitions(raw, count);
    ArrangedIsPartition(Map(raw, SortedPart), workloads, count, size, balance);
    forall list <- lists
      ensures KeyWorkload(workloads, size)(list) == PartSum(Map(lengths, WorkloadInt), list)
    {
      var p := Origin(lists, raw, size, list);
      TokenLimits.PartBelow(raw, count, p);
      ExpandWorkload(SortedPart(raw[p]), workloads, size);
      ListWork(lengths, SortedPart(raw[p]), size, count);
    }
  }

  /**
   The samples of a micro-batch stand in ascending order. With balancing the micro-batches get lighter from
   the peak to both ends in turn; without, from the first to the last. The weight is that of all the samples.
   */
  lemma {:induction false} BatchOrder(lengths: seq<nat>, s: Settings, balance: bool, picks: seq<Pick>)
    requires MicroBatchCount(lengths, s).Success?
    requires
      var k, workloads := MicroBatchCount(lengths, s).value, GroupWorkloads(lengths, s.groupSize);
      0 < k && 0 < s.groupSize && ValidPicks(|InitialPool(workloads, k, false)|, picks)
    ensures
      var lists := Batches(lengths, s.groupSize, MicroBatchCount(lengths, s).value, balance, picks);
      var key := KeyWorkload(GroupWorkloads(lengths, s.groupSize), s.groupSize);
      && (forall list <- lists :: Ascending(list) && key(list) == PartSum(Map(lengths, WorkloadInt), list))
      && (if balance then Alternates(lists, key) else Falling(lists, key))
  {
    CountFits(lengths, s);
    hide MicroBatchCount, GroupWorkloads, PartitionBy, InitialPool, ValidPicks, Arranged, IsPartition, Alternates, Falling;
    var k, size, count := MicroBatchCount(lengths, s).value, s.groupSize, |lengths| / s.groupSize;
    TimesQuotient(|lengths|, size);
    GroupCount(lengths, size, count);
    var workloads := GroupWorkloads(lengths, size);
    var raw := PartitionBy(workloads, k, false, picks);
    ListsAscend(workloads, k, size, count, balance, picks);
    KeysAreWork(lengths, k, size, count, balance, picks);
    ExactPartition(workloads, k, false, picks);
    if balance {
      Balanced(Map(raw, SortedPart), workloads, size);
    } else {
      Unbalanced(workloads, k, size, picks);
    }
  }
}
