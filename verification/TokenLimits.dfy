/** When the micro-batches of utils/seqlen_balancing.py keep the token limit that bounds their number. */
module TokenLimits {
  import opened Wrappers
  import opened Arithmetic
  import opened Permutations
  import opened IndexPartitions
  import opened KarmarkarKarp
  import opened KarmarkarKarpTheorems
  import opened BalancedPartitions
  import opened MicroBatches

  /** No micro-batch has more tokens than the limit. */
  ghost predicate WithinLimit(lengths: seq<nat>, lists: seq<seq<nat>>, limit: int) {
    forall list <- lists :: PartSum(lengths, list) <= limit
  }

  /** The batch consists of `count` groups, and `k` of the lists are asked for. */
  predicate Fits(lengths: seq<nat>, size: nat, k: nat, count: nat) {
    0 < size && 0 < k <= count && |lengths| == Times(count, size)
  }

  // ---------------------------------------------------------------- the tokens of a list

  function SamplesOf(lengths: seq<nat>, group: nat, size: nat): seq<nat>
    requires Times(group, size) + size <= |lengths|
  {
    lengths[Times(group, size)..Times(group, size) + size]
  }

  lemma {:induction false} SelectedSum(values: seq<int>, indices: seq<nat>, start: nat)
    requires start + |indices| <= |values| && forall j :: 0 <= j < |indices| ==> indices[j] == start + j
    ensures PartSum(values, indices) == Total(values[start..start + |indices|])
  {
    if indices == [] {
    } else {
      SelectedSum(values, indices[1..], start + 1);
      assert values[start..start + |indices|][1..] == values[start + 1..start + |indices|];
    }
  }

  lemma GroupTokens(lengths: seq<nat>, group: nat, size: nat)
    requires Times(group, size) + size <= |lengths|
    ensures PartSum(lengths, GroupOf(group, size)) == Total(SamplesOf(lengths, group, size))
  {
    SelectedSum(lengths, GroupOf(group, size), Times(group, size));
  }

  lemma {:induction false} WorkloadOfGroup(lengths: seq<nat>, size: nat, count: nat, group: nat)
    requires 0 < size && |lengths| == Times(count, size) && group < count
    ensures Times(group, size) + size <= |lengths| && |GroupWorkloads(lengths, size)| == count
    ensures GroupWorkloads(lengths, size)[group] == SumBy(SamplesOf(lengths, group, size), WorkloadInt)
    decreases group
  {
    GroupCount(lengths, size, count);
    TimesGrows(group + 1, count, size);
    if group == 0 {
      assert SamplesOf(lengths, 0, size) == lengths[..size];
    } else {
      WorkloadOfGroup(lengths[size..], size, count - 1, group - 1);
      assert SamplesOf(lengths, group, size) == SamplesOf(lengths[size..], group - 1, size);
    }
  }

  /** A token weighs at least the linear coefficient of the workload. */
  lemma {:induction false} TokensWeigh(lengths: seq<nat>)
    ensures 0 <= 24576 * Total(lengths) <= SumBy(lengths, WorkloadInt)
  {
    if lengths == [] {
    } else {
      TokensWeigh(lengths[1..]);
    }
  }

  lemma {:induction false} ListTokens(lengths: seq<nat>, groups: seq<nat>, size: nat, count: nat)
    requires 0 < size && |lengths| == Times(count, size) && AllBelow(groups, count)
    ensures 24576 * PartSum(lengths, Expand(groups, size)) <= PartSum(GroupWorkloads(lengths, size), groups)
  {
    if groups == [] {
    } else {
      ListTokens(lengths, groups[1..], size, count);
      WorkloadOfGroup(lengths, size, count, groups[0]);
      GroupTokens(lengths, groups[0], size);
      TokensWeigh(SamplesOf(lengths, groups[0], size));
      SumConcat(GroupOf(groups[0], size), Expand(groups[1..], size), ValueAt(lengths));
    }
  }

  // ---------------------------------------------------------------- from partitions to lists

  lemma PartBelow(parts: seq<seq<nat>>, n: nat, p: nat)
    requires IsPartition(parts, n) && p < |parts|
    ensures AllBelow(SortedPart(parts[p]), n) && |SortedPart(parts[p])| == |parts[p]|
  {
    RangePermutation(Concat(parts), n);
    ConcatWithout(parts, p);
    SortPermutes(parts[p], IndexBefore);
    forall i | 0 <= i < |SortedPart(parts[p])|
      ensures SortedPart(parts[p])[i] < n
    {
      assert SortedPart(parts[p])[i] in multiset(parts[p]);
      assert SortedPart(parts[p])[i] in multiset(Concat(parts));
      assert SortedPart(parts[p])[i] in Concat(parts);
    }
  }

  /** The lists are the partitions, sorted and expanded, in some order. */
  lemma ListsOfParts(lengths: seq<nat>, size: nat, k: nat, count: nat, balance: bool, picks: seq<Pick>, limit: int)
    requires Fits(lengths, size, k, count) && ValidPicks(|InitialPool(GroupWorkloads(lengths, size), k, false)|, picks)
    ensures |GroupWorkloads(lengths, size)| == count
    ensures
      var raw := PartitionBy(GroupWorkloads(lengths, size), k, false, picks);
      && |raw| == k && IsPartition(raw, count)
      && (WithinLimit(lengths, Batches(lengths, size, k, balance, picks), limit) <==>
          forall p :: 0 <= p < k ==> PartSum(lengths, Expand(SortedPart(raw[p]), size)) <= limit)
  {
    GroupCount(lengths, size, count);
    var workloads := GroupWorkloads(lengths, size);
    var raw := PartitionBy(workloads, k, false, picks);
    var parts := Map(raw, SortedPart);
    var lists := Batches(lengths, size, k, balance, picks);
    hide PartitionBy, InitialPool, ValidPicks, Arranged, PartSum, Expand, SortedPart, GroupWorkloads, IsPartition;
    ExactPartition(workloads, k, false, picks);
    SortedPartitions(raw, count);
    ArrangedIsPartition(parts, workloads, count, size, balance);
    ArrangedPermutes(parts, workloads, size, balance);
    if WithinLimit(lengths, lists, limit) {
      forall p | 0 <= p < k
        ensures PartSum(lengths, Expand(SortedPart(raw[p]), size)) <= limit
      {
        var list := Map(parts, ExpandBy(size))[p];
        assert list in multiset(Map(parts, ExpandBy(size)));
        assert list in multiset(lists);
      }
    }
    if forall p :: 0 <= p < k ==> PartSum(lengths, Expand(SortedPart(raw[p]), size)) <= limit {
      forall list <- lists
        ensures PartSum(lengths, list) <= limit
      {
        var p := Origin(lists, raw, size, list);
      }
    }
  }

  // ---------------------------------------------------------------- a sufficient condition

  lemma WeightPerList(k: nat, weight: int, tokens: int, limit: int, total: int)
    requires 0 < k && k * weight <= total <= k * (24576 * limit) && 24576 * tokens <= weight
    ensures tokens <= limit
  {
    if weight > 24576 * limit {
      TimesMonotone(24576 * limit + 1, weight, k);
      OneMore(24576 * limit, k);
    }
  }

  lemma SortedSum(values: seq<int>, part: seq<nat>)
    ensures PartSum(values, SortedPart(part)) == PartSum(values, part)
  {
    SortPermutes(part, IndexBefore);
    SumPermutes(SortedPart(part), part, ValueAt(values));
  }

  lemma WeightLimits(lengths: seq<nat>, size: nat, k: nat, count: nat, picks: seq<Pick>, limit: int, p: nat)
    requires Fits(lengths, size, k, count) && ValidPicks(|InitialPool(GroupWorkloads(lengths, size), k, false)|, picks)
    requires
      var workloads := GroupWorkloads(lengths, size);
      Total(workloads) + (k - 1) * Largest(workloads) <= k * (24576 * limit)
    requires p < k
    ensures
      var raw := PartitionBy(GroupWorkloads(lengths, size), k, false, picks);
      |raw| == k && PartSum(lengths, Expand(SortedPart(raw[p]), size)) <= limit
  {
    GroupCount(lengths, size, count);
    var workloads := GroupWorkloads(lengths, size);
    var raw := PartitionBy(workloads, k, false, picks);
    hide PartitionBy, InitialPool, ValidPicks, PartSum, Expand, SortedPart, GroupWorkloads, IsPartition, Largest;
    ExactPartition(workloads, k, false, picks);
    PartBelow(raw, count, p);
    ListTokens(lengths, SortedPart(raw[p]), size, count);
    SortedSum(workloads, raw[p]);
    MaxSumBound(workloads, k, false, picks, p);
    WeightPerList(k, PartSum(workloads, raw[p]), PartSum(lengths, Expand(SortedPart(raw[p]), size)), limit,
                  Total(workloads) + (k - 1) * Largest(workloads));
  }

  lemma CountOfGroups(lengths: seq<nat>, s: Settings)
    requires MicroBatchCount(lengths, s).Success?
    ensures
      && 0 < s.groupSize
      && Fits(lengths, s.groupSize, MicroBatchCount(lengths, s).value, |lengths| / s.groupSize)
  {
    CountFits(lengths, s);
    hide MicroBatchCount;
    TimesQuotient(|lengths|, s.groupSize);
  }

  /**
   If the workloads fit into the micro-batches with one heaviest group to spare in all but one of them, no
   micro-batch has more tokens than the limit, whatever the lengths and the group size.
   */
  lemma {:induction false} TokenLimitKept(lengths: seq<nat>, s: Settings, balance: bool, picks: seq<Pick>)
    requires MicroBatchCount(lengths, s).Success?
    requires
      var k, workloads := MicroBatchCount(lengths, s).value, GroupWorkloads(lengths, s.groupSize);
      && 0 < k && 0 < s.groupSize && ValidPicks(|InitialPool(workloads, k, false)|, picks)
      && Total(workloads) + (k - 1) * Largest(workloads) <= k * (24576 * s.maxTokenLen)
    ensures
      WithinLimit(lengths, Batches(lengths, s.groupSize, MicroBatchCount(lengths, s).value, balance, picks), s.maxTokenLen)
  {
    var k, size, count := MicroBatchCount(lengths, s).value, s.groupSize, |lengths| / s.groupSize;
    CountOfGroups(lengths, s);
    hide MicroBatchCount, GroupWorkloads, InitialPool, ValidPicks, PartitionBy, Batches, Expand, Largest, Total, WithinLimit;
    ListsOfParts(lengths, size, k, count, balance, picks, s.maxTokenLen);
    forall p | 0 <= p < k
      ensures
        var raw := PartitionBy(GroupWorkloads(lengths, size), k, false, picks);
        PartSum(lengths, Expand(SortedPart(raw[p]), size)) <= s.maxTokenLen
    {
      WeightLimits(lengths, size, k, count, picks, s.maxTokenLen, p);
    }
  }

  // ---------------------------------------------------------------- samples of one length

  ghost predicate AllEqual(values: seq<int>, value: int) {
    forall i :: 0 <= i < |values| ==> values[i] == value
  }

  lemma {:induction false} ConstantSum<T>(s: seq<T>, f: T -> int, c: int)
    requires forall i :: 0 <= i < |s| ==> f(s[i]) == c
    ensures SumBy(s, f) == |s| * c
  {
    SumAtLeast(s, f, c);
    SumAtMost(s, f, c);
  }

  lemma EqualPart(values: seq<int>, value: int, part: seq<nat>)
    requires AllEqual(values, value) && AllBelow(part, |values|)
    ensures PartSum(values, part) == |part| * value
  {
    ConstantSum(part, ValueAt(values), value);
  }

  lemma EqualWorkloads(lengths: seq<nat>, len: nat, size: nat, count: nat)
    requires 0 < size && |lengths| == Times(count, size) && AllEqual(lengths, len)
    ensures |GroupWorkloads(lengths, size)| == count
    ensures AllEqual(GroupWorkloads(lengths, size), size * Workload(len))
  {
    GroupCount(lengths, size, count);
    forall g | 0 <= g < count
      ensures GroupWorkloads(lengths, size)[g] == size * Workload(len)
    {
      WorkloadOfGroup(lengths, size, count, g);
      ConstantSum(SamplesOf(lengths, g, size), WorkloadInt, Workload(len));
    }
  }

  lemma {:induction false} ExpandedSize(groups: seq<nat>, size: nat)
    ensures |Expand(groups, size)| == |groups| * size
  {
    if groups == [] {
    } else {
      ExpandedSize(groups[1..], size);
      OneMore(|groups[1..]|, size);
    }
  }

  lemma ExpandedBelow(groups: seq<nat>, size: nat, count: nat)
    requires 0 < size && AllBelow(groups, count)
    ensures AllBelow(Expand(groups, size), Times(count, size))
  {
    var samples := Expand(groups, size);
    TimesIsProduct(count, size);
    forall i | 0 <= i < |samples|
      ensures samples[i] < Times(count, size)
    {
      InExpand(groups, size, samples[i]);
      Remainder(samples[i], size);
      OneMore(samples[i] / size, size);
      TimesMonotone(samples[i] / size + 1, count, size);
    }
  }

  lemma EqualTokens(lengths: seq<nat>, len: nat, groups: seq<nat>, size: nat, count: nat)
    requires 0 < size && |lengths| == Times(count, size) && AllEqual(lengths, len) && AllBelow(groups, count)
    ensures PartSum(lengths, Expand(groups, size)) == |groups| * (size * len)
  {
    ExpandedBelow(groups, size, count);
    ExpandedSize(groups, size);
    EqualPart(lengths, len, Expand(groups, size));
    ProductsAssociate(|groups|, size, len);
  }

  lemma NotAboveMean(k: nat, size: nat, n: nat, m: nat)
    requires 0 < k && k * size <= n + (k - 1) * 1 && n <= m * k
    ensures size <= m
  {
    if m < size {
      TimesMonotone(m + 1, size, k);
      OneMore(m, k);
    }
  }

  /** The largest of some sizes that differ by at most one is the mean, rounded up. */
  lemma LargestSize(parts: seq<seq<nat>>, n: nat, m: nat)
    requires parts != [] && IsPartition(parts, n)
    requires forall p, q :: 0 <= p < |parts| && 0 <= q < |parts| ==> |parts[p]| - |parts[q]| <= 1
    ensures (forall p :: 0 <= p < |parts| ==> |parts[p]| <= m) <==> CeilDiv(n, |parts|) <= m
  {
    var k := |parts|;
    hide CeilDiv, IsPartition;
    PartitionSize(parts, n);
    CeilDivIsLeast(n, k, m);
    if forall p :: 0 <= p < k ==> |parts[p]| <= m {
      SumAtMost(parts, Size, m);
    }
    if n <= m * k {
      forall p | 0 <= p < k
        ensures |parts[p]| <= m
      {
        Heaviest(parts, Size, p, 1);
        NotAboveMean(k, |parts[p]|, n, m);
      }
    }
  }

  lemma {:induction false} EqualLargest(values: seq<int>, value: nat)
    requires AllEqual(values, value)
    ensures Largest(values) <= value
  {
    if values == [] {
    } else {
      EqualLargest(values[1..], value);
    }
  }

  lemma PartSumOfEqual(values: seq<int>, value: int, parts: seq<seq<nat>>, p: nat)
    requires AllEqual(values, value) && IsPartition(parts, |values|) && p < |parts|
    ensures PartSum(values, parts[p]) == |parts[p]| * value
  {
    PartBelow(parts, |values|, p);
    SortedSum(values, parts[p]);
    EqualPart(values, value, SortedPart(parts[p]));
  }

  lemma EqualSpread(lengths: seq<nat>, len: nat, size: nat, k: nat, count: nat, picks: seq<Pick>, p: nat, q: nat)
    requires Fits(lengths, size, k, count) && ValidPicks(|InitialPool(GroupWorkloads(lengths, size), k, false)|, picks)
    requires AllEqual(lengths, len) && 0 < len && p < k && q < k
    ensures
      var raw := PartitionBy(GroupWorkloads(lengths, size), k, false, picks);
      |raw| == k && |raw[p]| - |raw[q]| <= 1
  {
    var workloads, weight := GroupWorkloads(lengths, size), size * Workload(len);
    EqualWorkloads(lengths, len, size, count);
    var raw := PartitionBy(workloads, k, false, picks);
    hide PartitionBy, InitialPool, ValidPicks, PartSum, GroupWorkloads, IsPartition;
    ExactPartition(workloads, k, false, picks);
    TimesMonotone(1, size, Workload(len));
    SpreadBound(workloads, k, false, picks, p, q);
    EqualLargest(workloads, weight);
    PartSumOfEqual(workloads, weight, raw, p);
    PartSumOfEqual(workloads, weight, raw, q);
    OneMore(|raw[q]|, weight);
    if |raw[p]| > |raw[q]| + 1 {
      TimesMonotone(|raw[q]| + 2, |raw[p]|, weight);
      OneMore(|raw[q]| + 1, weight);
    }
  }

  lemma WithinQuotient(x: int, unit: nat, limit: int)
    requires 0 < unit
    ensures x * unit <= limit <==> x <= limit / unit
  {
    Remainder(limit, unit);
    OneMore(limit / unit, unit);
    if x <= limit / unit {
      TimesMonotone(x, limit / unit, unit);
    } else {
      TimesMonotone(limit / unit + 1, x, unit);
    }
  }

  lemma SizesWithinLimit(parts: seq<seq<nat>>, n: nat, unit: nat, limit: int)
    requires parts != [] && IsPartition(parts, n) && 0 < unit
    requires forall p, q :: 0 <= p < |parts| && 0 <= q < |parts| ==> |parts[p]| - |parts[q]| <= 1
    ensures
      (forall p :: 0 <= p < |parts| ==> |parts[p]| * unit <= limit) <==> CeilDiv(n, |parts|) * unit <= limit
  {
    hide CeilDiv, IsPartition;
    CeilDivIsLeast(n, |parts|, -1);
    if limit < 0 {
      assert |parts[0]| * unit >= 0;
      TimesMonotone(0, CeilDiv(n, |parts|), unit);
    } else {
      LargestSize(parts, n, limit / unit);
      forall x: int
        ensures x * unit <= limit <==> x <= limit / unit
      {
        WithinQuotient(x, unit, limit);
      }
    }
  }

  lemma EqualSizesWithin(lengths: seq<nat>, len: nat, size: nat, k: nat, count: nat, picks: seq<Pick>, limit: int)
    requires Fits(lengths, size, k, count) && ValidPicks(|InitialPool(GroupWorkloads(lengths, size), k, false)|, picks)
    requires AllEqual(lengths, len)
    ensures
      var raw := PartitionBy(GroupWorkloads(lengths, size), k, false, picks);
      && |raw| == k
      && ((forall p :: 0 <= p < k ==> |raw[p]| * (size * len) <= limit) <==> CeilDiv(count, k) * (size * len) <= limit)
  {
    GroupCount(lengths, size, count);
    var raw := PartitionBy(GroupWorkloads(lengths, size), k, false, picks);
    hide PartitionBy, InitialPool, ValidPicks, GroupWorkloads, IsPartition, CeilDiv, AllEqual;
    ExactPartition(GroupWorkloads(lengths, size), k, false, picks);
    if len == 0 {
      ProductsAssociate(CeilDiv(count, k), size, 0);
      assert size * len == 0 && |raw[0]| * 0 == 0;
    } else {
      TimesMonotone(1, size, len);
      forall p, q | 0 <= p < k && 0 <= q < k
        ensures |raw[p]| - |raw[q]| <= 1
      {
        EqualSpread(lengths, len, size, k, count, picks, p, q);
      }
      SizesWithinLimit(raw, count, size * len, limit);
    }
  }

  lemma EqualListTokens(lengths: seq<nat>, len: nat, size: nat, k: nat, count: nat, picks: seq<Pick>, p: nat)
    requires Fits(lengths, size, k, count) && ValidPicks(|InitialPool(GroupWorkloads(lengths, size), k, false)|, picks)
    requires AllEqual(lengths, len) && p < k
    ensures
      var raw := PartitionBy(GroupWorkloads(lengths, size), k, false, picks);
      |raw| == k && PartSum(lengths, Expand(SortedPart(raw[p]), size)) == |raw[p]| * (size * len)
  {
    GroupCount(lengths, size, count);
    var raw := PartitionBy(GroupWorkloads(lengths, size), k, false, picks);
    hide PartitionBy, InitialPool, ValidPicks, PartSum, Expand, SortedPart, GroupWorkloads, IsPartition, AllEqual;
    ExactPartition(GroupWorkloads(lengths, size), k, false, picks);
    PartBelow(raw, count, p);
    EqualTokens(lengths, len, SortedPart(raw[p]), size, count);
  }

  /**
   For samples of one length the limit is kept if and only if the tokens of as many groups as the fullest
   micro-batch has to take are within it.
   */
  lemma {:induction false} EqualLengthsExactly(lengths: seq<nat>, len: nat, s: Settings, balance: bool, picks: seq<Pick>)
    requires AllEqual(lengths, len) && MicroBatchCount(lengths, s).Success?
    requires
      var k, workloads := MicroBatchCount(lengths, s).value, GroupWorkloads(lengths, s.groupSize);
      0 < k && 0 < s.groupSize && ValidPicks(|InitialPool(workloads, k, false)|, picks)
    ensures
      var k := MicroBatchCount(lengths, s).value;
      WithinLimit(lengths, Batches(lengths, s.groupSize, k, balance, picks), s.maxTokenLen) <==>
      CeilDiv(|lengths| / s.groupSize, k) * (s.groupSize * len) <= s.maxTokenLen
  {
    var k, size, count := MicroBatchCount(lengths, s).value, s.groupSize, |lengths| / s.groupSize;
    CountOfGroups(lengths, s);
    hide MicroBatchCount, GroupWorkloads, InitialPool, ValidPicks, PartitionBy, Batches, Expand, WithinLimit, CeilDiv;
    ListsOfParts(lengths, size, k, count, balance, picks, s.maxTokenLen);
    EqualSizesWithin(lengths, len, size, k, count, picks, s.maxTokenLen);
    forall p | 0 <= p < k
      ensures
        var raw := PartitionBy(GroupWorkloads(lengths, size), k, false, picks);
        PartSum(lengths, Expand(SortedPart(raw[p]), size)) == |raw[p]| * (size * len)
    {
      EqualListTokens(lengths, len, size, k, count, picks, p);
    }
  }

  // ---------------------------------------------------------------- a necessary condition

  lemma {:induction false} NoNegativeSum(lengths: seq<nat>, samples: seq<nat>)
    ensures 0 <= PartSum(lengths, samples)
  {
    if samples == [] {
    } else {
      NoNegativeSum(lengths, samples[1..]);
    }
  }

  /** A list has at least the tokens of each of its groups. */
  lemma {:induction false} GroupInList(lengths: seq<nat>, groups: seq<nat>, size: nat, i: nat)
    requires i < |groups| && Times(groups[i], size) + size <= |lengths|
    ensures Total(SamplesOf(lengths, groups[i], size)) <= PartSum(lengths, Expand(groups, size))
  {
    var head, rest := GroupOf(groups[0], size), Expand(groups[1..], size);
    SumConcat(head, rest, ValueAt(lengths));
    if i == 0 {
      GroupTokens(lengths, groups[0], size);
      NoNegativeSum(lengths, rest);
    } else {
      NoNegativeSum(lengths, head);
      GroupInList(lengths, groups[1..], size, i - 1);
    }
  }

  lemma SortedPartBag(part: seq<nat>)
    ensures multiset(SortedPart(part)) == multiset(part)
  {
    SortPermutes(part, IndexBefore);
  }

  lemma GroupWithin(lengths: seq<nat>, parts: seq<seq<nat>>, size: nat, count: nat, group: nat, limit: int)
    requires IsPartition(parts, count) && group < count && |lengths| == Times(count, size)
    requires forall p :: 0 <= p < |parts| ==> PartSum(lengths, Expand(SortedPart(parts[p]), size)) <= limit
    ensures Times(group, size) + size <= |lengths| && Total(SamplesOf(lengths, group, size)) <= limit
  {
    hide Expand, PartSum, SortedPart;
    RangePermutation(Concat(parts), count);
    var p := InConcat(parts, group);
    SortedPartBag(parts[p]);
    assert group in multiset(SortedPart(parts[p]));
    var i :| 0 <= i < |SortedPart(parts[p])| && SortedPart(parts[p])[i] == group;
    TimesGrows(group + 1, count, size);
    GroupInList(lengths, SortedPart(parts[p]), size, i);
  }

  lemma {:induction false} TotalIsLength(lengths: seq<nat>)
    ensures Total(lengths) == TotalLength(lengths)
  {
    if lengths == [] {
    } else {
      TotalIsLength(lengths[1..]);
    }
  }

  lemma TokensFit(lengths: seq<nat>, lists: seq<seq<nat>>, limit: int)
    requires IsPartition(lists, |lengths|) && WithinLimit(lengths, lists, limit)
    ensures TotalLength(lengths) <= |lists| * limit
  {
    SumAtMost(lists, PartSums(lengths), limit);
    PartitionSum(lengths, lists, |lengths|);
    assert lengths[..|lengths|] == lengths;
    TotalIsLength(lengths);
  }

  /** The tokens of each group are within the limit. */
  ghost predicate GroupsWithin(lengths: seq<nat>, size: nat, count: nat, limit: int) {
    forall g :: 0 <= g < count ==>
      Times(g, size) + size <= |lengths| && Total(SamplesOf(lengths, g, size)) <= limit
  }

  /** A list within the limit has no group beyond it, and all the tokens fit into the micro-batches together. */
  lemma {:induction false} TokenLimitNeeds(lengths: seq<nat>, s: Settings, balance: bool, picks: seq<Pick>)
    requires MicroBatchCount(lengths, s).Success?
    requires
      var k, workloads := MicroBatchCount(lengths, s).value, GroupWorkloads(lengths, s.groupSize);
      0 < k && 0 < s.groupSize && ValidPicks(|InitialPool(workloads, k, false)|, picks)
    requires
      WithinLimit(lengths, Batches(lengths, s.groupSize, MicroBatchCount(lengths, s).value, balance, picks), s.maxTokenLen)
    ensures TotalLength(lengths) <= MicroBatchCount(lengths, s).value * s.maxTokenLen
    ensures GroupsWithin(lengths, s.groupSize, |lengths| / s.groupSize, s.maxTokenLen)
  {
    var k, size, count := MicroBatchCount(lengths, s).value, s.groupSize, |lengths| / s.groupSize;
    var lists := Batches(lengths, size, k, balance, picks);
    CountOfGroups(lengths, s);
    CountFits(lengths, s);
    RearrangedBatches(lengths, s, balance, picks);
    hide MicroBatchCount, GroupWorkloads, InitialPool, ValidPicks, PartitionBy, Batches, Expand, PartSum, IsPartition;
    ListsOfParts(lengths, size, k, count, balance, picks, s.maxTokenLen);
    forall g | 0 <= g < count
      ensures Times(g, size) + size <= |lengths| && Total(SamplesOf(lengths, g, size)) <= s.maxTokenLen
    {
      GroupWithin(lengths, PartitionBy(GroupWorkloads(lengths, size), k, false, picks), size, count, g, s.maxTokenLen);
    }
    TokensFit(lengths, lists, s.maxTokenLen);
  }

  // ---------------------------------------------------------------- one group in each list

  lemma SingleParts(parts: seq<seq<nat>>, p: nat)
    requires p < |parts| && IsPartition(parts, |parts|) && NoneEmpty(parts)
    ensures |parts[p]| == 1 && parts[p][0] < |parts|
  {
    var rest := Without(parts, p);
    PartitionSize(parts, |parts|);
    SumWithout(parts, p, Size);
    SumAtLeast(rest, Size, 1);
    PartBelow(parts, |parts|, p);
    SortedPartBag(parts[p]);
    assert parts[p] == [parts[p][0]];
    assert SortedPart(parts[p])[0] in multiset(parts[p]);
  }

  lemma SingleTokens(lengths: seq<nat>, part: seq<nat>, size: nat)
    requires |part| == 1 && Times(part[0], size) + size <= |lengths|
    ensures PartSum(lengths, Expand(SortedPart(part), size)) == Total(SamplesOf(lengths, part[0], size))
  {
    var sorted := SortedPart(part);
    SortedPartBag(part);
    SortedPartIncreases(part);
    assert part == [part[0]];
    assert sorted[0] in multiset(part);
    assert sorted == [part[0]] && sorted[1..] == [];
    assert Expand(sorted, size) == GroupOf(part[0], size);
    GroupTokens(lengths, part[0], size);
  }

  lemma SingleWithin(lengths: seq<nat>, size: nat, k: nat, picks: seq<Pick>, p: nat, limit: int)
    requires Fits(lengths, size, k, k) && ValidPicks(|InitialPool(GroupWorkloads(lengths, size), k, false)|, picks)
    requires p < k && GroupsWithin(lengths, size, k, limit)
    ensures
      var raw := PartitionBy(GroupWorkloads(lengths, size), k, false, picks);
      |raw| == k && PartSum(lengths, Expand(SortedPart(raw[p]), size)) <= limit
  {
    GroupCount(lengths, size, k);
    var workloads := GroupWorkloads(lengths, size);
    var raw := PartitionBy(workloads, k, false, picks);
    hide PartitionBy, InitialPool, ValidPicks, PartSum, Expand, SortedPart, GroupWorkloads, IsPartition, Total;
    ExactPartition(workloads, k, false, picks);
    forall q | 0 <= q < k
      ensures raw[q] != []
    {
      UsedPartitions(workloads, k, false, picks, q);
    }
    SingleParts(raw, p);
    SingleTokens(lengths, raw[p], size);
  }

  /** With as many micro-batches as groups the limit is kept if and only if every group is within it. */
  lemma {:induction false} OneGroupEachExactly(lengths: seq<nat>, s: Settings, balance: bool, picks: seq<Pick>)
    requires MicroBatchCount(lengths, s).Success?
    requires
      var k, workloads := MicroBatchCount(lengths, s).value, GroupWorkloads(lengths, s.groupSize);
      && 0 < k && 0 < s.groupSize && ValidPicks(|InitialPool(workloads, k, false)|, picks)
      && k == |lengths| / s.groupSize
    ensures
      var k := MicroBatchCount(lengths, s).value;
      WithinLimit(lengths, Batches(lengths, s.groupSize, k, balance, picks), s.maxTokenLen) <==>
      GroupsWithin(lengths, s.groupSize, k, s.maxTokenLen)
  {
    var k, size := MicroBatchCount(lengths, s).value, s.groupSize;
    CountOfGroups(lengths, s);
    if WithinLimit(lengths, Batches(lengths, size, k, balance, picks), s.maxTokenLen) {
      TokenLimitNeeds(lengths, s, balance, picks);
    }
    hide MicroBatchCount, GroupWorkloads, InitialPool, ValidPicks, PartitionBy, Batches, Expand, PartSum, WithinLimit;
    ListsOfParts(lengths, size, k, k, balance, picks, s.maxTokenLen);
    if GroupsWithin(lengths, size, k, s.maxTokenLen) {
      forall p | 0 <= p < k
        ensures
          var raw := PartitionBy(GroupWorkloads(lengths, size), k, false, picks);
          PartSum(lengths, Expand(SortedPart(raw[p]), size)) <= s.maxTokenLen
      {
        SingleWithin(lengths, size, k, picks, p, s.maxTokenLen);
      }
    }
  }

  // ---------------------------------------------------------------- a batch that exceeds the limit

  lemma ThreeTwos()
    ensures MicroBatchCount([2, 2, 2], Settings(3, 2, 1, None, None, None)) == Success(2)
    ensures Total([2, 2, 2]) == 6
  {
    assert [2, 2, 2][1..] == [2, 2] && [2, 2][1..] == [2] && [2][1..] == [];
    assert TotalLength([2]) == 2 && TotalLength([2, 2]) == 4 && TotalLength([2, 2, 2]) == 6;
    assert Total([2]) == 2 && Total([2, 2]) == 4;
  }

  lemma ConcatPair(lists: seq<seq<nat>>)
    requires |lists| == 2
    ensures Concat(lists) == lists[0] + lists[1]
  {
    assert lists[1..][1..] == [] && Concat(lists[1..]) == lists[1] + Concat(lists[1..][1..]);
  }

  lemma {:induction false} TwosSum(list: seq<nat>)
    requires forall i :: 0 <= i < |list| ==> list[i] < 3
    ensures PartSum([2, 2, 2], list) == 2 * |list|
  {
    if list == [] {
    } else {
      TwosSum(list[1..]);
    }
  }

  /**
   The token limit bounds the number of micro-batches, not their tokens: three sequences of two tokens
   under a limit of three make two micro-batches, and however the sequences are spread over two lists,
   one of them has more than three tokens.
   */
  lemma {:induction false} TokenLimitExceeded(lists: seq<seq<nat>>)
    requires |lists| == 2 && IsPartition(lists, 3)
    ensures MicroBatchCount([2, 2, 2], Settings(3, 2, 1, None, None, None)) == Success(2)
    ensures PartSum([2, 2, 2], lists[0]) > 3 || PartSum([2, 2, 2], lists[1]) > 3
  {
    ThreeTwos();
    hide MicroBatchCount, PartSum;
    var all := Concat(lists);
    RangePermutation(all, 3);
    ConcatPair(lists);
    assert all[..|lists[0]|] == lists[0] && all[|lists[0]|..] == lists[1];
    TwosSum(lists[0]);
    TwosSum(lists[1]);
  }
}
