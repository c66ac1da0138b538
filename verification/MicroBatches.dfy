/** Dynamic micro-batches: rearranging a batch by workload, and putting the rows back (utils/seqlen_balancing.py). */
module MicroBatches {
  import opened Wrappers
  import opened Arithmetic
  import opened Permutations
  import opened IndexPartitions
  import opened KarmarkarKarp
  import opened KarmarkarKarpTheorems
  import opened BalancedPartitions

  // ---------------------------------------------------------------- arithmetic

  function RoundUp(a: int, b: int): int
    requires b != 0
  {
    FloorDiv(a + b - 1, b) * b
  }

  /** The smallest multiple of `b` that is at least `a`. */
  lemma {:induction false} RoundUpIsLeast(a: int, b: nat, m: int)
    requires 0 < b
    ensures a <= RoundUp(a, b) < a + b && RoundUp(a, b) % b == 0
    ensures a <= m * b ==> RoundUp(a, b) <= m * b
  {
    var q := (a + b - 1) / b;
    Remainder(a + b - 1, b);
    QuotientIs(q * b, b, q, 0);
    OneMore(m, b);
    if m < q {
      TimesMonotone(m + 1, q, b);
    } else {
      TimesMonotone(q, m, b);
    }
  }

  // ---------------------------------------------------------------- workloads

  function Workload(seqlen: nat): nat {
    24576 * seqlen + seqlen * seqlen
  }

  /** The workload grows by the product of the lengths when sequences are joined; this and one value fix it. */
  lemma {:induction false} WorkloadGrows(a: nat, b: nat)
    ensures Workload(a + b) == Workload(a) + Workload(b) + 2 * (a * b)
    ensures Workload(1) == 24577
  {
    assert (a + b) * (a + b) == a * a + b * b + 2 * (a * b);
  }

  function WorkloadInt(seqlen: nat): int {
    Workload(seqlen)
  }

  function LengthInt(seqlen: nat): int {
    seqlen
  }

  /** The workloads of the groups of `size` consecutive samples. */
  function GroupWorkloads(lengths: seq<nat>, size: nat): seq<int>
    requires 0 < size
  {
    if |lengths| < size then []
    else [SumBy(lengths[..size], WorkloadInt)] + GroupWorkloads(lengths[size..], size)
  }

  lemma {:induction false} WorkloadsNonNegative(lengths: seq<nat>)
    ensures 0 <= SumBy(lengths, WorkloadInt) && 0 <= SumBy(lengths, LengthInt)
  {
    if lengths == [] {
    } else {
      WorkloadsNonNegative(lengths[1..]);
    }
  }

  lemma {:induction false} GroupCount(lengths: seq<nat>, size: nat, count: nat)
    requires 0 < size && |lengths| == Times(count, size)
    ensures |GroupWorkloads(lengths, size)| == count
    ensures forall w <- GroupWorkloads(lengths, size) :: 0 <= w
    decreases count
  {
    if count == 0 {
    } else {
      WorkloadsNonNegative(lengths[..size]);
      GroupCount(lengths[size..], size, count - 1);
    }
  }

  lemma {:induction false} SingleWorkloads(lengths: seq<nat>)
    ensures GroupWorkloads(lengths, 1) == Map(lengths, WorkloadInt)
  {
    if lengths == [] {
    } else {
      SingleWorkloads(lengths[1..]);
      assert SumBy(lengths[..1], WorkloadInt) == WorkloadInt(lengths[0]) + SumBy(lengths[..1][1..], WorkloadInt);
    }
  }

  // ---------------------------------------------------------------- the number of micro-batches

  datatype RearrangeError = TokenLimit | ZeroDivisor | GroupsDoNotFit | TooManyMicroBatches | Partitioning(error: PartitionError)

  /** The settings of a call; `peers` holds the counts of the other data-parallel ranks when they synchronise. */
  datatype Settings = Settings(
    maxTokenLen: int, maxSeqLen: nat, groupSize: nat, minimum: Option<int>, peers: Option<seq<int>>, dividedBy: Option<nat>)

  function Max(a: int, b: int): int {
    if a >= b then a else b
  }

  function MaxOf(n: int, others: seq<int>): int {
    if others == [] then n else Max(others[0], MaxOf(n, others[1..]))
  }

  function TotalLength(lengths: seq<nat>): int {
    SumBy(lengths, LengthInt)
  }

  /** The count before it is rounded up. */
  function Unrounded(lengths: seq<nat>, s: Settings): int
    requires s.groupSize != 0 && s.maxTokenLen != 0
  {
    var groups := |lengths| / s.groupSize;
    var needed := CeilDiv(TotalLength(lengths), s.maxTokenLen);
    var n0 := if groups <= needed then groups else needed;
    var n1 := if s.minimum.Some? then Max(s.minimum.value, n0) else n0;
    if s.peers.Some? then MaxOf(n1, s.peers.value) else n1
  }

  /** How many micro-batches are made, or why none can be. */
  function MicroBatchCount(lengths: seq<nat>, s: Settings): Result<nat, RearrangeError> {
    if s.maxTokenLen < s.maxSeqLen then Failure(TokenLimit)
    else if s.groupSize == 0 then Failure(ZeroDivisor)
    else if |lengths| % s.groupSize != 0 then Failure(GroupsDoNotFit)
    else if s.maxTokenLen == 0 then Failure(ZeroDivisor)
    else
      var groups, n2 := |lengths| / s.groupSize, Unrounded(lengths, s);
      if s.dividedBy == Some(0) then Failure(ZeroDivisor)
      else
        var n3 := if s.dividedBy.Some? then RoundUp(n2, s.dividedBy.value) else n2;
        if n3 > groups then Failure(TooManyMicroBatches)
        else if n3 <= 0 then Failure(Partitioning(IndexError))
        else Success(n3)
  }

  /** What the number of micro-batches has to be good for. */
  ghost predicate Meets(lengths: seq<nat>, s: Settings, m: int) {
    && 0 < s.groupSize
    && (|lengths| / s.groupSize <= m || TotalLength(lengths) <= m * s.maxTokenLen)
    && (s.minimum.Some? ==> s.minimum.value <= m)
    && (s.peers.Some? ==> forall i :: 0 <= i < |s.peers.value| ==> s.peers.value[i] <= m)
    && (s.dividedBy.Some? && 0 < s.dividedBy.value ==> m % s.dividedBy.value == 0)
  }

  lemma {:induction false} MaxOfIsLeast(n: int, others: seq<int>, m: int)
    ensures MaxOf(n, others) <= m <==> n <= m && forall i :: 0 <= i < |others| ==> others[i] <= m
  {
    if others == [] {
    } else {
      var rest := others[1..];
      MaxOfIsLeast(n, rest, m);
      assert forall i :: 0 < i < |others| ==> others[i] == rest[i - 1];
    }
  }

  lemma UnroundedIsLeast(lengths: seq<nat>, s: Settings, m: int)
    requires 0 < s.groupSize && 0 < s.maxTokenLen
    ensures Meets(lengths, s.(dividedBy := None), m) <==> Unrounded(lengths, s) <= m
  {
    var groups := |lengths| / s.groupSize;
    hide CeilDiv;
    CeilDivIsLeast(TotalLength(lengths), s.maxTokenLen, m);
    var needed := CeilDiv(TotalLength(lengths), s.maxTokenLen);
    var n0 := if groups <= needed then groups else needed;
    MaxOfIsLeast(if s.minimum.Some? then Max(s.minimum.value, n0) else n0, if s.peers.Some? then s.peers.value else [], m);
  }

  /** The settings are legal, apart from the number of micro-batches that they lead to. */
  predicate Legal(lengths: seq<nat>, s: Settings) {
    && 0 < s.groupSize && |lengths| % s.groupSize == 0 && s.maxSeqLen <= s.maxTokenLen && 0 < s.maxTokenLen
    && s.dividedBy != Some(0)
  }

  lemma CountRounds(lengths: seq<nat>, s: Settings)
    requires Legal(lengths, s)
    ensures
      var groups, n := |lengths| / s.groupSize, Unrounded(lengths, s);
      var k := if s.dividedBy.Some? then RoundUp(n, s.dividedBy.value) else n;
      MicroBatchCount(lengths, s) ==
        if k > groups then Failure(TooManyMicroBatches) else if k <= 0 then Failure(Partitioning(IndexError)) else Success(k)
  {
    hide RoundUp, CeilDiv;
  }

  /**
   Legal settings give the smallest number of micro-batches that meets them all; they are refused
   exactly when that number is not positive or exceeds the number of groups.
   */
  lemma {:induction false} CountIsLeast(lengths: seq<nat>, s: Settings, m: int)
    requires Legal(lengths, s)
    ensures
      var count := MicroBatchCount(lengths, s);
      && (count.Success? ==> Meets(lengths, s, count.value) && (Meets(lengths, s, m) ==> count.value <= m))
      && (count == Failure(TooManyMicroBatches) ==> (Meets(lengths, s, m) ==> |lengths| / s.groupSize < m))
      && (count == Failure(Partitioning(IndexError)) ==> Meets(lengths, s, 0))
      && (count.Failure? ==> count.error in {TooManyMicroBatches, Partitioning(IndexError)})
  {
    var n := Unrounded(lengths, s);
    CountRounds(lengths, s);
    UnroundedIsLeast(lengths, s, m);
    hide MicroBatchCount, Unrounded;
    if s.dividedBy.Some? {
      var d := s.dividedBy.value;
      RoundUpIsLeast(n, d, m / d);
      Remainder(m, d);
      UnroundedIsLeast(lengths, s, RoundUp(n, d));
    } else {
      UnroundedIsLeast(lengths, s, n);
    }
  }

  /** The first of the conditions that does not hold is the one that is raised. */
  lemma {:induction false} CountRefused(lengths: seq<nat>, s: Settings)
    ensures MicroBatchCount(lengths, s) == Failure(TokenLimit) <==> s.maxTokenLen < s.maxSeqLen
    ensures MicroBatchCount(lengths, s) == Failure(GroupsDoNotFit) <==>
      s.maxSeqLen <= s.maxTokenLen && s.groupSize > 0 && |lengths| % s.groupSize != 0
    ensures MicroBatchCount(lengths, s) == Failure(ZeroDivisor) <==>
      s.maxSeqLen <= s.maxTokenLen &&
      (s.groupSize == 0 || (|lengths| % s.groupSize == 0 && (s.maxTokenLen == 0 || s.dividedBy == Some(0))))
  {
    hide Unrounded, RoundUp;
  }

  // ---------------------------------------------------------------- groups

  function GroupOf(group: nat, size: nat): (r: seq<nat>)
    ensures |r| == size && forall j :: 0 <= j < size ==> r[j] == Times(group, size) + j
  {
    Map<nat, nat>(Range(size), j => Times(group, size) + j)
  }

  /** The samples of the given groups, group by group. */
  function Expand(groups: seq<nat>, size: nat): seq<nat> {
    if groups == [] then [] else GroupOf(groups[0], size) + Expand(groups[1..], size)
  }

  function ExpandBy(size: nat): seq<nat> -> seq<nat> {
    groups => Expand(groups, size)
  }

  lemma {:induction false} ExpandAppend(a: seq<nat>, b: seq<nat>, size: nat)
    ensures Expand(a + b, size) == Expand(a, size) + Expand(b, size)
  {
    if a == [] {
      assert a + b == b;
    } else {
      assert (a + b)[1..] == a[1..] + b;
      ExpandAppend(a[1..], b, size);
    }
  }

  lemma {:induction false} ExpandConcat(parts: seq<seq<nat>>, size: nat)
    ensures Concat(Map(parts, ExpandBy(size))) == Expand(Concat(parts), size)
  {
    if parts == [] {
    } else {
      ExpandConcat(parts[1..], size);
      ExpandAppend(parts[0], Concat(parts[1..]), size);
      assert Map(parts, ExpandBy(size))[1..] == Map(parts[1..], ExpandBy(size));
    }
  }

  lemma {:induction false} ExpandRange(n: nat, size: nat)
    ensures Expand(Range(n), size) == Range(Times(n, size))
  {
    if n == 0 {
    } else {
      ExpandRange(n - 1, size);
      assert Range(n) == Range(n - 1) + [n - 1];
      ExpandAppend(Range(n - 1), [n - 1], size);
      assert [n - 1][1..] == [];
    }
  }

  lemma {:induction false} ExpandIsConcat(groups: seq<nat>, size: nat)
    ensures Expand(groups, size) == Concat(Map(groups, g => GroupOf(g, size)))
  {
    var f := g => GroupOf(g, size);
    if groups == [] {
    } else {
      ExpandIsConcat(groups[1..], size);
      assert Map(groups, f)[1..] == Map(groups[1..], f);
    }
  }

  lemma ExpandPermutes(a: seq<nat>, b: seq<nat>, size: nat)
    requires multiset(a) == multiset(b)
    ensures multiset(Expand(a, size)) == multiset(Expand(b, size))
  {
    var f := g => GroupOf(g, size);
    ExpandIsConcat(a, size);
    ExpandIsConcat(b, size);
    MapPermutes(a, b, f);
    ConcatPermutes(Map(a, f), Map(b, f));
  }

  /** A partition of the groups becomes a partition of the samples. */
  lemma ExpandPartition(parts: seq<seq<nat>>, n: nat, size: nat)
    requires IsPartition(parts, n)
    ensures IsPartition(Map(parts, ExpandBy(size)), Times(n, size))
  {
    ExpandConcat(parts, size);
    ExpandPermutes(Concat(parts), Range(n), size);
    ExpandRange(n, size);
  }

  lemma InGroup(group: nat, size: nat, x: nat)
    requires 0 < size
    ensures x in GroupOf(group, size) <==> x / size == group
  {
    var r := GroupOf(group, size);
    Remainder(x, size);
    TimesIsProduct(group, size);
    if x / size == group {
      assert r[x % size] == x;
    } else if x in r {
      var j :| 0 <= j < size && r[j] == x;
      QuotientIs(x, size, group, j);
    }
  }

  lemma {:induction false} InExpand(groups: seq<nat>, size: nat, x: nat)
    requires 0 < size
    ensures x in Expand(groups, size) <==> x / size in groups
  {
    if groups == [] {
    } else {
      InExpand(groups[1..], size, x);
      InGroup(groups[0], size, x);
    }
  }

  /** Samples of one group are together: all of them in the list or none. */
  ghost predicate KeepsGroups(part: seq<nat>, size: nat)
    requires 0 < size
  {
    forall x: nat, y: nat :: x / size == y / size ==> (x in part <==> y in part)
  }

  lemma ExpandKeepsGroups(groups: seq<nat>, size: nat)
    requires 0 < size
    ensures KeepsGroups(Expand(groups, size), size)
  {
    forall x: nat, y: nat | x / size == y / size
      ensures x in Expand(groups, size) <==> y in Expand(groups, size)
    {
      InExpand(groups, size, x);
      InExpand(groups, size, y);
    }
  }

  // ---------------------------------------------------------------- the order of the micro-batches

  /** The workload of the groups that a list of samples starts at every `size`-th place. */
  function ListWorkload(part: seq<nat>, workloads: seq<int>, size: nat): int
    requires 0 < size
  {
    if part == [] then 0
    else
      ValueAt(workloads)(part[0] / size) + if |part| <= size then 0 else ListWorkload(part[size..], workloads, size)
  }

  lemma {:induction false} ExpandWorkload(groups: seq<nat>, workloads: seq<int>, size: nat)
    requires 0 < size
    ensures ListWorkload(Expand(groups, size), workloads, size) == PartSum(workloads, groups)
  {
    if groups == [] {
    } else {
      var part := Expand(groups, size);
      ExpandWorkload(groups[1..], workloads, size);
      assert part[0] == GroupOf(groups[0], size)[0];
      TimesIsProduct(groups[0], size);
      QuotientIs(part[0], size, groups[0], 0);
      assert part[size..] == Expand(groups[1..], size);
    }
  }

  function First(part: seq<nat>): nat {
    if part == [] then 0 else part[0]
  }

  function KeyWorkload(workloads: seq<int>, size: nat): seq<nat> -> int
    requires 0 < size
  {
    part => ListWorkload(part, workloads, size)
  }

  /** Sorting by workload and first sample, largest first. */
  function HeavierFirst(workloads: seq<int>, size: nat): (seq<nat>, seq<nat>) -> bool
    requires 0 < size
  {
    (a, b) =>
      var key := KeyWorkload(workloads, size);
      key(a) > key(b) || (key(a) == key(b) && First(a) > First(b))
  }

  function Evens<T>(s: seq<T>): (r: seq<T>)
    ensures |r| == (|s| + 1) / 2 && forall i :: 0 <= i < |r| ==> r[i] == s[2 * i]
  {
    seq((|s| + 1) / 2, i requires 0 <= i < (|s| + 1) / 2 => s[2 * i])
  }

  function Odds<T>(s: seq<T>): (r: seq<T>)
    ensures |r| == |s| / 2 && forall i :: 0 <= i < |r| ==> r[i] == s[2 * i + 1]
  {
    seq(|s| / 2, i requires 0 <= i < |s| / 2 => s[2 * i + 1])
  }

  /** Every second element in reverse, then the others: the smallest go to both ends. */
  function Interleave<T>(s: seq<T>): seq<T> {
    Reversed(Evens(s)) + Odds(s)
  }

  lemma {:induction false} EvensAndOdds<T>(s: seq<T>)
    ensures multiset(Evens(s)) + multiset(Odds(s)) == multiset(s)
  {
    if s == [] {
    } else {
      var front, last := s[..|s| - 1], s[|s| - 1];
      assert s == front + [last];
      EvensAndOdds(front);
      if |s| % 2 == 1 {
        assert Evens(s) == Evens(front) + [last] && Odds(s) == Odds(front);
      } else {
        assert Evens(s) == Evens(front) && Odds(s) == Odds(front) + [last];
      }
    }
  }

  lemma {:induction false} InterleavePermutes<T>(s: seq<T>)
    ensures multiset(Interleave(s)) == multiset(s)
  {
    ReversedBag(Evens(s));
    EvensAndOdds(s);
  }

  /** Rising up to the peak, falling from there on. */
  ghost predicate Hill<T>(s: seq<T>, key: T -> int, peak: nat) {
    && (forall i, j :: 0 <= i <= j <= peak && j < |s| ==> key(s[i]) <= key(s[j]))
    && (forall i, j :: peak <= i <= j < |s| ==> key(s[i]) >= key(s[j]))
  }

  lemma InterleaveIsHill<T(!new)>(s: seq<T>, key: T -> int)
    requires Falling(s, key) && s != []
    ensures Hill(Interleave(s), key, (|s| - 1) / 2)
  {
    var r, peak := Interleave(s), (|s| - 1) / 2;
    assert |Evens(s)| == peak + 1;
    forall i | 0 <= i < |r|
      ensures r[i] == if i <= peak then s[2 * (peak - i)] else s[2 * (i - peak) - 1]
    {
    }
  }

  /** The index lists of the micro-batches, made from a partition of the groups. */
  function Arranged(parts: seq<seq<nat>>, workloads: seq<int>, size: nat, balance: bool): seq<seq<nat>>
    requires 0 < size
  {
    var lists := Map(parts, ExpandBy(size));
    if balance then Interleave(SortBy(lists, HeavierFirst(workloads, size))) else lists
  }

  /** The index lists that a sequence of merges leads to, for `k` micro-batches of groups of `size` samples. */
  function Batches(lengths: seq<nat>, size: nat, k: nat, balance: bool, picks: seq<Pick>): seq<seq<nat>>
    requires 0 < size && 0 < k && ValidPicks(|InitialPool(GroupWorkloads(lengths, size), k, false)|, picks)
  {
    var workloads := GroupWorkloads(lengths, size);
    Arranged(Map(PartitionBy(workloads, k, false, picks), SortedPart), workloads, size, balance)
  }

  lemma ArrangedPermutes(parts: seq<seq<nat>>, workloads: seq<int>, size: nat, balance: bool)
    requires 0 < size
    ensures multiset(Arranged(parts, workloads, size, balance)) == multiset(Map(parts, ExpandBy(size)))
  {
    var lists := Map(parts, ExpandBy(size));
    if balance {
      SortPermutes(lists, HeavierFirst(workloads, size));
      InterleavePermutes(SortBy(lists, HeavierFirst(workloads, size)));
    }
  }

  /** Whatever the order, the lists are a partition of the batch into whole groups. */
  lemma ArrangedIsPartition(parts: seq<seq<nat>>, workloads: seq<int>, n: nat, size: nat, balance: bool)
    requires 0 < size && IsPartition(parts, n)
    ensures
      var lists := Arranged(parts, workloads, size, balance);
      && |lists| == |parts| && IsPartition(lists, Times(n, size))
      && forall list <- lists :: exists part <- parts :: list == Expand(part, size)
  {
    var lists := Arranged(parts, workloads, size, balance);
    var expanded := Map(parts, ExpandBy(size));
    ArrangedPermutes(parts, workloads, size, balance);
    SameSize(lists, expanded);
    ExpandPartition(parts, n, size);
    ConcatPermutes(lists, expanded);
    forall list <- lists
      ensures exists part <- parts :: list == Expand(part, size)
    {
      assert list in multiset(expanded);
      var i :| 0 <= i < |parts| && expanded[i] == list;
      assert parts[i] in parts;
    }
  }

  /** With balancing, the lightest micro-batches stand at the ends. */
  lemma ArrangedIsHill(parts: seq<seq<nat>>, workloads: seq<int>, size: nat)
    requires 0 < size && parts != []
    ensures Hill(Arranged(parts, workloads, size, true), KeyWorkload(workloads, size), (|parts| - 1) / 2)
  {
    var lists := Map(parts, ExpandBy(size));
    SortPermutes(lists, HeavierFirst(workloads, size));
    SortSorts(lists, HeavierFirst(workloads, size), KeyWorkload(workloads, size));
    InterleaveIsHill(SortBy(lists, HeavierFirst(workloads, size)), KeyWorkload(workloads, size));
  }

  /** The loops that turn lists of groups into lists of samples. */
  method ExpandGroups(parts: seq<seq<nat>>, size: nat) returns (lists: seq<seq<nat>>)
    ensures lists == Map(parts, ExpandBy(size))
  {
    lists := [];
    for i := 0 to |parts|
      invariant lists == Map(parts[..i], ExpandBy(size))
    {
      var samples: seq<nat> := [];
      for j := 0 to |parts[i]|
        invariant samples == Expand(parts[i][..j], size)
      {
        var start := parts[i][j] * size;
        TimesIsProduct(parts[i][j], size);
        samples := samples + seq(size, k => start + k);
        assert parts[i][..j + 1] == parts[i][..j] + [parts[i][j]];
        ExpandAppend(parts[i][..j], [parts[i][j]], size);
        assert Expand([parts[i][j]], size) == GroupOf(parts[i][j], size) + Expand([parts[i][j]][1..], size);
      }
      assert parts[i][..|parts[i]|] == parts[i];
      lists := lists + [samples];
    }
    assert parts[..|parts|] == parts;
  }

  lemma {:induction false} ExpandSingles(groups: seq<nat>)
    ensures Expand(groups, 1) == groups
  {
    if groups == [] {
    } else {
      TimesIsProduct(groups[0], 1);
      ExpandSingles(groups[1..]);
    }
  }

  lemma ExpandAllSingles(parts: seq<seq<nat>>)
    ensures Map(parts, ExpandBy(1)) == parts
  {
    forall i | 0 <= i < |parts|
      ensures ExpandBy(1)(parts[i]) == parts[i]
    {
      ExpandSingles(parts[i]);
    }
  }

  /**
   `rearrange_micro_batches`: the index lists, without the slicing of the tensors. The call succeeds
   exactly when the number of micro-batches can be determined; nothing in the partitioning fails then.
   */
  method RearrangeMicroBatches(lengths: seq<nat>, s: Settings, balance: bool)
    returns (r: Result<seq<seq<nat>>, RearrangeError>, ghost picks: seq<Pick>)
    ensures r.Failure? <==> MicroBatchCount(lengths, s).Failure?
    ensures r.Failure? ==> r.error == MicroBatchCount(lengths, s).error
    ensures r.Success? ==>
      var k, workloads := MicroBatchCount(lengths, s).value, GroupWorkloads(lengths, s.groupSize);
      && 0 < k && 0 < s.groupSize && Uniform(InitialPool(workloads, k, false), k)
      && ValidPicks(|InitialPool(workloads, k, false)|, picks) && HeapPicks(InitialPool(workloads, k, false), picks, k)
      && r.value == Batches(lengths, s.groupSize, k, balance, picks)
  {
    picks := [];
    var count := MicroBatchCount(lengths, s);
    if count.Failure? { return Failure(count.error), picks; }
    var k, size := count.value, s.groupSize;
    var workloads := if size > 1 then GroupWorkloads(lengths, size) else Map(lengths, WorkloadInt);
    SingleWorkloads(lengths);
    TimesQuotient(|lengths|, size);
    GroupCount(lengths, size, |lengths| / size);
    var found;
    found, picks := GetSeqlenBalancedPartitions(workloads, k, false);
    var lists := found.value;
    if size > 1 {
      lists := ExpandGroups(lists, size);
    } else {
      ExpandAllSingles(lists);
    }
    if balance {
      lists := SortBy(lists, HeavierFirst(workloads, size));
      lists := Interleave(lists);
    }
    return Success(lists), picks;
  }

  lemma Origin(lists: seq<seq<nat>>, raw: seq<seq<nat>>, size: nat, list: seq<nat>) returns (p: nat)
    requires list in lists
    requires forall list <- lists :: exists part <- Map(raw, SortedPart) :: list == Expand(part, size)
    ensures p < |raw| && list == Expand(SortedPart(raw[p]), size)
  {
    var part :| part in Map(raw, SortedPart) && list == Expand(part, size);
    p :| 0 <= p < |raw| && SortedPart(raw[p]) == part;
  }

  lemma ExpandNonEmpty(groups: seq<nat>, size: nat)
    requires groups != [] && 0 < size
    ensures Expand(groups, size) != []
  {
    assert GroupOf(groups[0], size)[0] in Expand(groups, size);
  }

  lemma ExpandedWorkload(part: seq<nat>, workloads: seq<int>, size: nat)
    requires 0 < size
    ensures ListWorkload(Expand(SortedPart(part), size), workloads, size) == PartSum(workloads, part)
  {
    ExpandWorkload(SortedPart(part), workloads, size);
    SortPermutes(part, IndexBefore);
    SumPermutes(SortedPart(part), part, ValueAt(workloads));
  }

  lemma ArrangedBatches(workloads: seq<int>, k: nat, size: nat, balance: bool, picks: seq<Pick>)
    requires 0 < k <= |workloads| && 0 < size && ValidPicks(|InitialPool(workloads, k, false)|, picks)
    requires forall w <- workloads :: 0 <= w
    ensures
      var lists := Arranged(Map(PartitionBy(workloads, k, false, picks), SortedPart), workloads, size, balance);
      var key := KeyWorkload(workloads, size);
      && |lists| == k && IsPartition(lists, Times(|workloads|, size))
      && (forall list <- lists :: list != [] && KeepsGroups(list, size))
      && (forall a <- lists, b <- lists :: key(a) - key(b) <= Largest(workloads))
      && (balance ==> Hill(lists, key, (k - 1) / 2))
  {
    var raw := PartitionBy(workloads, k, false, picks);
    var parts := Map(raw, SortedPart);
    var lists := Arranged(parts, workloads, size, balance);
    hide PartitionBy, InitialPool, ValidPicks, Arranged, PartSum, Largest, Hill, Expand, ListWorkload, KeepsGroups, SortedPart;
    ExactPartition(workloads, k, false, picks);
    SortedPartitions(raw, |workloads|);
    ArrangedIsPartition(parts, workloads, |workloads|, size, balance);
    forall list <- lists
      ensures list != [] && KeepsGroups(list, size)
    {
      var p := Origin(lists, raw, size, list);
      UsedPartitions(workloads, k, false, picks, p);
      SortedPartIncreases(raw[p]);
      ExpandKeepsGroups(SortedPart(raw[p]), size);
      ExpandNonEmpty(SortedPart(raw[p]), size);
    }
    forall a <- lists, b <- lists
      ensures KeyWorkload(workloads, size)(a) - KeyWorkload(workloads, size)(b) <= Largest(workloads)
    {
      var p := Origin(lists, raw, size, a);
      var q := Origin(lists, raw, size, b);
      SpreadBound(workloads, k, false, picks, p, q);
      ExpandedWorkload(raw[p], workloads, size);
      ExpandedWorkload(raw[q], workloads, size);
    }
    if balance {
      ArrangedIsHill(parts, workloads, size);
    }
  }

  lemma CountFits(lengths: seq<nat>, s: Settings)
    requires MicroBatchCount(lengths, s).Success?
    ensures 0 < s.groupSize && |lengths| % s.groupSize == 0
    ensures 0 < MicroBatchCount(lengths, s).value <= |lengths| / s.groupSize
  {
  }

  /**
   What a caller may rely on: every sample is in exactly one micro-batch, once; the samples of a group
   are in the same one; there are as many as determined and none is empty; no micro-batch outweighs
   another by more than the heaviest group; and with balancing the lightest stand at the ends.
   */
  lemma {:induction false} RearrangedBatches(lengths: seq<nat>, s: Settings, balance: bool, picks: seq<Pick>)
    requires MicroBatchCount(lengths, s).Success?
    requires
      var k, workloads := MicroBatchCount(lengths, s).value, GroupWorkloads(lengths, s.groupSize);
      0 < k && 0 < s.groupSize && ValidPicks(|InitialPool(workloads, k, false)|, picks)
    ensures
      var k, workloads := MicroBatchCount(lengths, s).value, GroupWorkloads(lengths, s.groupSize);
      var lists := Batches(lengths, s.groupSize, k, balance, picks);
      var key := KeyWorkload(workloads, s.groupSize);
      && |lists| == k && IsPartition(lists, |lengths|)
      && (forall list <- lists :: list != [] && KeepsGroups(list, s.groupSize))
      && (forall a <- lists, b <- lists :: key(a) - key(b) <= Largest(workloads))
      && (balance ==> Hill(lists, key, (k - 1) / 2))
  {
    CountFits(lengths, s);
    hide MicroBatchCount, GroupWorkloads, PartitionBy, InitialPool, Arranged, KeepsGroups, Hill, Largest, IsPartition;
    var k, size := MicroBatchCount(lengths, s).value, s.groupSize;
    TimesQuotient(|lengths|, size);
    GroupCount(lengths, size, |lengths| / size);
    ArrangedBatches(GroupWorkloads(lengths, size), k, size, balance, picks);
  }

  // ---------------------------------------------------------------- restoring the order

  datatype RestoreError = SizeMismatch | IndexOutOfRange

  ghost predicate AllBelow(indices: seq<nat>, n: nat) {
    forall i :: 0 <= i < |indices| ==> indices[i] < n
  }

  /** The rows at the given indices. */
  function Select<T>(rows: seq<T>, indices: seq<nat>): (r: seq<T>)
    requires AllBelow(indices, |rows|)
    ensures |r| == |indices|
  {
    seq(|indices|, i requires 0 <= i < |indices| => rows[indices[i]])
  }

  /** The last position at which `x` stands in the first `n` elements, or `otherwise`. */
  function LastPlace(indices: seq<nat>, x: nat, n: nat, otherwise: nat): nat
    requires n <= |indices|
  {
    if n == 0 then otherwise
    else if indices[n - 1] == x then n - 1
    else LastPlace(indices, x, n - 1, otherwise)
  }

  ghost function ReverseOf(idxMap: seq<nat>): (r: seq<nat>)
    ensures |r| == |idxMap|
  {
    seq(|idxMap|, x requires 0 <= x < |idxMap| => LastPlace(idxMap, x, |idxMap|, idxMap[x]))
  }

  lemma PlacesStart(indices: seq<nat>)
    ensures forall x :: 0 <= x < |indices| ==> LastPlace(indices, x, 0, indices[x]) == indices[x]
  {
  }

  lemma PlacesGoOn(indices: seq<nat>, i: nat)
    requires i < |indices|
    ensures forall x :: 0 <= x < |indices| ==>
      LastPlace(indices, x, i + 1, indices[x]) == if indices[i] == x then i else LastPlace(indices, x, i, indices[x])
    ensures |indices| <= indices[i] ==> !AllBelow(indices, |indices|)
  {
  }

  lemma PlacesEnd(indices: seq<nat>, reverse: seq<nat>)
    requires |reverse| == |indices|
    requires forall j :: 0 <= j < |indices| ==> indices[j] < |indices|
    requires forall x :: 0 <= x < |indices| ==> reverse[x] == LastPlace(indices, x, |indices|, indices[x])
    ensures AllBelow(indices, |indices|) && reverse == ReverseOf(indices)
  {
  }

  /** `get_reverse_idx`: a copy of the map, overwritten in place. */
  method GetReverseIdx(idxMap: seq<nat>) returns (r: Result<seq<nat>, RestoreError>)
    ensures r == if AllBelow(idxMap, |idxMap|) then Success(ReverseOf(idxMap)) else Failure(IndexOutOfRange)
  {
    var reverse := new nat[|idxMap|](i requires 0 <= i < |idxMap| => idxMap[i]);
    hide LastPlace, AllBelow, ReverseOf;
    PlacesStart(idxMap);
    for i := 0 to |idxMap|
      invariant forall j :: 0 <= j < i ==> idxMap[j] < |idxMap|
      invariant forall x :: 0 <= x < |idxMap| ==> reverse[x] == LastPlace(idxMap, x, i, idxMap[x])
    {
      PlacesGoOn(idxMap, i);
      if idxMap[i] >= reverse.Length { return Failure(IndexOutOfRange); }
      reverse[idxMap[i]] := i;
    }
    PlacesEnd(idxMap, reverse[..]);
    return Success(reverse[..]);
  }

  lemma {:induction false} OnlyPlace(indices: seq<nat>, x: nat, n: nat, otherwise: nat, i: nat)
    requires i < n <= |indices| && indices[i] == x && forall a, b :: 0 <= a < b < |indices| ==> indices[a] != indices[b]
    ensures LastPlace(indices, x, n, otherwise) == i
  {
    if n == i + 1 {
    } else {
      OnlyPlace(indices, x, n - 1, otherwise, i);
    }
  }

  /** A place is a position, or what stood there before. */
  lemma {:induction false} PlaceBelow(indices: seq<nat>, x: nat, n: nat, otherwise: nat)
    requires n <= |indices| && otherwise < |indices|
    ensures LastPlace(indices, x, n, otherwise) < |indices|
  {
    if n == 0 || indices[n - 1] == x {
    } else {
      PlaceBelow(indices, x, n - 1, otherwise);
    }
  }

  lemma ReverseBelow(indices: seq<nat>)
    requires AllBelow(indices, |indices|)
    ensures AllBelow(ReverseOf(indices), |indices|)
  {
    forall x | 0 <= x < |indices|
      ensures ReverseOf(indices)[x] < |indices|
    {
      PlaceBelow(indices, x, |indices|, indices[x]);
    }
  }

  lemma {:induction false} LastPlaceExactly(indices: seq<nat>, x: nat, n: nat, otherwise: nat)
    requires n <= |indices|
    ensures
      var p := LastPlace(indices, x, n, otherwise);
      if exists i :: 0 <= i < n && indices[i] == x then
        p < n && indices[p] == x && forall i :: p < i < n ==> indices[i] != x
      else p == otherwise
  {
    if n == 0 || indices[n - 1] == x {
    } else {
      LastPlaceExactly(indices, x, n - 1, otherwise);
    }
  }

  /** For any map: an index is reversed to the last position at which it stands, or stays as it was. */
  lemma {:induction false} ReverseExactly(indices: seq<nat>, x: nat)
    requires x < |indices|
    ensures
      var p := ReverseOf(indices)[x];
      if x in indices then p < |indices| && indices[p] == x && forall i :: p < i < |indices| ==> indices[i] != x
      else p == indices[x]
  {
    LastPlaceExactly(indices, x, |indices|, indices[x]);
  }

  /** The reverse of a permutation is undone by it. */
  lemma {:induction false} ReverseInverts(indices: seq<nat>, n: nat, x: nat)
    requires multiset(indices) == multiset(Range(n)) && x < n
    ensures x < |indices| && ReverseOf(indices)[x] < |indices| && indices[ReverseOf(indices)[x]] == x
  {
    RangePermutation(indices, n);
    assert x in indices;
    var i :| 0 <= i < |indices| && indices[i] == x;
    OnlyPlace(indices, x, n, indices[x], i);
  }

  /** What `restore_dynamic_batch` computes: the rows of the concatenated micro-batches, rearranged. */
  ghost function Restored<T>(data: seq<T>, lists: seq<seq<nat>>): Result<seq<T>, RestoreError> {
    var indices := Concat(lists);
    if |indices| != |data| then Failure(SizeMismatch)
    else if !AllBelow(indices, |indices|) then Failure(IndexOutOfRange)
    else
      ReverseBelow(indices);
      Success(Select(data, ReverseOf(indices)))
  }

  method RestoreDynamicBatch<T>(data: seq<T>, lists: seq<seq<nat>>) returns (r: Result<seq<T>, RestoreError>)
    ensures r == Restored(data, lists)
  {
    var indices := Concat(lists);
    if |indices| != |data| { return Failure(SizeMismatch); }
    var reverse := GetReverseIdx(indices);
    if reverse.Failure? { return Failure(reverse.error); }
    ReverseBelow(indices);
    return Success(Select(data, reverse.value));
  }

  /** The rows of the micro-batches, one micro-batch after the other. */
  function RowsOf<T>(rows: seq<T>, lists: seq<seq<nat>>): seq<T>
    requires AllBelow(Concat(lists), |rows|)
  {
    if lists == [] then []
    else
      assert AllBelow(lists[0], |rows|) && AllBelow(Concat(lists[1..]), |rows|) by {
        assert Concat(lists)[..|lists[0]|] == lists[0] && Concat(lists)[|lists[0]|..] == Concat(lists[1..]);
      }
      Select(rows, lists[0]) + RowsOf(rows, lists[1..])
  }

  lemma {:induction false} RowsOfSelect<T>(rows: seq<T>, lists: seq<seq<nat>>)
    requires AllBelow(Concat(lists), |rows|)
    ensures RowsOf(rows, lists) == Select(rows, Concat(lists))
  {
    if lists == [] {
    } else {
      var all := Concat(lists);
      assert all[..|lists[0]|] == lists[0] && all[|lists[0]|..] == Concat(lists[1..]);
      RowsOfSelect(rows, lists[1..]);
    }
  }

  /** Taking the rows of the micro-batches and restoring gives back every row at its place. */
  lemma {:induction false} RestoreRoundTrip<T>(rows: seq<T>, lists: seq<seq<nat>>)
    requires IsPartition(lists, |rows|)
    ensures AllBelow(Concat(lists), |rows|)
    ensures Restored(RowsOf(rows, lists), lists) == Success(rows)
  {
    var indices := Concat(lists);
    RangePermutation(indices, |rows|);
    RowsOfSelect(rows, lists);
    ReverseBelow(indices);
    var restored := Select(RowsOf(rows, lists), ReverseOf(indices));
    forall x | 0 <= x < |rows|
      ensures restored[x] == rows[x]
    {
      ReverseInverts(indices, |rows|, x);
    }
    assert restored == rows;
  }

  /** Restoring is refused exactly for another number of rows, or for an index that is no position. */
  lemma {:induction false} RestoreRefused<T>(data: seq<T>, lists: seq<seq<nat>>)
    ensures Restored(data, lists) == Failure(SizeMismatch) <==> |Concat(lists)| != |data|
    ensures Restored(data, lists) == Failure(IndexOutOfRange) <==>
      |Concat(lists)| == |data| && exists x <- Concat(lists) :: |data| <= x
  {
    var indices := Concat(lists);
    assert forall i :: 0 <= i < |indices| ==> indices[i] in indices;
  }
}
