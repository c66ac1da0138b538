/** The guarantees of the largest differencing method, for every order of merges. */
module KarmarkarKarpTheorems {
  import opened Arithmetic
  import opened Permutations
  import opened IndexPartitions
  import opened KarmarkarKarp
  import opened KarmarkarKarpBounds

  function Final(values: seq<int>, k: nat, equalSize: bool, picks: seq<Pick>): State
    requires 0 < k && (equalSize ==> |values| % k == 0) && ValidPicks(|InitialPool(values, k, equalSize)|, picks)
  {
    InitialItems(values, k, equalSize);
    ReduceBy(InitialPool(values, k, equalSize), picks, k)
  }

  /** The partitions that come out when the states are merged in the given order. */
  function PartitionBy(values: seq<int>, k: nat, equalSize: bool, picks: seq<Pick>): seq<seq<nat>>
    requires 0 < k && (equalSize ==> |values| % k == 0) && ValidPicks(|InitialPool(values, k, equalSize)|, picks)
  {
    Partitions(Final(values, k, equalSize, picks))
  }

  lemma FinalItems(values: seq<int>, k: nat, equalSize: bool, picks: seq<Pick>)
    requires 0 < k && (equalSize ==> |values| % k == 0) && ValidPicks(|InitialPool(values, k, equalSize)|, picks)
    ensures multiset(StateItems(Final(values, k, equalSize, picks))) == multiset(Indexed(values))
    ensures |Final(values, k, equalSize, picks)| == k
  {
    InitialItems(values, k, equalSize);
    ReduceItems(InitialPool(values, k, equalSize), picks, k);
    ReduceKeeps(InitialPool(values, k, equalSize), picks, k, s => true);
  }

  // ---------------------------------------------------------------- an exact partition

  lemma PartitionsItems(s: State)
    ensures Concat(Partitions(s)) == Map(StateItems(s), Idx)
  {
    MapConcat(Map(s, ItemsOf), Idx);
    assert Partitions(s) == Map(Map(s, ItemsOf), items => Map(items, Idx));
  }

  lemma {:induction false} ExactPartition(values: seq<int>, k: nat, equalSize: bool, picks: seq<Pick>)
    requires 0 < k && (equalSize ==> |values| % k == 0) && ValidPicks(|InitialPool(values, k, equalSize)|, picks)
    ensures |PartitionBy(values, k, equalSize, picks)| == k
    ensures IsPartition(PartitionBy(values, k, equalSize, picks), |values|)
  {
    var s := Final(values, k, equalSize, picks);
    FinalItems(values, k, equalSize, picks);
    PartitionsItems(s);
    MapPermutes(StateItems(s), Indexed(values), Idx);
    assert Map(Indexed(values), Idx) == Range(|values|);
  }

  // ---------------------------------------------------------------- the spread

  /** The sums are right, decreasing, and at most `d` apart. */
  ghost predicate Close(s: State, d: int) {
    && (forall i :: 0 <= i < |s| ==> s[i].sum == SumBy(s[i].items, Val))
    && (forall i, j :: 0 <= i < |s| && 0 <= j < |s| ==> s[i].sum - s[j].sum <= d)
    && Falling(s, SumOf)
  }

  lemma SortedCloses(sets: seq<Set>, d: int)
    requires forall i :: 0 <= i < |sets| ==> sets[i].sum == SumBy(sets[i].items, Val)
    requires forall i, j :: 0 <= i < |sets| && 0 <= j < |sets| ==> sets[i].sum - sets[j].sum <= d
    ensures Close(Sorted(sets), d)
  {
    SortPermutes(sets, SetGreater);
    SortSorts(sets, SetGreater, SumOf);
    var s := Sorted(sets);
    forall i | 0 <= i < |s|
      ensures s[i] in sets
    {
      assert s[i] in multiset(sets);
    }
  }

  /** The difference of one state is made up for by that of the other. */
  lemma {:induction false} MergeCloses(a: State, b: State, d: int)
    requires |a| == |b| && Close(a, d) && Close(b, d)
    ensures Close(Merge(a, b), d)
  {
    var raw := Paired(a, b);
    forall i | 0 <= i < |raw|
      ensures raw[i].sum == SumBy(raw[i].items, Val)
    {
      SumConcat(a[i].items, b[|a| - 1 - i].items, Val);
    }
    forall i, j | 0 <= i < |raw| && 0 <= j < |raw|
      ensures raw[i].sum - raw[j].sum <= d
    {
      var i', j' := |a| - 1 - i, |a| - 1 - j;
      assert SumOf(a[i]) == a[i].sum && SumOf(a[j]) == a[j].sum && SumOf(b[i']) == b[i'].sum && SumOf(b[j']) == b[j'].sum;
      assert i <= j ==> b[i'].sum <= b[j'].sum;
      assert j <= i ==> a[i].sum <= a[j].sum;
    }
    SortedCloses(raw, d);
  }

  function Largest(values: seq<int>): (m: int)
    ensures 0 <= m && (forall i :: 0 <= i < |values| ==> values[i] <= m) && (m == 0 || m in values)
  {
    if values == [] then 0
    else
      var m := Largest(values[1..]);
      if values[0] > m then values[0] else m
  }

  /** The largest difference inside a block of `k` consecutive items. */
  function LargestGap(items: seq<Item>, k: nat): (d: int)
    requires 0 < k
    ensures 0 <= d
  {
    if |items| < k then 0
    else
      var d := LargestGap(items[k..], k);
      if items[k - 1].val - items[0].val > d then items[k - 1].val - items[0].val else d
  }

  /** The difference across the `b`-th block of `k` items. */
  function BlockGap(items: seq<Item>, k: nat, b: nat): int
    requires 0 < k && (b + 1) * k <= |items|
  {
    items[(b + 1) * k - 1].val - items[b * k].val
  }

  lemma BlockBehind(items: seq<Item>, k: nat, b: nat)
    requires 0 < k <= |items| && ((b + 1) * k <= |items| - k || (b + 2) * k <= |items|)
    ensures (b + 1) * k <= |items[k..]| && (b + 2) * k <= |items|
    ensures BlockGap(items, k, b + 1) == BlockGap(items[k..], k, b)
  {
    assert (b + 2) * k == (b + 1) * k + k == b * k + k + k;
  }

  /** The largest gap is that of some block, unless none is positive, and no block has a larger one. */
  lemma {:induction false} LargestGapExactly(items: seq<Item>, k: nat)
    requires 0 < k
    ensures forall b: nat {:trigger BlockGap(items, k, b)} | (b + 1) * k <= |items| ::
              BlockGap(items, k, b) <= LargestGap(items, k)
    ensures LargestGap(items, k) == 0
         || exists b: nat {:trigger BlockGap(items, k, b)} ::
              (b + 1) * k <= |items| && BlockGap(items, k, b) == LargestGap(items, k)
  {
    if |items| >= k {
      LargestGapExactly(items[k..], k);
      forall b: nat {:trigger BlockGap(items, k, b)} | (b + 1) * k <= |items|
        ensures BlockGap(items, k, b) <= LargestGap(items, k)
      {
        if b > 0 {
          BlockBehind(items, k, b - 1);
        }
      }
      if LargestGap(items, k) != 0 && BlockGap(items, k, 0) != LargestGap(items, k) {
        var b: nat :| (b + 1) * k <= |items[k..]| && BlockGap(items[k..], k, b) == LargestGap(items[k..], k);
        BlockBehind(items, k, b);
      }
    }
  }

  lemma NewStateCloses(items: seq<Item>, k: nat, d: int)
    requires 0 < |items| <= k
    requires forall i, j :: 0 <= i < |items| && 0 <= j < |items| ==> items[i].val - items[j].val <= d
    requires |items| < k ==> forall i :: 0 <= i < |items| ==> -d <= items[i].val <= d
    ensures Close(NewState(items, k), d)
  {
    var sets := Unsorted(items, k);
    forall i | 0 <= i < k
      ensures sets[i].sum == SumBy(sets[i].items, Val)
    {
      if i < |items| {
        assert [items[i]][1..] == [];
      }
    }
    forall i, j | 0 <= i < k && 0 <= j < k
      ensures sets[i].sum - sets[j].sum <= d
    {
      var a, b := if i < |items| then i else 0, if j < |items| then j else 0;
      assert items[a].val - items[b].val <= d;
    }
    SortedCloses(sets, d);
  }

  lemma {:induction false} SinglesClose(items: seq<Item>, k: nat, d: int)
    requires 0 < k && 0 <= d && forall i :: 0 <= i < |items| ==> 0 <= items[i].val <= d
    ensures forall s <- Singles(items, k) :: Close(s, d)
  {
    if items == [] {
    } else {
      NewStateCloses(items[..1], k, d);
      SinglesClose(items[1..], k, d);
    }
  }

  ghost predicate Rising(items: seq<Item>) {
    forall i, j :: 0 <= i <= j < |items| ==> items[i].val <= items[j].val
  }

  lemma {:induction false} BlocksClose(items: seq<Item>, k: nat, d: int)
    requires 0 < k && Rising(items) && LargestGap(items, k) <= d
    ensures forall s <- Blocks(items, k) :: Close(s, d)
    decreases |items|
  {
    if |items| < k {
    } else {
      NewStateCloses(items[..k], k, d);
      BlocksClose(items[k..], k, d);
    }
  }

  lemma SortedRises(values: seq<int>)
    ensures Rising(SortedItems(values))
  {
    var fall := (item: Item) => -item.val;
    SortSorts(Indexed(values), ItemBefore, fall);
    var items := SortedItems(values);
    forall i, j | 0 <= i <= j < |items|
      ensures items[i].val <= items[j].val
    {
      assert fall(items[i]) >= fall(items[j]);
    }
  }

  lemma SortedBounded(values: seq<int>)
    requires forall v <- values :: 0 <= v
    ensures forall i :: 0 <= i < |SortedItems(values)| ==> 0 <= SortedItems(values)[i].val <= Largest(values)
  {
    var items := SortedItems(values);
    SortPermutes(Indexed(values), ItemBefore);
    forall i | 0 <= i < |items|
      ensures 0 <= items[i].val <= Largest(values)
    {
      assert items[i] in multiset(Indexed(values));
      var j :| 0 <= j < |values| && Indexed(values)[j] == items[i];
      assert values[j] in values;
    }
  }

  /** The promised distance of two sums. */
  function Bound(values: seq<int>, k: nat, equalSize: bool): int
    requires 0 < k
  {
    if equalSize then LargestGap(SortedItems(values), k) else Largest(values)
  }

  lemma FinalCloses(values: seq<int>, k: nat, equalSize: bool, picks: seq<Pick>)
    requires 0 < k && (equalSize ==> |values| % k == 0) && ValidPicks(|InitialPool(values, k, equalSize)|, picks)
    requires equalSize || forall v <- values :: 0 <= v
    ensures Close(Final(values, k, equalSize, picks), Bound(values, k, equalSize))
  {
    var d := Bound(values, k, equalSize);
    InitialItems(values, k, equalSize);
    if equalSize {
      SortedRises(values);
      BlocksClose(SortedItems(values), k, d);
    } else {
      SortedBounded(values);
      SinglesClose(SortedItems(values), k, d);
    }
    forall a, b | |a| == |b| == k && Close(a, d) && Close(b, d)
      ensures Close(Merge(a, b), d)
    {
      MergeCloses(a, b, d);
    }
    ReduceKeeps(InitialPool(values, k, equalSize), picks, k, s => Close(s, d));
  }

  lemma {:induction false} IndicesSum(values: seq<int>, items: seq<Item>)
    requires forall item <- items :: item.idx < |values| && item.val == values[item.idx]
    ensures PartSum(values, Map(items, Idx)) == SumBy(items, Val)
  {
    if items == [] {
    } else {
      IndicesSum(values, items[1..]);
      assert Map(items, Idx)[1..] == Map(items[1..], Idx);
    }
  }

  lemma {:induction false} ItemsInState(s: State, i: nat)
    requires i < |s|
    ensures multiset(s[i].items) <= multiset(StateItems(s))
  {
    ConcatWithout(Map(s, ItemsOf), i);
  }

  lemma FinalSums(values: seq<int>, k: nat, equalSize: bool, picks: seq<Pick>, p: nat)
    requires 0 < k && (equalSize ==> |values| % k == 0) && ValidPicks(|InitialPool(values, k, equalSize)|, picks)
    requires p < |Final(values, k, equalSize, picks)|
    ensures p < |PartitionBy(values, k, equalSize, picks)|
    ensures PartSum(values, PartitionBy(values, k, equalSize, picks)[p])
         == SumBy(Final(values, k, equalSize, picks)[p].items, Val)
  {
    var s := Final(values, k, equalSize, picks);
    FinalItems(values, k, equalSize, picks);
    ItemsInState(s, p);
    forall item <- s[p].items
      ensures item.idx < |values| && item.val == values[item.idx]
    {
      assert item in multiset(s[p].items);
      assert item in multiset(Indexed(values));
    }
    IndicesSum(values, s[p].items);
  }

  /**
   Whatever the order of the merges, no partition exceeds another by more than the largest item; with
   equal sizes, by more than the largest gap inside a block of `k` consecutive sorted values, and then
   the values may be negative. The partitions come in the decreasing order of their sums.
   */
  lemma {:induction false} SpreadBound(values: seq<int>, k: nat, equalSize: bool, picks: seq<Pick>, p: nat, q: nat)
    requires 0 < k && (equalSize ==> |values| % k == 0) && ValidPicks(|InitialPool(values, k, equalSize)|, picks)
    requires equalSize || forall v <- values :: 0 <= v
    requires p < k && q < k
    ensures
      var parts := PartitionBy(values, k, equalSize, picks);
      && |parts| == k
      && PartSum(values, parts[p]) - PartSum(values, parts[q]) <= Bound(values, k, equalSize)
      && (p <= q ==> PartSum(values, parts[p]) >= PartSum(values, parts[q]))
  {
    FinalItems(values, k, equalSize, picks);
    FinalCloses(values, k, equalSize, picks);
    var s := Final(values, k, equalSize, picks);
    assert p <= q ==> SumOf(s[p]) >= SumOf(s[q]);
    FinalSums(values, k, equalSize, picks, p);
    FinalSums(values, k, equalSize, picks, q);
  }

  lemma Distribute(k: nat, x: int, bound: int)
    requires 0 < k
    ensures (k - 1) * (x - bound) + x == k * x - (k - 1) * bound
  {
  }

  lemma Heaviest<T>(s: seq<T>, f: T -> int, p: nat, bound: int)
    requires p < |s| && forall q :: 0 <= q < |s| ==> f(s[p]) - f(s[q]) <= bound
    ensures |s| * f(s[p]) <= SumBy(s, f) + (|s| - 1) * bound
  {
    SumWithout(s, p, f);
    SumAtLeast(Without(s, p), f, f(s[p]) - bound);
    Distribute(|s|, f(s[p]), bound);
  }

  /** No partition is heavier than the mean by more than the bound: k * max <= total + (k - 1) * bound. */
  lemma {:induction false} MaxSumBound(values: seq<int>, k: nat, equalSize: bool, picks: seq<Pick>, p: nat)
    requires 0 < k && (equalSize ==> |values| % k == 0) && ValidPicks(|InitialPool(values, k, equalSize)|, picks)
    requires equalSize || forall v <- values :: 0 <= v
    requires p < k
    ensures
      var parts := PartitionBy(values, k, equalSize, picks);
      && |parts| == k
      && k * PartSum(values, parts[p]) <= Total(values) + (k - 1) * Bound(values, k, equalSize)
  {
    hide PartitionBy, Bound, IsPartition, PartSum;
    var parts, bound := PartitionBy(values, k, equalSize, picks), Bound(values, k, equalSize);
    ExactPartition(values, k, equalSize, picks);
    PartitionSum(values, parts, |values|);
    assert values[..|values|] == values;
    forall q | 0 <= q < k
      ensures PartSum(values, parts[p]) - PartSum(values, parts[q]) <= bound
    {
      SpreadBound(values, k, equalSize, picks, p, q);
    }
    Heaviest(parts, PartSums(values), p, bound);
  }

  // ---------------------------------------------------------------- equal sizes

  ghost predicate Even(s: State) {
    forall i, j :: 0 <= i < |s| && 0 <= j < |s| ==> |s[i].items| == |s[j].items|
  }

  lemma SortedEven(sets: seq<Set>)
    requires Even(sets)
    ensures Even(Sorted(sets))
  {
    SortPermutes(sets, SetGreater);
    forall i | 0 <= i < |sets|
      ensures Sorted(sets)[i] in sets
    {
      assert Sorted(sets)[i] in multiset(sets);
    }
  }

  lemma {:induction false} EvenSize(s: State, c: nat)
    requires forall i :: 0 <= i < |s| ==> |s[i].items| == c
    ensures |StateItems(s)| == Times(|s|, c)
  {
    if s == [] {
    } else {
      EvenSize(s[1..], c);
      assert Map(s, ItemsOf)[1..] == Map(s[1..], ItemsOf);
    }
  }

  lemma {:induction false} BlocksEven(items: seq<Item>, k: nat)
    requires 0 < k
    ensures forall s <- Blocks(items, k) :: Even(s)
    decreases |items|
  {
    if |items| < k {
    } else {
      SortedEven(Unsorted(items[..k], k));
      BlocksEven(items[k..], k);
    }
  }

  lemma FinalEven(values: seq<int>, k: nat, picks: seq<Pick>)
    requires 0 < k && |values| % k == 0 && ValidPicks(|InitialPool(values, k, true)|, picks)
    ensures Even(Final(values, k, true, picks))
  {
    InitialItems(values, k, true);
    BlocksEven(SortedItems(values), k);
    forall a, b | |a| == |b| == k && Even(a) && Even(b)
      ensures Even(Merge(a, b))
    {
      SortedEven(Paired(a, b));
    }
    ReduceKeeps(InitialPool(values, k, true), picks, k, s => Even(s));
  }

  lemma EvenCount(s: State, values: seq<int>, p: nat)
    requires Even(s) && p < |s| && multiset(StateItems(s)) == multiset(Indexed(values))
    ensures |Partitions(s)[p]| * |s| == |values|
  {
    hide StateItems;
    var c := |s[p].items|;
    EvenSize(s, c);
    SameSize(StateItems(s), Indexed(values));
    TimesIsProduct(|s|, c);
  }

  /** With `equal_size` every partition gets the same number of items, so the final assert cannot fail. */
  lemma {:induction false} EqualSizes(values: seq<int>, k: nat, picks: seq<Pick>, p: nat)
    requires 0 < k && |values| % k == 0 && ValidPicks(|InitialPool(values, k, true)|, picks)
    requires p < k
    ensures
      var parts := PartitionBy(values, k, true, picks);
      |parts| == k && |parts[p]| * k == |values|
  {
    FinalEven(values, k, picks);
    FinalItems(values, k, true, picks);
    var s := Final(values, k, true, picks);
    hide Final, InitialPool, ValidPicks;
    EvenCount(s, values, p);
  }

  // ---------------------------------------------------------------- no empty partition

  /** The sets in use come first, as many as there are items for. */
  ghost predicate Filled(s: State) {
    forall i :: 0 <= i < |s| ==> (s[i].items != [] <==> i < |StateItems(s)|)
  }

  /** Sums of non-negative items; an unused set weighs nothing. */
  ghost predicate Weighed(s: State) {
    forall i :: 0 <= i < |s| ==> 0 <= s[i].sum && 0 <= SumBy(s[i].items, Val) && (s[i].items == [] ==> s[i].sum == 0)
  }

  /** Ranks used sets of weight zero before unused ones. */
  function Rank(s: Set): int {
    2 * s.sum + Used(s)
  }

  lemma CountNext(s: State, n: nat)
    requires n < |s|
    ensures SumBy(s[..n + 1], Used) == SumBy(s[..n], Used) + Used(s[n])
  {
    assert s[..n + 1] == s[..n] + [s[n]];
    SumConcat(s[..n], [s[n]], Used);
    assert [s[n]][1..] == [];
  }

  lemma {:induction false} CountFirst(s: State, c: nat, n: nat)
    requires n <= |s| && forall i :: 0 <= i < n ==> (s[i].items != [] <==> i < c)
    ensures SumBy(s[..n], Used) == if c < n then c else n
  {
    if n == 0 {
    } else {
      CountFirst(s, c, n - 1);
      CountNext(s, n - 1);
    }
  }

  /** Used at both ends. */
  lemma {:induction false} CountEnds(s: State, x: nat, y: int, n: nat)
    requires n <= |s| && forall i :: 0 <= i < n ==> (s[i].items != [] <==> i < x || y <= i)
    ensures
      SumBy(s[..n], Used) ==
        (if x < n then x else n) + (var from := if x < y then y else x; if from < n then n - from else 0)
  {
    if n == 0 {
    } else {
      CountEnds(s, x, y, n - 1);
      CountNext(s, n - 1);
    }
  }

  lemma {:induction false} NoneUnused(s: State, n: nat)
    requires n <= |s|
    requires forall j :: 0 <= j < |s| && s[j].items == [] ==> exists i :: 0 <= i < j && s[i].items == []
    ensures forall i :: 0 <= i < n ==> s[i].items != []
  {
    if n == 0 {
    } else {
      NoneUnused(s, n - 1);
    }
  }

  lemma RankedUsedFirst(s: State) returns (c: nat)
    requires Weighed(s) && Falling(s, Rank)
    ensures c <= |s| && forall i :: 0 <= i < |s| ==> (s[i].items != [] <==> i < c)
  {
    hide SumBy;
    if j :| 0 <= j < |s| && s[j].items == [] && forall i :: 0 <= i < j ==> s[i].items != [] {
      c := j;
      forall i | c <= i < |s|
        ensures s[i].items == []
      {
        assert Rank(s[c]) >= Rank(s[i]);
      }
    } else {
      c := |s|;
      NoneUnused(s, |s|);
    }
  }

  lemma SortedWeighed(sets: seq<Set>)
    requires Weighed(sets)
    ensures Weighed(Sorted(sets)) && |Sorted(sets)| == |sets|
  {
    hide SumBy;
    var s := Sorted(sets);
    SortPermutes(sets, SetGreater);
    forall i | 0 <= i < |s|
      ensures s[i] in sets
    {
      assert s[i] in multiset(sets);
    }
  }

  /** After sorting, the used sets come first. */
  lemma SortedUsedFirst(sets: seq<Set>) returns (c: nat)
    requires Weighed(sets)
    ensures Weighed(Sorted(sets)) && |Sorted(sets)| == |sets|
    ensures c <= |sets| && c == SumBy(sets, Used)
    ensures forall i :: 0 <= i < |sets| ==> (Sorted(sets)[i].items != [] <==> i < c)
  {
    hide Weighed, Falling;
    var s := Sorted(sets);
    SortPermutes(sets, SetGreater);
    SumPermutes(s, sets, Used);
    SortedWeighed(sets);
    SortSorts(sets, SetGreater, Rank);
    c := RankedUsedFirst(s);
    CountFirst(s, c, |s|);
    assert s[..|s|] == s;
  }

  lemma PairedUsed(a: State, b: State)
    requires |a| == |b| && Weighed(a) && Weighed(b) && Filled(a) && Filled(b)
    ensures
      var raw, x, y := Paired(a, b), |StateItems(a)|, |a| - |StateItems(b)|;
      Weighed(raw) && forall i :: 0 <= i < |a| ==> (raw[i].items != [] <==> i < x || y <= i)
  {
    hide StateItems;
    var raw, k := Paired(a, b), |a|;
    forall i | 0 <= i < k
      ensures 0 <= raw[i].sum && 0 <= SumBy(raw[i].items, Val) && (raw[i].items == [] ==> raw[i].sum == 0)
      ensures raw[i].items != [] <==> i < |StateItems(a)| || k - |StateItems(b)| <= i
    {
      SumConcat(a[i].items, b[k - 1 - i].items, Val);
    }
  }

  lemma MergeFills(a: State, b: State)
    requires |a| == |b| && Weighed(a) && Weighed(b) && Filled(a) && Filled(b)
    ensures Weighed(Merge(a, b)) && Filled(Merge(a, b))
  {
    hide StateItems, Weighed;
    var raw, k := Paired(a, b), |a|;
    MergeItems(a, b);
    SameSize(StateItems(Merge(a, b)), StateItems(a) + StateItems(b));
    PairedUsed(a, b);
    var c := SortedUsedFirst(raw);
    CountEnds(raw, |StateItems(a)|, k - |StateItems(b)|, k);
    assert raw[..k] == raw;
  }

  lemma NewStateFills(items: seq<Item>, k: nat)
    requires |items| <= k && forall item <- items :: 0 <= item.val
    ensures Weighed(NewState(items, k)) && Filled(NewState(items, k))
  {
    var sets := Unsorted(items, k);
    forall i | 0 <= i < k
      ensures 0 <= sets[i].sum && (sets[i].items == [] ==> sets[i].sum == 0) && 0 <= SumBy(sets[i].items, Val)
    {
      if i < |items| {
        assert [items[i]][1..] == [];
      }
    }
    var c := SortedUsedFirst(sets);
    CountFirst(sets, |items|, k);
    assert sets[..k] == sets;
    NewStateItems(items, k);
    SameSize(StateItems(NewState(items, k)), items);
  }

  ghost predicate Sound(s: State) {
    s != [] && Weighed(s) && Filled(s) && StateItems(s) != []
  }

  lemma MergeSound(a: State, b: State)
    requires |a| == |b| && Sound(a) && Sound(b)
    ensures Sound(Merge(a, b))
  {
    MergeFills(a, b);
    MergeItems(a, b);
    SameSize(StateItems(Merge(a, b)), StateItems(a) + StateItems(b));
    SortPermutes(Paired(a, b), SetGreater);
  }

  lemma NewStateSound(items: seq<Item>, k: nat)
    requires 0 < |items| <= k && forall item <- items :: 0 <= item.val
    ensures Sound(NewState(items, k))
  {
    NewStateFills(items, k);
    NewStateItems(items, k);
    SameSize(StateItems(NewState(items, k)), items);
  }

  lemma {:induction false} SinglesSound(items: seq<Item>, k: nat)
    requires 0 < k && forall item <- items :: 0 <= item.val
    ensures forall i :: 0 <= i < |Singles(items, k)| ==> Sound(Singles(items, k)[i])
  {
    hide Sound, NewState;
    if items == [] {
    } else {
      NewStateSound(items[..1], k);
      SinglesSound(items[1..], k);
    }
  }

  lemma {:induction false} BlocksSound(items: seq<Item>, k: nat)
    requires 0 < k && forall item <- items :: 0 <= item.val
    ensures forall i :: 0 <= i < |Blocks(items, k)| ==> Sound(Blocks(items, k)[i])
    decreases |items|
  {
    hide Sound, NewState;
    if |items| < k {
    } else {
      NewStateSound(items[..k], k);
      BlocksSound(items[k..], k);
    }
  }

  lemma InitialSound(values: seq<int>, k: nat, equalSize: bool)
    requires 0 < k && (equalSize ==> |values| % k == 0) && forall v <- values :: 0 <= v
    ensures
      var pool := InitialPool(values, k, equalSize);
      forall i :: 0 <= i < |pool| ==> Sound(pool[i])
  {
    SortedBounded(values);
    if equalSize {
      BlocksSound(SortedItems(values), k);
    } else {
      SinglesSound(SortedItems(values), k);
    }
  }

  lemma FinalSound(values: seq<int>, k: nat, equalSize: bool, picks: seq<Pick>)
    requires 0 < k && (equalSize ==> |values| % k == 0) && ValidPicks(|InitialPool(values, k, equalSize)|, picks)
    requires forall v <- values :: 0 <= v
    ensures Sound(Final(values, k, equalSize, picks))
  {
    InitialItems(values, k, equalSize);
    InitialSound(values, k, equalSize);
    forall a, b | |a| == |b| == k && Sound(a) && Sound(b)
      ensures Sound(Merge(a, b))
    {
      MergeSound(a, b);
    }
    hide Sound;
    ReduceKeeps(InitialPool(values, k, equalSize), picks, k, s => Sound(s));
  }

  /**
   With as many items as partitions no partition is empty; with fewer, exactly the first ones are used.
   Items of weight zero count too: an empty set sorts behind a set of the same sum.
   */
  lemma {:induction false} UsedPartitions(values: seq<int>, k: nat, equalSize: bool, picks: seq<Pick>, p: nat)
    requires 0 < k && (equalSize ==> |values| % k == 0) && ValidPicks(|InitialPool(values, k, equalSize)|, picks)
    requires p < k && forall v <- values :: 0 <= v
    ensures
      var parts := PartitionBy(values, k, equalSize, picks);
      |parts| == k && (parts[p] != [] <==> p < |values|)
  {
    FinalSound(values, k, equalSize, picks);
    FinalItems(values, k, equalSize, picks);
    SameSize(StateItems(Final(values, k, equalSize, picks)), Indexed(values));
  }

  // ---------------------------------------------------------------- the heap

  ghost predicate NoRepeats(items: seq<Item>) {
    forall x :: multiset(items)[x] <= 1
  }

  /** States with something in their first set, and no item in two places. */
  ghost predicate Disjoint(pool: seq<State>) {
    NoRepeats(PoolItems(pool)) && forall i :: 0 <= i < |pool| ==> Sound(pool[i])
  }

  lemma {:induction false} ItemsLessTotal(a: seq<Item>, b: seq<Item>)
    requires |a| == |b| && a != b
    ensures ItemsLess(a, b) || ItemsLess(b, a)
  {
    if a[0] == b[0] {
      assert a[1..] != b[1..] by {
        assert a == [a[0]] + a[1..] && b == [b[0]] + b[1..];
      }
      ItemsLessTotal(a[1..], b[1..]);
    }
  }

  lemma SetLessTotal(a: Set, b: Set)
    requires a != b
    ensures SetLess(a, b) || SetLess(b, a)
  {
    if a.sum == b.sum && |a.items| == |b.items| {
      ItemsLessTotal(a.items, b.items);
    }
  }

  lemma InTwoStates(pool: seq<State>, i: nat, j: nat, x: Item)
    requires i < j < |pool| && x in multiset(StateItems(pool[i])) && x in multiset(StateItems(pool[j]))
    ensures multiset(PoolItems(pool))[x] >= 2
  {
    hide PoolItems, StateItems;
    PoolWithout(pool, i);
    assert Without(pool, i)[j - 1] == pool[j];
    PoolWithout(Without(pool, i), j - 1);
  }

  /** Different states of the pool have different first sets. */
  lemma FirstsDiffer(pool: seq<State>, i: nat, j: nat)
    requires Disjoint(pool) && i < j < |pool|
    ensures pool[i] != [] && pool[j] != [] && pool[i][0] != pool[j][0]
  {
    assert Sound(pool[i]) && Sound(pool[j]);
    if pool[i][0] == pool[j][0] {
      var x := pool[i][0].items[0];
      assert x in multiset(pool[i][0].items);
      ItemsInState(pool[i], 0);
      ItemsInState(pool[j], 0);
      InTwoStates(pool, i, j, x);
    }
  }

  /** What a heap yields: the largest spread, and among those the largest first set. */
  lemma {:induction false} LeastSpreads(pool: seq<State>, i: nat, k: nat, j: nat)
    requires 0 < k && Uniform(pool, k) && Least(pool, i, k) && j < |pool|
    ensures Spread(pool[j]) <= Spread(pool[i])
    ensures Spread(pool[j]) == Spread(pool[i]) ==> !SetLess(pool[i][0], pool[j][0])
  {
    assert !StateLess(pool[j], pool[i]);
  }

  /** There is only one state that a heap can yield. */
  lemma LeastUnique(a: seq<State>, i: nat, b: seq<State>, j: nat, k: nat)
    requires 0 < k && Uniform(a, k) && Uniform(b, k) && multiset(a) == multiset(b) && Disjoint(a)
    requires i < |a| && j < |b| && Least(a, i, k) && Least(b, j, k)
    ensures a[i] == b[j]
  {
    hide StateLess, Least, SetLess, Spread;
    if a[i] != b[j] {
      assert b[j] in multiset(a) && a[i] in multiset(b);
      var m :| 0 <= m < |a| && a[m] == b[j];
      var n :| 0 <= n < |b| && b[n] == a[i];
      LeastSpreads(a, i, k, m);
      LeastSpreads(b, j, k, n);
      if m < i { FirstsDiffer(a, m, i); } else { FirstsDiffer(a, i, m); }
      SetLessTotal(a[i][0], a[m][0]);
    }
  }

  lemma DisjointRest(pool: seq<State>, i: nat)
    requires Disjoint(pool) && i < |pool|
    ensures Disjoint(Without(pool, i))
  {
    PoolWithout(pool, i);
    forall x
      ensures multiset(PoolItems(Without(pool, i)))[x] <= 1
    {
      assert multiset(PoolItems(pool))[x] <= 1;
    }
  }

  lemma SameRepeats(a: seq<Item>, b: seq<Item>)
    requires multiset(a) == multiset(b) && NoRepeats(a)
    ensures NoRepeats(b)
  {
    forall x
      ensures multiset(b)[x] <= 1
    {
      assert multiset(a)[x] <= 1;
    }
  }

  lemma DisjointStep(pool: seq<State>, pick: Pick, k: nat)
    requires Disjoint(pool) && Uniform(pool, k) && 0 < k && pick.first < |pool| && pick.second < |pool| - 1
    ensures |pool[pick.first]| == |Without(pool, pick.first)[pick.second]|
    ensures Disjoint(Step(pool, pick))
  {
    hide Sound, PoolItems, Merge;
    StepUniform(pool, pick, k);
    StepItems(pool, pick, k);
    MergeSound(pool[pick.first], Without(pool, pick.first)[pick.second]);
    SameRepeats(PoolItems(pool), PoolItems(Step(pool, pick)));
  }

  lemma SameRest<T>(a: seq<T>, i: nat, b: seq<T>, j: nat)
    requires multiset(a) == multiset(b) && i < |a| && j < |b| && a[i] == b[j]
    ensures multiset(Without(a, i)) == multiset(Without(b, j))
  {
    WithoutBag(a, i);
    WithoutBag(b, j);
    assert multiset(Without(a, i)) == multiset(a) - multiset{a[i]};
    assert multiset(Without(b, j)) == multiset(b) - multiset{b[j]};
  }

  lemma SameStep(a: seq<State>, p: Pick, b: seq<State>, q: Pick, k: nat)
    requires 0 < k && Uniform(a, k) && Uniform(b, k) && multiset(a) == multiset(b) && Disjoint(a)
    requires p.first < |a| && p.second < |a| - 1 && q.first < |b| && q.second < |b| - 1
    requires Least(a, p.first, k) && Least(Without(a, p.first), p.second, k)
    requires Least(b, q.first, k) && Least(Without(b, q.first), q.second, k)
    ensures |a[p.first]| == |Without(a, p.first)[p.second]| && |b[q.first]| == |Without(b, q.first)[q.second]|
    ensures multiset(Step(a, p)) == multiset(Step(b, q))
  {
    hide Disjoint, Least, Merge;
    var restA, restB := Without(a, p.first), Without(b, q.first);
    LeastUnique(a, p.first, b, q.first, k);
    SameRest(a, p.first, b, q.first);
    DisjointRest(a, p.first);
    LeastUnique(restA, p.second, restB, q.second, k);
    SameRest(restA, p.second, restB, q.second);
  }

  /** However the heap is laid out, its pops lead to the same state. */
  lemma {:induction false} HeapLayoutIrrelevant(
      a: seq<State>, picksA: seq<Pick>, b: seq<State>, picksB: seq<Pick>, k: nat)
    requires 0 < k && Uniform(a, k) && Uniform(b, k) && multiset(a) == multiset(b) && Disjoint(a)
    requires ValidPicks(|a|, picksA) && ValidPicks(|b|, picksB)
    requires HeapPicks(a, picksA, k) && HeapPicks(b, picksB, k)
    ensures ReduceBy(a, picksA, k) == ReduceBy(b, picksB, k)
    decreases |a|
  {
    hide Disjoint, Least, Merge, Step;
    SameSize(a, b);
    if |a| == 1 {
      assert a[0] in multiset(b);
    } else {
      StepUniform(a, picksA[0], k);
      StepUniform(b, picksB[0], k);
      SameStep(a, picksA[0], b, picksB[0], k);
      DisjointStep(a, picksA[0], k);
      HeapLayoutIrrelevant(Step(a, picksA[0]), picksA[1..], Step(b, picksB[0]), picksB[1..], k);
    }
  }

  lemma {:induction false} IndexedOnce(values: seq<int>, n: nat, x: Item)
    requires n <= |values|
    ensures multiset(Indexed(values[..n]))[x] <= (if x.idx < n then 1 else 0)
  {
    if n == 0 {
    } else {
      assert Indexed(values[..n]) == Indexed(values[..n - 1]) + [Item(n - 1, values[n - 1])];
      IndexedOnce(values, n - 1, x);
    }
  }

  lemma InitialDisjoint(values: seq<int>, k: nat, equalSize: bool)
    requires 0 < k && (equalSize ==> |values| % k == 0) && forall v <- values :: 0 <= v
    ensures Disjoint(InitialPool(values, k, equalSize))
  {
    InitialItems(values, k, equalSize);
    InitialSound(values, k, equalSize);
    forall x
      ensures multiset(PoolItems(InitialPool(values, k, equalSize)))[x] <= 1
    {
      IndexedOnce(values, |values|, x);
      assert values[..|values|] == values;
    }
  }

  /** The heap never has a choice: its pops determine the partitions. */
  lemma {:induction false} HeapDecides(values: seq<int>, k: nat, equalSize: bool, picksA: seq<Pick>, picksB: seq<Pick>)
    requires 0 < k && (equalSize ==> |values| % k == 0) && forall v <- values :: 0 <= v
    requires Uniform(InitialPool(values, k, equalSize), k)
    requires var pool := InitialPool(values, k, equalSize); ValidPicks(|pool|, picksA) && HeapPicks(pool, picksA, k)
    requires var pool := InitialPool(values, k, equalSize); ValidPicks(|pool|, picksB) && HeapPicks(pool, picksB, k)
    ensures PartitionBy(values, k, equalSize, picksA) == PartitionBy(values, k, equalSize, picksB)
  {
    var pool := InitialPool(values, k, equalSize);
    InitialDisjoint(values, k, equalSize);
    HeapLayoutIrrelevant(pool, picksA, pool, picksB, k);
  }
}
