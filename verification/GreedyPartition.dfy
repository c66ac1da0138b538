/** The greedy partition (utils/seqlen_balancing.py): every item goes to the lightest partition so far. */
module GreedyPartition {
  import opened Wrappers
  import opened Arithmetic
  import opened Permutations
  import opened IndexPartitions
  import opened KarmarkarKarpTheorems

  /** The partitions and their sums, which include a bias for every item. */
  datatype Load = Load(parts: seq<seq<nat>>, sums: seq<int>)

  datatype GreedyError = NoPartition | SizesDiffer

  /** The first of the smallest sums. */
  function Lightest(sums: seq<int>): (m: nat)
    requires sums != []
    ensures m < |sums| && forall j :: 0 <= j < |sums| ==> sums[m] <= sums[j]
    ensures forall j :: 0 <= j < m ==> sums[m] < sums[j]
  {
    var front := sums[..|sums| - 1];
    if front == [] then 0
    else
      var m := Lightest(front);
      if sums[|sums| - 1] < sums[m] then |sums| - 1 else m
  }

  function Assign(load: Load, item: nat, weight: int): (next: Load)
    requires load.sums != [] && |load.parts| == |load.sums|
    ensures |next.parts| == |next.sums| == |load.sums|
  {
    var m := Lightest(load.sums);
    Load(load.parts[m := load.parts[m] + [item]], load.sums[m := load.sums[m] + weight])
  }

  function NoParts(k: nat): (parts: seq<seq<nat>>)
    ensures |parts| == k
  {
    seq(k, i => [])
  }

  /** The load after the first `n` items. */
  function AssignAll(values: seq<int>, bias: int, k: nat, n: nat): (load: Load)
    requires 0 < k && n <= |values|
    ensures |load.parts| == |load.sums| == k
  {
    if n == 0 then Load(NoParts(k), seq(k, i => 0))
    else Assign(AssignAll(values, bias, k, n - 1), n - 1, values[n - 1] + bias)
  }

  function Bias(values: seq<int>, equalSize: bool): int {
    if equalSize then Total(values) + 1 else 0
  }

  /** The inner loop over the partitions. */
  method FindLightest(sums: seq<int>) returns (minIdx: Option<nat>)
    ensures minIdx == if sums == [] then None else Some(Lightest(sums))
  {
    minIdx := None;
    for j := 0 to |sums|
      invariant minIdx == if j == 0 then None else Some(Lightest(sums[..j]))
    {
      assert sums[..j + 1][..j] == sums[..j];
      if minIdx.None? || sums[j] < sums[minIdx.value] {
        minIdx := Some(j);
      }
    }
    assert sums[..|sums|] == sums;
  }

  predicate AllOfSize(parts: seq<seq<nat>>, k: nat, n: nat) {
    forall part <- parts :: |part| * k == n
  }

  /** The loop over the final assert. */
  method CheckSizes(parts: seq<seq<nat>>, k: nat, n: nat) returns (even: bool)
    ensures even <==> AllOfSize(parts, k, n)
  {
    for i := 0 to |parts|
      invariant AllOfSize(parts[..i], k, n)
    {
      if |parts[i]| * k != n {
        assert parts[i] in parts;
        return false;
      }
    }
    assert parts[..|parts|] == parts;
    return true;
  }

  /** The loop over the items. */
  method AssignItems(values: seq<int>, bias: int, k: nat) returns (r: Option<seq<seq<nat>>>)
    ensures k == 0 ==> r == if values == [] then Some([]) else None
    ensures 0 < k ==> r == Some(AssignAll(values, bias, k, |values|).parts)
  {
    hide NoParts, Lightest;
    var parts: seq<seq<nat>>, sums: seq<int> := NoParts(k), seq(k, i => 0);
    for i := 0 to |values|
      invariant |parts| == |sums| == k && (k == 0 ==> i == 0)
      invariant 0 < k ==> Load(parts, sums) == AssignAll(values, bias, k, i)
    {
      var minIdx := FindLightest(sums);
      if minIdx.None? { return None; }
      var m := minIdx.value;
      parts := parts[m := parts[m] + [i]];
      sums := sums[m := sums[m] + (values[i] + bias)];
    }
    return Some(parts);
  }

  method Greedy(values: seq<int>, k: nat, equalSize: bool) returns (r: Result<seq<seq<nat>>, GreedyError>)
    ensures k == 0 ==> r == if values == [] then Success([]) else Failure(NoPartition)
    ensures 0 < k ==>
      var parts := AssignAll(values, Bias(values, equalSize), k, |values|).parts;
      r == if equalSize && !AllOfSize(parts, k, |values|) then Failure(SizesDiffer) else Success(parts)
  {
    var found := AssignItems(values, Bias(values, equalSize), k);
    if found.None? { return Failure(NoPartition); }
    var parts := found.value;
    if equalSize {
      var even := CheckSizes(parts, k, |values|);
      if !even { return Failure(SizesDiffer); }
    }
    return Success(parts);
  }

  // ---------------------------------------------------------------- every item once

  lemma ConcatUpdate(parts: seq<seq<nat>>, m: nat, item: nat)
    requires m < |parts|
    ensures multiset(Concat(parts[m := parts[m] + [item]])) == multiset(Concat(parts)) + multiset{item}
  {
    var next := parts[m := parts[m] + [item]];
    ConcatWithout(parts, m);
    ConcatWithout(next, m);
    assert Without(next, m) == Without(parts, m);
  }

  lemma {:induction false} EmptyConcat(k: nat)
    ensures Concat(NoParts(k)) == []
  {
    if k == 0 {
    } else {
      EmptyConcat(k - 1);
      assert NoParts(k)[1..] == NoParts(k - 1);
    }
  }

  /** An assignment adds its item to a partition. */
  lemma AssignPartition(load: Load, item: nat, weight: int)
    requires load.sums != [] && |load.parts| == |load.sums| && IsPartition(load.parts, item)
    ensures IsPartition(Assign(load, item, weight).parts, item + 1)
  {
    hide Concat;
    ConcatUpdate(load.parts, Lightest(load.sums), item);
    assert Range(item + 1) == Range(item) + [item];
  }

  lemma NothingAssigned(k: nat)
    ensures IsPartition(NoParts(k), 0)
  {
    EmptyConcat(k);
    hide Concat, NoParts;
    assert Range(0) == [];
  }

  lemma {:induction false} GreedyPartitions(values: seq<int>, bias: int, k: nat, n: nat)
    requires 0 < k && n <= |values|
    ensures IsPartition(AssignAll(values, bias, k, n).parts, n)
  {
    hide IsPartition, Assign, NoParts, Lightest;
    if n == 0 {
      NothingAssigned(k);
    } else {
      var load := AssignAll(values, bias, k, n - 1);
      GreedyPartitions(values, bias, k, n - 1);
      AssignPartition(load, n - 1, values[n - 1] + bias);
    }
  }

  /** The sums are those of the values, plus the bias for every item. */
  lemma {:induction false} GreedySums(values: seq<int>, bias: int, k: nat, n: nat, p: nat)
    requires 0 < k && n <= |values| && p < k
    ensures
      var load := AssignAll(values, bias, k, n);
      load.sums[p] == PartSum(values, load.parts[p]) + |load.parts[p]| * bias
  {
    if n == 0 {
    } else {
      var load := AssignAll(values, bias, k, n - 1);
      GreedySums(values, bias, k, n - 1, p);
      if p == Lightest(load.sums) {
        SumConcat<nat>(load.parts[p], [n - 1], ValueAt(values));
        OneMore(|load.parts[p]|, bias);
      }
    }
  }

  // ---------------------------------------------------------------- the spread

  lemma {:induction false} SpreadKept(values: seq<int>, k: nat, n: nat, p: nat, q: nat)
    requires 0 < k && n <= |values| && p < k && q < k && forall v <- values :: 0 <= v
    ensures
      var load := AssignAll(values, 0, k, n);
      load.sums[p] - load.sums[q] <= Largest(values)
  {
    if n == 0 {
    } else {
      SpreadKept(values, k, n - 1, p, q);
      assert values[n - 1] in values;
    }
  }

  /** Without the bias no partition exceeds another by more than the largest item. */
  lemma {:induction false} GreedySpread(values: seq<int>, k: nat, p: nat, q: nat)
    requires 0 < k && p < k && q < k && forall v <- values :: 0 <= v
    ensures
      var parts := AssignAll(values, 0, k, |values|).parts;
      PartSum(values, parts[p]) - PartSum(values, parts[q]) <= Largest(values)
  {
    SpreadKept(values, k, |values|, p, q);
    GreedySums(values, 0, k, |values|, p);
    GreedySums(values, 0, k, |values|, q);
  }

  // ---------------------------------------------------------------- equal sizes

  lemma {:induction false} SumNonNegative(values: seq<int>, part: seq<nat>)
    requires forall v <- values :: 0 <= v
    ensures 0 <= PartSum(values, part)
  {
    if part == [] {
    } else {
      SumNonNegative(values, part[1..]);
      assert part[0] < |values| ==> values[part[0]] in values;
    }
  }

  lemma {:induction false} AllNonNegative(values: seq<int>, parts: seq<seq<nat>>)
    requires forall v <- values :: 0 <= v
    ensures 0 <= SumBy(parts, PartSums(values))
  {
    if parts == [] {
    } else {
      AllNonNegative(values, parts[1..]);
      SumNonNegative(values, parts[0]);
    }
  }

  lemma {:induction false} TotalGrows(values: seq<int>, n: nat)
    requires n <= |values| && forall v <- values :: 0 <= v
    ensures Total(values[..n]) <= Total(values)
    decreases |values| - n
  {
    if n == |values| {
      assert values[..n] == values;
    } else {
      TotalGrows(values, n + 1);
      assert values[n] in values;
      assert values[..n + 1] == values[..n] + [values[n]];
      SumConcat(values[..n], [values[n]], Self);
      assert [values[n]][1..] == [];
    }
  }

  /** No partition weighs more than all items together. */
  lemma PartBelowTotal(values: seq<int>, bias: int, k: nat, n: nat, p: nat)
    requires 0 < k && n <= |values| && p < k && forall v <- values :: 0 <= v
    ensures PartSum(values, AssignAll(values, bias, k, n).parts[p]) <= Total(values)
  {
    var parts := AssignAll(values, bias, k, n).parts;
    var f := ValueAt(values);
    GreedyPartitions(values, bias, k, n);
    PartitionSum(values, parts, n);
    SumWithout(parts, p, PartSums(values));
    AllNonNegative(values, Without(parts, p));
    TotalGrows(values, n);
  }

  /** A lighter sum means no more items: the bias outweighs all values. */
  lemma LighterIsSmaller(total: nat, sizeP: nat, sumP: int, sizeQ: nat, sumQ: int)
    requires 0 <= sumP && sumQ <= total && sumP + sizeP * (total + 1) <= sumQ + sizeQ * (total + 1)
    ensures sizeP <= sizeQ
  {
    if sizeP > sizeQ {
      OneMore(sizeQ, total + 1);
      TimesMonotone(sizeQ + 1, sizeP, total + 1);
    }
  }

  /** With the bias, the lightest partition is also a smallest one. */
  lemma LightestIsSmallest(values: seq<int>, k: nat, n: nat, q: nat)
    requires 0 < k && n <= |values| && q < k && forall v <- values :: 0 <= v
    ensures
      var load := AssignAll(values, Total(values) + 1, k, n);
      |load.parts[Lightest(load.sums)]| <= |load.parts[q]|
  {
    var bias := Total(values) + 1;
    var load := AssignAll(values, bias, k, n);
    hide AssignAll, PartSum;
    var m := Lightest(load.sums);
    var p, r := load.parts[m], load.parts[q];
    GreedySums(values, bias, k, n, m);
    GreedySums(values, bias, k, n, q);
    SumNonNegative(values, p);
    SumNonNegative(values, r);
    PartBelowTotal(values, bias, k, n, q);
    LighterIsSmaller(Total(values), |p|, PartSum(values, p), |r|, PartSum(values, r));
  }

  lemma AssignSizes(load: Load, item: nat, weight: int, p: nat, q: nat)
    requires load.sums != [] && |load.parts| == |load.sums| && p < |load.parts| && q < |load.parts|
    requires |load.parts[p]| <= |load.parts[q]| + 1 && |load.parts[Lightest(load.sums)]| <= |load.parts[q]|
    ensures |Assign(load, item, weight).parts[p]| <= |Assign(load, item, weight).parts[q]| + 1
  {
  }

  /** With the bias, the sizes of any two partitions differ by at most one at every step. */
  lemma {:induction false} SizesWithinOne(values: seq<int>, k: nat, n: nat, p: nat, q: nat)
    requires 0 < k && n <= |values| && p < k && q < k && forall v <- values :: 0 <= v
    ensures
      var parts := AssignAll(values, Total(values) + 1, k, n).parts;
      |parts[p]| <= |parts[q]| + 1
  {
    hide Total, Assign;
    if n == 0 {
    } else {
      SizesWithinOne(values, k, n - 1, p, q);
      LightestIsSmallest(values, k, n - 1, q);
      AssignSizes(AssignAll(values, Total(values) + 1, k, n - 1), n - 1, values[n - 1] + (Total(values) + 1), p, q);
    }
  }

  lemma Squeeze(n: nat, k: nat, size: nat)
    requires 0 < k && n % k == 0 && size + (k - 1) * (size - 1) <= n <= size + (k - 1) * (size + 1)
    ensures size * k == n
  {
    var q := n / k;
    assert size + (k - 1) * (size - 1) == (size - 1) * k + 1 && size + (k - 1) * (size + 1) == (size + 1) * k - 1;
    if q < size {
      TimesMonotone(q, size - 1, k);
    } else if q > size {
      TimesMonotone(size + 1, q, k);
    }
  }

  /** When `k` divides the number of items, sizes within one of each other are equal. */
  lemma EqualWhenDivisible(parts: seq<seq<nat>>, n: nat, p: nat)
    requires p < |parts| && IsPartition(parts, n) && n % |parts| == 0
    requires forall i, j :: 0 <= i < |parts| && 0 <= j < |parts| ==> |parts[i]| <= |parts[j]| + 1
    ensures |parts[p]| * |parts| == n
  {
    var k, size := |parts|, |parts[p]|;
    PartitionSize(parts, n);
    SumWithout(parts, p, Size);
    var rest := Without(parts, p);
    SumAtLeast(rest, Size, size - 1);
    SumAtMost(rest, Size, size + 1);
    Squeeze(n, k, size);
  }

  /** The final assert of the equal-size variant holds exactly when `k` divides the number of items. */
  lemma {:induction false} GreedyEqualSizes(values: seq<int>, k: nat)
    requires 0 < k && forall v <- values :: 0 <= v
    ensures
      var parts := AssignAll(values, Bias(values, true), k, |values|).parts;
      AllOfSize(parts, k, |values|) <==> |values| % k == 0
  {
    var parts := AssignAll(values, Bias(values, true), k, |values|).parts;
    if |values| % k == 0 {
      forall i, j | 0 <= i < k && 0 <= j < k
        ensures |parts[i]| <= |parts[j]| + 1
      {
        SizesWithinOne(values, k, |values|, i, j);
      }
      GreedyPartitions(values, Bias(values, true), k, |values|);
      forall p | 0 <= p < k
        ensures |parts[p]| * k == |values|
      {
        EqualWhenDivisible(parts, |values|, p);
      }
    } else {
      if |parts[0]| * k == |values| { QuotientIs(|values|, k, |parts[0]|, 0); }
      assert parts[0] in parts;
    }
  }
}
