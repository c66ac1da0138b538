/** Lists of indices that partition a list of values, and their sums. */
module IndexPartitions {
  import opened Permutations

  /** Every index below `n` is in exactly one of the lists, exactly once. */
  ghost predicate IsPartition(parts: seq<seq<nat>>, n: nat) {
    multiset(Concat(parts)) == multiset(Range(n))
  }

  ghost predicate Ascending(list: seq<nat>) {
    forall i, j :: 0 <= i < j < |list| ==> list[i] < list[j]
  }

  function ValueAt(values: seq<int>): nat -> int {
    (i: nat) => if i < |values| then values[i] else 0
  }

  /** The sum of the values that a partition selects. */
  function PartSum(values: seq<int>, part: seq<nat>): int {
    SumBy(part, ValueAt(values))
  }

  lemma {:induction false} RangeSum(values: seq<int>, n: nat)
    requires n <= |values|
    ensures SumBy(Range(n), ValueAt(values)) == Total(values[..n])
  {
    if n == 0 {
    } else {
      RangeSum(values, n - 1);
      assert Range(n) == Range(n - 1) + [n - 1] && values[..n] == values[..n - 1] + [values[n - 1]];
      SumConcat<nat>(Range(n - 1), [n - 1], ValueAt(values));
      SumConcat(values[..n - 1], [values[n - 1]], Self);
    }
  }

  function PartSums(values: seq<int>): seq<nat> -> int {
    part => PartSum(values, part)
  }

  /** The sums of a partition of the first `n` indices add up to the sum of the first `n` values. */
  lemma PartitionSum(values: seq<int>, parts: seq<seq<nat>>, n: nat)
    requires n <= |values| && IsPartition(parts, n)
    ensures SumBy(parts, PartSums(values)) == Total(values[..n])
  {
    var f := ValueAt(values);
    SumOfConcat(parts, f);
    SumPermutes(Concat(parts), Range(n), f);
    RangeSum(values, n);
    SameSums(parts, part => SumBy(part, f), PartSums(values));
  }

  function Size(part: seq<nat>): int {
    |part|
  }

  lemma {:induction false} SizeOfConcat(parts: seq<seq<nat>>)
    ensures |Concat(parts)| == SumBy(parts, Size)
  {
    if parts == [] {
    } else {
      SizeOfConcat(parts[1..]);
    }
  }

  lemma PartitionSize(parts: seq<seq<nat>>, n: nat)
    requires IsPartition(parts, n)
    ensures SumBy(parts, Size) == n
  {
    SizeOfConcat(parts);
    SameSize(Concat(parts), Range(n));
  }

  lemma {:induction false} InConcat(parts: seq<seq<nat>>, x: nat) returns (p: nat)
    requires x in Concat(parts)
    ensures p < |parts| && x in parts[p]
  {
    if x in parts[0] {
      p := 0;
    } else {
      p := InConcat(parts[1..], x);
      p := p + 1;
    }
  }

  lemma InPart(parts: seq<seq<nat>>, p: nat, x: nat)
    requires p < |parts| && x in parts[p]
    ensures x in Concat(parts)
  {
    ConcatWithout(parts, p);
    assert x in multiset(parts[p]);
    assert x in multiset(Concat(parts));
  }
}
