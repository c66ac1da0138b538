/** The greedy partition told from its lists alone (utils/seqlen_balancing.py). */
module GreedyChoices {
  import opened Permutations
  import opened IndexPartitions
  import opened GreedyPartition

  /** The weight of the items of `part` that come before item `x`. */
  function WeightBefore(values: seq<int>, bias: int, part: seq<nat>, x: nat): int {
    if part == [] then 0
    else
      var y := part[|part| - 1];
      WeightBefore(values, bias, part[..|part| - 1], x) + if y < x && y < |values| then values[y] + bias else 0
  }

  /** By the items before `x`, list `p` is not heavier than any list, and lighter than the lists before it. */
  ghost predicate FirstLightest(values: seq<int>, bias: int, parts: seq<seq<nat>>, p: nat, x: nat)
    requires p < |parts|
  {
    forall q :: 0 <= q < |parts| ==>
      && WeightBefore(values, bias, parts[p], x) <= WeightBefore(values, bias, parts[q], x)
      && (q < p ==> WeightBefore(values, bias, parts[p], x) < WeightBefore(values, bias, parts[q], x))
  }

  /** Every item is in the first of the lists that were the lightest before it. */
  ghost predicate AllFirst(values: seq<int>, bias: int, parts: seq<seq<nat>>)
  {
    forall p, x :: 0 <= p < |parts| && x in parts[p] ==> FirstLightest(values, bias, parts, p, x)
  }

  /** The lists ascend, and every item is in the first of the lists that were the lightest before it. */
  ghost predicate Chosen(values: seq<int>, bias: int, parts: seq<seq<nat>>) {
    && (forall p :: 0 <= p < |parts| ==> Ascending(parts[p]))
    && AllFirst(values, bias, parts)
  }

  ghost predicate AllBefore(parts: seq<seq<nat>>, n: nat) {
    forall p, x :: 0 <= p < |parts| && x in parts[p] ==> x < n
  }

  lemma WeightNext(values: seq<int>, bias: int, part: seq<nat>, y: nat, x: nat)
    requires y < |values|
    ensures WeightBefore(values, bias, part + [y], x)
         == WeightBefore(values, bias, part, x) + if y < x then values[y] + bias else 0
  {
    assert (part + [y])[..|part|] == part;
  }

  lemma {:induction false} WeightSame(values: seq<int>, bias: int, part: seq<nat>, n: nat)
    requires forall i :: 0 <= i < |part| ==> part[i] < n
    ensures WeightBefore(values, bias, part, n + 1) == WeightBefore(values, bias, part, n)
  {
    if part != [] {
      WeightSame(values, bias, part[..|part| - 1], n);
    }
  }

  /** The choice for an item depends only on the items before it. */
  lemma ChoiceKept(values: seq<int>, bias: int, parts: seq<seq<nat>>, m: nat, n: nat, p: nat, x: nat)
    requires m < |parts| && p < |parts| && x <= n < |values|
    ensures FirstLightest(values, bias, parts[m := parts[m] + [n]], p, x) <==> FirstLightest(values, bias, parts, p, x)
  {
    hide WeightBefore;
    var more := parts[m := parts[m] + [n]];
    forall q | 0 <= q < |parts|
      ensures WeightBefore(values, bias, more[q], x) == WeightBefore(values, bias, parts[q], x)
    {
      WeightNext(values, bias, parts[m], n, x);
    }
  }

  lemma AscendsNext(part: seq<nat>, n: nat)
    requires forall y <- part :: y < n
    ensures Ascending(part + [n]) <==> Ascending(part)
  {
    assert forall i :: 0 <= i < |part| ==> (part + [n])[i] == part[i] && part[i] in part;
  }

  lemma FirstNext(values: seq<int>, bias: int, parts: seq<seq<nat>>, m: nat, n: nat)
    requires m < |parts| && n < |values| && AllBefore(parts, n)
    ensures
      var more := parts[m := parts[m] + [n]];
      AllFirst(values, bias, more) <==> AllFirst(values, bias, parts) && FirstLightest(values, bias, parts, m, n)
  {
    hide FirstLightest;
    var more := parts[m := parts[m] + [n]];
    forall p, x: nat | 0 <= p < |parts| && x <= n
      ensures FirstLightest(values, bias, more, p, x) <==> FirstLightest(values, bias, parts, p, x)
    {
      ChoiceKept(values, bias, parts, m, n, p, x);
    }
    assert n in more[m];
    assert forall p, x :: 0 <= p < |parts| && x in parts[p] ==> x in more[p];
  }

  /** An item that is behind all others joins chosen lists: they stay so if and only if it goes to the lightest. */
  lemma ChosenNext(values: seq<int>, bias: int, parts: seq<seq<nat>>, m: nat, n: nat)
    requires m < |parts| && n < |values| && AllBefore(parts, n)
    ensures Chosen(values, bias, parts[m := parts[m] + [n]])
       <==> Chosen(values, bias, parts) && FirstLightest(values, bias, parts, m, n)
  {
    hide FirstLightest, Ascending;
    var more := parts[m := parts[m] + [n]];
    AscendsNext(parts[m], n);
    FirstNext(values, bias, parts, m, n);
    assert forall p :: 0 <= p < |parts| && p != m ==> more[p] == parts[p];
  }

  lemma NoWeights(values: seq<int>, bias: int, k: nat)
    requires 0 < k
    ensures
      var load := AssignAll(values, bias, k, 0);
      && AllBefore(load.parts, 0)
      && forall p :: 0 <= p < k ==> load.sums[p] == WeightBefore(values, bias, load.parts[p], 0)
  {
  }

  lemma {:induction false} SumsAreWeights(values: seq<int>, bias: int, k: nat, n: nat)
    requires 0 < k && n <= |values|
    ensures
      var load := AssignAll(values, bias, k, n);
      && AllBefore(load.parts, n)
      && forall p :: 0 <= p < k ==> load.sums[p] == WeightBefore(values, bias, load.parts[p], n)
  {
    hide WeightBefore, Lightest;
    if n == 0 {
      NoWeights(values, bias, k);
    } else {
      SumsAreWeights(values, bias, k, n - 1);
      var load := AssignAll(values, bias, k, n - 1);
      var m, next := Lightest(load.sums), AssignAll(values, bias, k, n);
      forall p | 0 <= p < k
        ensures next.sums[p] == WeightBefore(values, bias, next.parts[p], n)
      {
        assert forall i :: 0 <= i < |load.parts[p]| ==> load.parts[p][i] in load.parts[p];
        WeightSame(values, bias, load.parts[p], n - 1);
        WeightNext(values, bias, load.parts[m], n - 1, n);
      }
    }
  }

  lemma FirstSmallest(sums: seq<int>, p: nat)
    requires p < |sums|
    ensures (forall q :: 0 <= q < |sums| ==> sums[p] <= sums[q] && (q < p ==> sums[p] < sums[q])) <==> p == Lightest(sums)
  {
    hide Lightest;
    var m := Lightest(sums);
    assert sums[m] <= sums[p] && (p < m ==> sums[m] < sums[p]);
  }

  /** Lists whose weights before `x` are known. */
  lemma LightestOf(values: seq<int>, bias: int, load: Load, p: nat, x: nat)
    requires p < |load.parts| == |load.sums|
    requires forall q :: 0 <= q < |load.parts| ==> load.sums[q] == WeightBefore(values, bias, load.parts[q], x)
    ensures FirstLightest(values, bias, load.parts, p, x) <==> p == Lightest(load.sums)
  {
    hide WeightBefore, Lightest;
    FirstSmallest(load.sums, p);
    if FirstLightest(values, bias, load.parts, p, x) {
      assert forall q :: 0 <= q < |load.sums| ==> load.sums[p] <= load.sums[q] && (q < p ==> load.sums[p] < load.sums[q]);
    }
  }

  lemma LightestIsFirst(values: seq<int>, bias: int, k: nat, n: nat, p: nat)
    requires 0 < k && n <= |values| && p < k
    ensures
      var load := AssignAll(values, bias, k, n);
      FirstLightest(values, bias, load.parts, p, n) <==> p == Lightest(load.sums)
  {
    hide WeightBefore, AssignAll, FirstLightest, Lightest;
    SumsAreWeights(values, bias, k, n);
    LightestOf(values, bias, AssignAll(values, bias, k, n), p, n);
  }

  lemma AssignedNext(values: seq<int>, bias: int, k: nat, n: nat)
    requires 0 < k && 0 < n <= |values|
    ensures
      var load := AssignAll(values, bias, k, n - 1);
      var m := Lightest(load.sums);
      AssignAll(values, bias, k, n).parts == load.parts[m := load.parts[m] + [n - 1]]
  {
  }

  lemma SameWithout<T>(a: multiset<T>, b: multiset<T>, x: T)
    requires a + multiset{x} == b + multiset{x}
    ensures a == b
  {
    assert a == (a + multiset{x}) - multiset{x};
    assert b == (b + multiset{x}) - multiset{x};
  }

  lemma FrontPartition(front: seq<seq<nat>>, p: nat, n: nat)
    requires 0 < n && p < |front| && IsPartition(front[p := front[p] + [n - 1]], n)
    ensures IsPartition(front, n - 1) && AllBefore(front, n - 1)
  {
    hide Concat;
    var last: nat := n - 1;
    ConcatUpdate(front, p, last);
    assert Range(n) == Range(last) + [last];
    SameWithout(multiset(Concat(front)), multiset(Range(last)), last);
    RangePermutation(Concat(front), n - 1);
    forall q, x | 0 <= q < |front| && x in front[q]
      ensures x < n - 1
    {
      InPart(front, q, x);
    }
  }

  lemma HasLast(parts: seq<seq<nat>>, n: nat)
    requires 0 < n && IsPartition(parts, n)
    ensures n - 1 in Concat(parts)
  {
    hide Concat;
    RangePermutation(Concat(parts), n);
  }

  lemma EndsWith(parts: seq<seq<nat>>, p: nat, n: nat)
    requires p < |parts| && IsPartition(parts, n) && Ascending(parts[p]) && n - 1 in parts[p]
    ensures parts[p] != [] && parts[p] == parts[p][..|parts[p]| - 1] + [n - 1]
  {
    hide Concat;
    var part := parts[p];
    var last := part[|part| - 1];
    RangePermutation(Concat(parts), n);
    InPart(parts, p, last);
    var i :| 0 <= i < |part| && part[i] == n - 1;
    assert last < n;
    assert i == |part| - 1;
  }

  /** The last item ends the list that holds it. */
  lemma LastItem(parts: seq<seq<nat>>, n: nat) returns (p: nat, front: seq<seq<nat>>)
    requires 0 < n && IsPartition(parts, n) && forall p :: 0 <= p < |parts| ==> Ascending(parts[p])
    ensures p < |parts| == |front| && parts == front[p := front[p] + [n - 1]]
    ensures IsPartition(front, n - 1) && AllBefore(front, n - 1)
  {
    hide Concat, Range, IsPartition, Ascending, AllBefore;
    var last: nat := n - 1;
    HasLast(parts, n);
    p := InConcat(parts, last);
    EndsWith(parts, p, n);
    front := parts[p := parts[p][..|parts[p]| - 1]];
    assert front[p := front[p] + [last]] == parts;
    FrontPartition(front, p, n);
  }

  lemma NothingChosen(values: seq<int>, bias: int, parts: seq<seq<nat>>)
    requires parts != [] && IsPartition(parts, 0)
    ensures Chosen(values, bias, parts) && parts == AssignAll(values, bias, |parts|, 0).parts
  {
    hide Concat;
    RangePermutation(Concat(parts), 0);
    forall p | 0 <= p < |parts|
      ensures parts[p] == []
    {
      if parts[p] != [] {
        InPart(parts, p, parts[p][0]);
        assert false;
      }
    }
  }

  lemma AllAscend(values: seq<int>, bias: int, parts: seq<seq<nat>>)
    requires Chosen(values, bias, parts)
    ensures forall p :: 0 <= p < |parts| ==> Ascending(parts[p])
  {
  }

  lemma AssignedIsChosen(values: seq<int>, bias: int, k: nat, n: nat)
    requires 0 < k && 0 < n <= |values| && Chosen(values, bias, AssignAll(values, bias, k, n - 1).parts)
    ensures Chosen(values, bias, AssignAll(values, bias, k, n).parts)
  {
    hide Chosen, FirstLightest, AssignAll;
    var load := AssignAll(values, bias, k, n - 1);
    var m := Lightest(load.sums);
    SumsAreWeights(values, bias, k, n - 1);
    AssignedNext(values, bias, k, n);
    LightestIsFirst(values, bias, k, n - 1, m);
    ChosenNext(values, bias, load.parts, m, n - 1);
  }

  /** The greedy partition is the only one whose lists ascend and take every item when they are the first lightest. */
  lemma {:induction false} GreedyExactly(values: seq<int>, bias: int, parts: seq<seq<nat>>, n: nat)
    requires parts != [] && n <= |values| && IsPartition(parts, n)
    ensures Chosen(values, bias, parts) <==> parts == AssignAll(values, bias, |parts|, n).parts
    decreases n
  {
    hide AssignAll, IsPartition, Chosen;
    if n == 0 {
      NothingChosen(values, bias, parts);
    } else {
      var load := AssignAll(values, bias, |parts|, n - 1);
      GreedyPartitions(values, bias, |parts|, n - 1);
      GreedyExactly(values, bias, load.parts, n - 1);
      AssignedIsChosen(values, bias, |parts|, n);
      if Chosen(values, bias, parts) {
        AllAscend(values, bias, parts);
        var p, front := LastItem(parts, n);
        ChosenNext(values, bias, front, p, n - 1);
        GreedyExactly(values, bias, front, n - 1);
        LightestIsFirst(values, bias, |parts|, n - 1, p);
        AssignedNext(values, bias, |parts|, n);
      }
    }
  }
}
