/** `karmarkar_karp` and `get_seqlen_balanced_partitions` on a pool of state objects. */
module BalancedPartitions {
  import opened Wrappers
  import opened Arithmetic
  import opened Permutations
  import opened IndexPartitions
  import opened KarmarkarKarp
  import opened KarmarkarKarpBounds
  import opened KarmarkarKarpTheorems
  import opened KarmarkarKarpClass

  // ---------------------------------------------------------------- the heap order is an order

  lemma {:induction false} ItemsLessTransitive(a: seq<Item>, b: seq<Item>, c: seq<Item>)
    requires ItemsLess(a, b) && ItemsLess(b, c)
    ensures ItemsLess(a, c)
  {
    if a != [] && a[0] == b[0] == c[0] {
      ItemsLessTransitive(a[1..], b[1..], c[1..]);
    }
  }

  lemma {:induction false} ItemsLessIrreflexive(a: seq<Item>)
    ensures !ItemsLess(a, a)
  {
    if a == [] {
    } else {
      ItemsLessIrreflexive(a[1..]);
    }
  }

  lemma StateLessTransitive(a: State, b: State, c: State)
    requires a != [] && b != [] && c != [] && StateLess(a, b) && StateLess(b, c)
    ensures StateLess(a, c)
  {
    if a[0].sum == b[0].sum == c[0].sum && |a[0].items| == |b[0].items| == |c[0].items| && Spread(a) == Spread(b) == Spread(c) {
      ItemsLessTransitive(c[0].items, b[0].items, a[0].items);
    }
  }

  // ---------------------------------------------------------------- the pool

  /** The states of the pool share nothing, and all they are made of is in `repr`. */
  ghost predicate PoolValid(pool: seq<StateObject>, k: nat, repr: set<object>)
    reads repr
  {
    && (forall i :: 0 <= i < |pool| ==> pool[i] in repr && pool[i].k == k)
    && (forall i, j :: 0 <= i < |pool| && 0 <= j < |pool[i].sets| ==> pool[i].sets[j] in repr)
    && (forall i :: 0 <= i < |pool| ==> pool[i].Valid())
    && (forall i, j :: 0 <= i < j < |pool| ==> pool[i] != pool[j] && Apart(pool[i].sets, pool[j].sets))
  }

  ghost function ValueIn(pool: seq<StateObject>, k: nat, repr: set<object>, i: nat): (s: State)
    requires PoolValid(pool, k, repr) && i < |pool|
    reads repr
  {
    assert pool[i] in repr && forall s <- pool[i].sets :: s in repr;
    pool[i].Value()
  }

  ghost function PoolValues(pool: seq<StateObject>, k: nat, repr: set<object>): (r: seq<State>)
    requires PoolValid(pool, k, repr)
    reads repr
    ensures |r| == |pool|
    ensures forall i :: 0 <= i < |pool| ==> r[i] == ValueIn(pool, k, repr, i)
    ensures Uniform(r, k)
  {
    seq(|pool|, i requires 0 <= i < |pool| && PoolValid(pool, k, repr) reads repr => ValueIn(pool, k, repr, i))
  }

  /** A state that no other state of the pool comes before. */
  method FindLeast(pool: seq<StateObject>, k: nat, ghost repr: set<object>) returns (best: nat)
    requires 0 < k && PoolValid(pool, k, repr) && pool != []
    ensures Least(PoolValues(pool, k, repr), best, k)
  {
    best := 0;
    ItemsLessIrreflexive(pool[0].Value()[0].items);
    for i := 1 to |pool|
      invariant best < i
      invariant forall j :: 0 <= j < i ==> !StateLess(pool[j].Value(), pool[best].Value())
    {
      if StateLess(pool[i].Value(), pool[best].Value()) {
        ItemsLessIrreflexive(pool[i].Value()[0].items);
        forall j | 0 <= j < i
          ensures !StateLess(pool[j].Value(), pool[i].Value())
        {
          if StateLess(pool[j].Value(), pool[i].Value()) {
            StateLessTransitive(pool[j].Value(), pool[i].Value(), pool[best].Value());
          }
        }
        best := i;
      }
    }
  }

  lemma PoolWithoutValid(pool: seq<StateObject>, i: nat, k: nat, repr: set<object>)
    requires PoolValid(pool, k, repr) && i < |pool|
    ensures PoolValid(Without(pool, i), k, repr)
    ensures PoolValues(Without(pool, i), k, repr) == Without(PoolValues(pool, k, repr), i)
  {
  }

  lemma PoolPushValid(rest: seq<StateObject>, state: StateObject, k: nat, repr: set<object>)
    requires PoolValid(rest, k, repr) && state.k == k && state in repr && state.Valid()
    requires forall s <- state.sets :: s in repr
    requires forall i :: 0 <= i < |rest| ==> rest[i] != state && Apart(rest[i].sets, state.sets)
    ensures PoolValid(rest + [state], k, repr)
    ensures PoolValues(rest + [state], k, repr) == PoolValues(rest, k, repr) + [state.Value()]
  {
  }

  /** The merge in place, and the push; the other states do not notice. */
  method PushMerged(rest: seq<StateObject>, state0: StateObject, state1: StateObject, k: nat, ghost repr: set<object>)
    returns (next: seq<StateObject>)
    requires PoolValid(rest, k, repr) && state0.k == state1.k == k && state0.Valid() && state1.Valid()
    requires state0 in repr && (forall s <- state0.sets :: s in repr) && state0 != state1 && Apart(state0.sets, state1.sets)
    requires forall i :: 0 <= i < |rest| ==> rest[i] != state0 && Apart(rest[i].sets, state0.sets)
    modifies repr
    ensures PoolValid(next, k, repr)
    ensures PoolValues(next, k, repr) == old(PoolValues(rest, k, repr)) + [Merge(old(state0.Value()), old(state1.Value()))]
  {
    ghost var before := PoolValues(rest, k, repr);
    state0.Merge(state1);
    assert forall i :: 0 <= i < |rest| ==> rest[i].sets == old(rest[i].sets);
    assert PoolValid(rest, k, repr);
    forall i | 0 <= i < |rest|
      ensures rest[i].Value() == before[i] && Apart(rest[i].sets, state0.sets)
    {
      assert before[i] == old(rest[i].Value());
      assert forall s <- rest[i].sets :: s !in old(state0.sets);
      assert forall j :: 0 <= j < |state0.sets| ==> state0.sets[j] in old(state0.sets);
      assert forall j :: 0 <= j < |rest[i].sets| ==> rest[i].sets[j] in rest[i].sets;
    }
    assert PoolValues(rest, k, repr) == before;
    PoolPushValid(rest, state0, k, repr);
    next := rest + [state0];
  }

  /** One round of the loop: two pops, a merge in place, and a push. */
  method MergeLeast(pool: seq<StateObject>, k: nat, ghost repr: set<object>)
    returns (next: seq<StateObject>, ghost pick: Pick)
    requires 0 < k && PoolValid(pool, k, repr) && 1 < |pool|
    modifies repr
    ensures PoolValid(next, k, repr)
    ensures pick.first < |pool| && pick.second < |pool| - 1
    ensures
      var values := old(PoolValues(pool, k, repr));
      && Least(values, pick.first, k) && Least(Without(values, pick.first), pick.second, k)
      && |values[pick.first]| == |Without(values, pick.first)[pick.second]|
      && PoolValues(next, k, repr) == Step(values, pick)
  {
    hide Merge, Least;
    var i := FindLeast(pool, k, repr);
    var rest := Without(pool, i);
    PoolWithoutValid(pool, i, k, repr);
    var j := FindLeast(rest, k, repr);
    PoolWithoutValid(rest, j, k, repr);
    pick := Pick(i, j);
    next := PushMerged(Without(rest, j), pool[i], rest[j], k, repr);
  }

  // ---------------------------------------------------------------- the whole loop

  /** `done` leads from `start` to `pool`, whatever is picked next. */
  ghost predicate Leads(start: seq<State>, done: seq<Pick>, pool: seq<State>, k: nat)
    requires 0 < k && Uniform(start, k) && Uniform(pool, k)
  {
    forall next :: ValidPicks(|pool|, next) && HeapPicks(pool, next, k) ==>
      && ValidPicks(|start|, done + next) && HeapPicks(start, done + next, k)
      && ReduceBy(start, done + next, k) == ReduceBy(pool, next, k)
  }

  lemma LeadsFurther(start: seq<State>, done: seq<Pick>, pool: seq<State>, pick: Pick, k: nat)
    requires 0 < k && Uniform(start, k) && Uniform(pool, k) && Leads(start, done, pool, k)
    requires 1 < |pool| && pick.first < |pool| && pick.second < |pool| - 1
    requires Least(pool, pick.first, k) && Least(Without(pool, pick.first), pick.second, k)
    ensures |pool[pick.first]| == |Without(pool, pick.first)[pick.second]| && Uniform(Step(pool, pick), k)
    ensures Leads(start, done + [pick], Step(pool, pick), k)
  {
    hide Least, Step;
    StepUniform(pool, pick, k);
    var pool' := Step(pool, pick);
    forall next | ValidPicks(|pool'|, next) && HeapPicks(pool', next, k)
      ensures ValidPicks(|start|, done + [pick] + next) && HeapPicks(start, done + [pick] + next, k)
      ensures ReduceBy(start, done + [pick] + next, k) == ReduceBy(pool', next, k)
    {
      assert ([pick] + next)[1..] == next;
      assert done + ([pick] + next) == done + [pick] + next;
    }
  }

  /** The loop that merges until one state is left. */
  method ReducePool(pool: seq<StateObject>, k: nat, ghost repr: set<object>)
    returns (final: StateObject, ghost picks: seq<Pick>)
    requires 0 < k && PoolValid(pool, k, repr) && pool != []
    modifies repr
    ensures
      var values := old(PoolValues(pool, k, repr));
      && ValidPicks(|values|, picks) && HeapPicks(values, picks, k)
      && final in repr && (forall s <- final.sets :: s in repr)
      && final.Value() == ReduceBy(values, picks, k)
  {
    ghost var values := PoolValues(pool, k, repr);
    var current := pool;
    picks := [];
    assert Leads(values, picks, values, k) by {
      assert forall next: seq<Pick> :: [] + next == next;
    }
    while |current| > 1
      invariant current != [] && PoolValid(current, k, repr)
      invariant Leads(values, picks, PoolValues(current, k, repr), k)
    {
      ghost var before := PoolValues(current, k, repr);
      ghost var pick;
      current, pick := MergeLeast(current, k, repr);
      LeadsFurther(values, picks, before, pick, k);
      picks := picks + [pick];
    }
    final := current[0];
    assert ValidPicks(1, []) && picks + [] == picks;
  }

  // ---------------------------------------------------------------- karmarkar_karp

  datatype PartitionError =
    | DivisionByZero | IndexError | NotDivisible | SizesDiffer
    | TooFewItems | WrongCount | EmptyPartition | WrongIndices

  method PushNew(pool: seq<StateObject>, items: seq<Item>, k: nat, ghost repr: set<object>)
    returns (next: seq<StateObject>, ghost repr': set<object>)
    requires |items| <= k && PoolValid(pool, k, repr)
    ensures repr <= repr' && fresh(repr' - repr) && PoolValid(next, k, repr')
    ensures PoolValues(next, k, repr') == old(PoolValues(pool, k, repr)) + [NewState(items, k)]
  {
    ghost var before := PoolValues(pool, k, repr);
    var state := new StateObject(items, k);
    repr' := repr + {state} + (set s <- state.sets);
    assert PoolValid(pool, k, repr');
    forall i | 0 <= i < |pool|
      ensures PoolValues(pool, k, repr')[i] == before[i]
    {
      assert pool[i] in repr && before[i] == old(pool[i].Value());
      assert forall s <- pool[i].sets :: s in repr;
    }
    PoolPushValid(pool, state, k, repr');
    next := pool + [state];
  }

  lemma NoSingles(items: seq<Item>, k: nat)
    requires 0 < k
    ensures items[0..] == items && Singles(items[|items|..], k) == []
  {
  }

  lemma SinglesNext(items: seq<Item>, i: nat, k: nat, before: seq<State>)
    requires 0 < k && i < |items|
    ensures
      before + Singles(items[i..], k) == (before + [NewState([items[i]], k)]) + Singles(items[i + 1..], k)
  {
    assert items[i..][..1] == [items[i]] && items[i..][1..] == items[i + 1..];
  }

  method PushSingles(items: seq<Item>, k: nat) returns (pool: seq<StateObject>, ghost repr: set<object>)
    requires 0 < k
    ensures fresh(repr) && PoolValid(pool, k, repr) && PoolValues(pool, k, repr) == Singles(items, k)
  {
    hide NewState, Singles;
    pool, repr := [], {};
    NoSingles(items, k);
    for i := 0 to |items|
      invariant fresh(repr) && PoolValid(pool, k, repr)
      invariant PoolValues(pool, k, repr) + Singles(items[i..], k) == Singles(items, k)
    {
      ghost var before := PoolValues(pool, k, repr);
      SinglesNext(items, i, k, before);
      pool, repr := PushNew(pool, [items[i]], k, repr);
    }
  }

  lemma NoBlocks(k: nat)
    requires 0 < k
    ensures Blocks([], k) == [] && Times(0, k) == 0
  {
  }

  lemma TimesLeft(left: nat, k: nat)
    requires 0 < Times(left, k)
    ensures 0 < left && Times(left, k) == Times(left - 1, k) + k
  {
  }

  lemma BlocksFrom(items: seq<Item>, offset: nat, k: nat)
    requires 0 < k && offset + k <= |items|
    ensures Blocks(items[offset..], k) == [NewState(items[offset..offset + k], k)] + Blocks(items[offset + k..], k)
  {
    assert items[offset..][..k] == items[offset..offset + k] && items[offset..][k..] == items[offset + k..];
  }

  method PushBlocks(items: seq<Item>, k: nat, ghost count: nat) returns (pool: seq<StateObject>, ghost repr: set<object>)
    requires 0 < k && |items| == Times(count, k)
    ensures fresh(repr) && PoolValid(pool, k, repr) && PoolValues(pool, k, repr) == Blocks(items, k)
  {
    pool, repr := [], {};
    var offset := 0;
    ghost var left: nat := count;
    NoBlocks(k);
    assert items[0..] == items && PoolValues(pool, k, repr) == [];
    hide NewState, Blocks, Times, PoolValid, PoolValues;
    while offset < |items|
      invariant offset <= |items| && |items| - offset == Times(left, k)
      invariant fresh(repr) && PoolValid(pool, k, repr)
      invariant PoolValues(pool, k, repr) + Blocks(items[offset..], k) == Blocks(items, k)
    {
      TimesLeft(left, k);
      BlocksFrom(items, offset, k);
      ghost var block, rest := NewState(items[offset..offset + k], k), Blocks(items[offset + k..], k);
      assert PoolValues(pool, k, repr) + ([block] + rest) == PoolValues(pool, k, repr) + [block] + rest;
      pool, repr := PushNew(pool, items[offset..offset + k], k, repr);
      offset, left := offset + k, left - 1;
    }
  }

  /** The error of a call that cannot be served. */
  function Refusal(values: seq<int>, k: nat, equalSize: bool): PartitionError {
    if equalSize && k == 0 then DivisionByZero
    else if equalSize && |values| % k != 0 then NotDivisible
    else IndexError
  }

  lemma PositiveQuotient(n: nat, k: nat)
    requires 0 < k && 0 < n && n % k == 0
    ensures 0 < n / k
  {
  }

  /**
   The partitions of the indices, for some picks that a heap can make. The assert on the sizes at the
   end never fires.
   */
  method KarmarkarKarpPartition(values: seq<int>, k: nat, equalSize: bool)
    returns (r: Result<seq<seq<nat>>, PartitionError>, ghost picks: seq<Pick>)
    ensures r.Success? <==> 0 < k && values != [] && (equalSize ==> |values| % k == 0)
    ensures r.Failure? ==> r.error == Refusal(values, k, equalSize)
    ensures r.Success? ==>
      && Uniform(InitialPool(values, k, equalSize), k)
      && ValidPicks(|InitialPool(values, k, equalSize)|, picks)
      && HeapPicks(InitialPool(values, k, equalSize), picks, k)
      && r.value == PartitionBy(values, k, equalSize, picks)
  {
    picks := [];
    if equalSize && k == 0 { return Failure(DivisionByZero), picks; }
    if equalSize && |values| % k != 0 { return Failure(NotDivisible), picks; }
    if k == 0 || values == [] { return Failure(IndexError), picks; }
    SortPermutes(Indexed(values), ItemBefore);
    InitialItems(values, k, equalSize);
    var pool;
    ghost var repr;
    if equalSize {
      TimesQuotient(|values|, k);
      pool, repr := PushBlocks(SortedItems(values), k, |values| / k);
      PositiveQuotient(|values|, k);
    } else {
      pool, repr := PushSingles(SortedItems(values), k);
    }
    var final;
    final, picks := ReducePool(pool, k, repr);
    var partitions := final.GetPartitions();
    if equalSize {
      for i := 0 to |partitions| {
        FinalItems(values, k, equalSize, picks);
        EqualSizes(values, k, picks, i);
        if |partitions[i]| * k != |values| { return Failure(SizesDiffer), picks; }
      }
    }
    return Success(partitions), picks;
  }

  // ---------------------------------------------------------------- get_seqlen_balanced_partitions

  predicate IndexBefore(a: nat, b: nat) {
    a < b
  }

  function SortedPart(part: seq<nat>): seq<nat> {
    SortBy(part, IndexBefore)
  }

  lemma {:induction false} SortedConcat(parts: seq<seq<nat>>)
    ensures multiset(Concat(Map(parts, SortedPart))) == multiset(Concat(parts))
  {
    if parts == [] {
    } else {
      SortedConcat(parts[1..]);
      SortPermutes(parts[0], IndexBefore);
      assert Map(parts, SortedPart)[1..] == Map(parts[1..], SortedPart);
    }
  }

  lemma SortedPartitions(parts: seq<seq<nat>>, n: nat)
    requires IsPartition(parts, n)
    ensures IsPartition(Map(parts, SortedPart), n)
  {
    SortedConcat(parts);
  }

  ghost predicate Increasing(part: seq<nat>) {
    forall i, j :: 0 <= i < j < |part| ==> part[i] <= part[j]
  }

  function Negated(i: nat): int {
    0 - i as int
  }

  lemma SortedPartIncreases(part: seq<nat>)
    ensures Increasing(SortedPart(part)) && |SortedPart(part)| == |part|
  {
    SortPermutes(part, IndexBefore);
    SortSorts(part, IndexBefore, Negated);
    var s := SortedPart(part);
    forall i, j | 0 <= i < j < |s|
      ensures s[i] <= s[j]
    {
      assert Negated(s[i]) >= Negated(s[j]);
    }
  }

  ghost predicate NoneEmpty(parts: seq<seq<nat>>) {
    forall i :: 0 <= i < |parts| ==> parts[i] != []
  }

  /** The indices in the lists are those below `n`; how often each of them stands there is not asked. */
  ghost predicate SeesAll(parts: seq<seq<nat>>, n: nat) {
    forall x: nat :: x in Concat(parts) <==> x < n
  }

  lemma InConcatNext(parts: seq<seq<nat>>, i: nat)
    requires i < |parts|
    ensures forall x :: x in Concat(parts[..i + 1]) <==> x in Concat(parts[..i]) || x in parts[i]
  {
    ConcatAppend(parts[..i], [parts[i]]);
    assert parts[..i + 1] == parts[..i] + [parts[i]];
    assert Concat([parts[i]]) == parts[i] + Concat([parts[i]][1..]);
  }

  lemma SeenAll(parts: seq<seq<nat>>, seen: set<nat>, n: nat)
    requires forall x :: x in seen <==> x in Concat(parts)
    ensures seen == (set x <- Range(n)) <==> SeesAll(parts, n)
  {
    var all := set x <- Range(n);
    forall x: nat
      ensures x in all <==> x < n
    {
      if x < n {
        assert Range(n)[x] == x;
      }
    }
  }

  /** `_check_and_sort_partitions`: what it raises for any lists, and the sorted lists otherwise. */
  method CheckAndSortPartitions(partitions: seq<seq<nat>>, k: nat, n: nat) returns (r: Result<seq<seq<nat>>, PartitionError>)
    ensures r ==
      if |partitions| != k then Failure(WrongCount)
      else if !NoneEmpty(partitions) then Failure(EmptyPartition)
      else if !SeesAll(partitions, n) then Failure(WrongIndices)
      else Success(Map(partitions, SortedPart))
  {
    if |partitions| != k { return Failure(WrongCount); }
    var seen, sorted := {}, [];
    for i := 0 to k
      invariant sorted == Map(partitions[..i], SortedPart)
      invariant forall j :: 0 <= j < i ==> partitions[j] != []
      invariant forall x :: x in seen <==> x in Concat(partitions[..i])
    {
      if partitions[i] == [] { return Failure(EmptyPartition); }
      seen := seen + set idx <- partitions[i];
      sorted := sorted + [SortedPart(partitions[i])];
      InConcatNext(partitions, i);
    }
    assert partitions[..k] == partitions;
    SeenAll(partitions, seen, n);
    if seen != set x <- Range(n) { return Failure(WrongIndices); }
    return Success(sorted);
  }

  /** The check lets a repeated index through; with as many entries as indices it is the whole truth. */
  lemma {:induction false} SeesAllExactly(parts: seq<seq<nat>>, n: nat)
    ensures IsPartition(parts, n) <==> SeesAll(parts, n) && |Concat(parts)| == n
  {
    var all := Concat(parts);
    if IsPartition(parts, n) {
      RangePermutation(all, n);
    }
    if SeesAll(parts, n) && |all| == n {
      var wanted: multiset<nat>, found: multiset<nat> := multiset(Range(n)), multiset(all);
      forall x: nat
        ensures wanted[x] <= found[x]
      {
        RangeOnce(n, x);
        assert x < n ==> x in all;
      }
      assert found == wanted + (found - wanted);
      assert |found - wanted| == |found| - |wanted| == 0;
    }
  }

  /** The index 0 stands twice, and the check does not see it. */
  lemma {:induction false} RepeatedIndex()
    ensures SeesAll([[0, 0], [1]], 2) && !IsPartition([[0, 0], [1]], 2)
  {
    var parts: seq<seq<nat>> := [[0, 0], [1]];
    assert parts[1..] == [[1]] && parts[1..][1..] == [];
    assert Concat(parts[1..]) == [1] + Concat(parts[1..][1..]);
    assert Concat(parts) == [0, 0, 1];
    SeesAllExactly(parts, 2);
  }

  lemma SortedPartitionsIncrease(parts: seq<seq<nat>>)
    requires NoneEmpty(parts)
    ensures forall part <- Map(parts, SortedPart) :: part != [] && Increasing(part)
  {
    forall i | 0 <= i < |parts|
      ensures SortedPart(parts[i]) != [] && Increasing(SortedPart(parts[i]))
    {
      SortedPartIncreases(parts[i]);
    }
  }

  /**
   For non-negative values none of the checks fires: the call succeeds exactly when there are at least
   as many items as partitions, and the sizes can be equal if they have to be.
   */
  method GetSeqlenBalancedPartitions(values: seq<int>, k: nat, equalSize: bool)
    returns (r: Result<seq<seq<nat>>, PartitionError>, ghost picks: seq<Pick>)
    ensures (forall v <- values :: 0 <= v) ==>
      (r.Success? <==> 0 < k <= |values| && (equalSize ==> |values| % k == 0))
    ensures r.Success? ==>
      && 0 < k <= |values| && (equalSize ==> |values| % k == 0)
      && Uniform(InitialPool(values, k, equalSize), k)
      && ValidPicks(|InitialPool(values, k, equalSize)|, picks)
      && HeapPicks(InitialPool(values, k, equalSize), picks, k)
      && r.value == Map(PartitionBy(values, k, equalSize, picks), SortedPart)
      && |r.value| == k && IsPartition(r.value, |values|)
      && forall part <- r.value :: part != [] && Increasing(part)
  {
    hide PartitionBy, InitialPool, Increasing, IsPartition, SeesAll, Uniform, HeapPicks, ValidPicks, SortedPart;
    picks := [];
    if |values| < k { return Failure(TooFewItems), picks; }
    var found;
    found, picks := KarmarkarKarpPartition(values, k, equalSize);
    if found.Failure? { return Failure(found.error), picks; }
    ExactPartition(values, k, equalSize, picks);
    if forall v <- values :: 0 <= v {
      forall i | 0 <= i < k
        ensures found.value[i] != []
      {
        UsedPartitions(values, k, equalSize, picks, i);
      }
    }
    SeesAllExactly(found.value, |values|);
    r := CheckAndSortPartitions(found.value, k, |values|);
    if r.Success? {
      SortedPartitions(found.value, |values|);
      SortedPartitionsIncrease(found.value);
    }
  }

  /** Which error a refused call raises. */
  lemma {:induction false} RefusalIs(values: seq<int>, k: nat, equalSize: bool)
    requires k == 0 || values == [] || (equalSize && |values| % k != 0)
    ensures Refusal(values, k, equalSize) == DivisionByZero <==> equalSize && k == 0
    ensures Refusal(values, k, equalSize) == NotDivisible <==> equalSize && 0 < k && |values| % k != 0
    ensures Refusal(values, k, equalSize) == IndexError <==> !equalSize || (0 < k && |values| % k == 0)
  {
  }
}
