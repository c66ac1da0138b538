/** What the largest differencing method guarantees, whatever the order of the merges. */
module KarmarkarKarpBounds {
  import opened Arithmetic
  import opened Permutations
  import opened KarmarkarKarp

  // ---------------------------------------------------------------- every order of merges

  lemma StepKeeps(pool: seq<State>, pick: Pick, k: nat, inv: State -> bool)
    requires Uniform(pool, k) && pick.first < |pool| && pick.second < |pool| - 1
    requires forall i :: 0 <= i < |pool| ==> inv(pool[i])
    requires forall a, b :: |a| == |b| == k && inv(a) && inv(b) ==> inv(Merge(a, b))
    ensures |pool[pick.first]| == |Without(pool, pick.first)[pick.second]|
    ensures forall i :: 0 <= i < |pool| - 1 ==> inv(Step(pool, pick)[i])
  {
    hide Merge;
    StepUniform(pool, pick, k);
    assert inv(Merge(pool[pick.first], Without(pool, pick.first)[pick.second]));
  }

  /** What holds of all initial states and survives a merge holds of the state that is left. */
  lemma {:induction false} ReduceKeeps(pool: seq<State>, picks: seq<Pick>, k: nat, inv: State -> bool)
    requires Uniform(pool, k) && ValidPicks(|pool|, picks)
    requires forall i :: 0 <= i < |pool| ==> inv(pool[i])
    requires forall a, b :: |a| == |b| == k && inv(a) && inv(b) ==> inv(Merge(a, b))
    ensures inv(ReduceBy(pool, picks, k)) && |ReduceBy(pool, picks, k)| == k
    decreases |pool|
  {
    hide Merge, Step;
    if |pool| <= 1 {
    } else {
      StepUniform(pool, picks[0], k);
      StepKeeps(pool, picks[0], k, inv);
      ReduceKeeps(Step(pool, picks[0]), picks[1..], k, inv);
    }
  }

  // ---------------------------------------------------------------- no item is lost

  lemma SortedItemsOf(sets: seq<Set>)
    ensures multiset(StateItems(Sorted(sets))) == multiset(StateItems(sets))
  {
    SortPermutes(sets, SetGreater);
    MapPermutes(Sorted(sets), sets, ItemsOf);
    ConcatPermutes(Map(Sorted(sets), ItemsOf), Map(sets, ItemsOf));
  }

  lemma {:induction false} PairedItems(a: State, b: State, raw: seq<Set>)
    requires |a| == |b| == |raw| && forall i :: 0 <= i < |a| ==> raw[i].items == a[i].items + b[i].items
    ensures multiset(StateItems(raw)) == multiset(StateItems(a)) + multiset(StateItems(b))
  {
    if a == [] {
    } else {
      PairedItems(a[1..], b[1..], raw[1..]);
      assert Map(a, ItemsOf)[1..] == Map(a[1..], ItemsOf) && Map(b, ItemsOf)[1..] == Map(b[1..], ItemsOf);
      assert Map(raw, ItemsOf)[1..] == Map(raw[1..], ItemsOf);
    }
  }

  lemma MergeItems(a: State, b: State)
    requires |a| == |b|
    ensures multiset(StateItems(Merge(a, b))) == multiset(StateItems(a)) + multiset(StateItems(b))
  {
    SortedItemsOf(Paired(a, b));
    PairedItems(a, Reversed(b), Paired(a, b));
    ReversedBag(b);
    MapPermutes(Reversed(b), b, ItemsOf);
    ConcatPermutes(Map(Reversed(b), ItemsOf), Map(b, ItemsOf));
  }

  lemma PoolWithout(pool: seq<State>, i: nat)
    requires i < |pool|
    ensures multiset(PoolItems(pool)) == multiset(StateItems(pool[i])) + multiset(PoolItems(Without(pool, i)))
  {
    hide StateItems, Concat;
    var each := Map(pool, StateItems);
    ConcatWithout(each, i);
    assert Without(each, i) == Map(Without(pool, i), StateItems);
  }

  lemma StepItems(pool: seq<State>, pick: Pick, k: nat)
    requires Uniform(pool, k) && pick.first < |pool| && pick.second < |pool| - 1
    ensures |pool[pick.first]| == |Without(pool, pick.first)[pick.second]|
    ensures multiset(PoolItems(Step(pool, pick))) == multiset(PoolItems(pool))
  {
    StepUniform(pool, pick, k);
    var rest := Without(pool, pick.first);
    var next := Step(pool, pick);
    PoolWithout(pool, pick.first);
    PoolWithout(rest, pick.second);
    MergeItems(pool[pick.first], rest[pick.second]);
    PoolWithout(next, |next| - 1);
    assert Without(next, |next| - 1) == Without(rest, pick.second);
  }

  lemma OneState(pool: seq<State>)
    requires |pool| == 1
    ensures PoolItems(pool) == StateItems(pool[0])
  {
    hide StateItems;
    var m := Map(pool, StateItems);
    assert m[1..] == [] && Concat(m[1..]) == [];
    assert Concat(m) == m[0] + Concat(m[1..]);
  }

  lemma {:induction false} ReduceItems(pool: seq<State>, picks: seq<Pick>, k: nat)
    requires Uniform(pool, k) && ValidPicks(|pool|, picks)
    ensures multiset(StateItems(ReduceBy(pool, picks, k))) == multiset(PoolItems(pool))
    decreases |pool|
  {
    hide StateItems, PoolItems, Merge;
    if |pool| == 1 {
      OneState(pool);
    } else {
      StepUniform(pool, picks[0], k);
      StepItems(pool, picks[0], k);
      ReduceItems(Step(pool, picks[0]), picks[1..], k);
    }
  }

  lemma {:induction false} UnsortedItems(items: seq<Item>, k: nat)
    requires |items| <= k
    ensures StateItems(Unsorted(items, k)) == items
    decreases k
  {
    var sets := Unsorted(items, k);
    if k == 0 {
    } else {
      var rest := if items == [] then [] else items[1..];
      UnsortedItems(rest, k - 1);
      assert sets[1..] == Unsorted(rest, k - 1);
      assert Map(sets, ItemsOf)[1..] == Map(sets[1..], ItemsOf);
    }
  }

  lemma NewStateItems(items: seq<Item>, k: nat)
    requires |items| <= k
    ensures multiset(StateItems(NewState(items, k))) == multiset(items) && |NewState(items, k)| == k
  {
    SortedItemsOf(Unsorted(items, k));
    UnsortedItems(items, k);
    SortPermutes(Unsorted(items, k), SetGreater);
  }

  lemma PoolCons(s: State, rest: seq<State>, items: seq<Item>, more: seq<Item>)
    requires multiset(StateItems(s)) == multiset(items) && multiset(PoolItems(rest)) == multiset(more)
    ensures multiset(PoolItems([s] + rest)) == multiset(items + more)
  {
    hide StateItems, PoolItems;
    PoolWithout([s] + rest, 0);
    assert Without([s] + rest, 0) == rest;
  }

  lemma NoPool()
    ensures PoolItems([]) == []
  {
  }

  lemma {:induction false} SinglesItems(items: seq<Item>, k: nat)
    requires 0 < k
    ensures multiset(PoolItems(Singles(items, k))) == multiset(items)
    ensures Uniform(Singles(items, k), k) && |Singles(items, k)| == |items|
  {
    hide NewState, StateItems, PoolItems;
    NoPool();
    if items == [] {
    } else {
      SinglesItems(items[1..], k);
      NewStateItems(items[..1], k);
      PoolCons(NewState(items[..1], k), Singles(items[1..], k), items[..1], items[1..]);
      assert items == items[..1] + items[1..];
    }
  }

  lemma {:induction false} BlocksItems(items: seq<Item>, k: nat, count: nat)
    requires 0 < k && |items| == Times(count, k)
    ensures multiset(PoolItems(Blocks(items, k))) == multiset(items)
    ensures Uniform(Blocks(items, k), k) && |Blocks(items, k)| == count
    decreases count
  {
    hide NewState, StateItems, PoolItems;
    NoPool();
    if count == 0 {
    } else {
      TimesNext(count - 1, k);
      BlocksItems(items[k..], k, count - 1);
      NewStateItems(items[..k], k);
      PoolCons(NewState(items[..k], k), Blocks(items[k..], k), items[..k], items[k..]);
      assert items == items[..k] + items[k..];
    }
  }

  lemma InitialItems(values: seq<int>, k: nat, equalSize: bool)
    requires 0 < k && (equalSize ==> |values| % k == 0)
    ensures multiset(PoolItems(InitialPool(values, k, equalSize))) == multiset(Indexed(values))
    ensures Uniform(InitialPool(values, k, equalSize), k)
    ensures |InitialPool(values, k, equalSize)| == if equalSize then |values| / k else |values|
  {
    hide PoolItems, Blocks, Singles, Indexed, Uniform, Times, SortBy;
    SortPermutes(Indexed(values), ItemBefore);
    if equalSize {
      TimesQuotient(|values|, k);
      BlocksItems(SortedItems(values), k, |values| / k);
    } else {
      SinglesItems(SortedItems(values), k);
    }
  }
}
