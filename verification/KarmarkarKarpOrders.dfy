/** What the orders of the largest differencing method mean, in terms of sums and items only. */
module KarmarkarKarpOrders {
  import opened Permutations
  import opened KarmarkarKarp
  import opened KarmarkarKarpTheorems
  import opened BalancedPartitions

  // ---------------------------------------------------------------- items and sets

  /** At place `d`, the first at which the lists differ, `a` has the smaller index, or the smaller value. */
  ghost predicate SmallerAt(a: seq<Item>, b: seq<Item>, d: nat) {
    && d < |a| && d < |b| && a[..d] == b[..d]
    && (a[d].idx < b[d].idx || (a[d].idx == b[d].idx && a[d].val < b[d].val))
  }

  lemma FirstDiffers(a: seq<Item>, b: seq<Item>, d: nat)
    requires SmallerAt(a, b, d)
    ensures d == 0 || a[0] == b[0]
  {
    if d > 0 {
      assert a[0] == a[..d][0] == b[..d][0] == b[0];
    }
  }

  lemma FirstIsEqual(a: seq<Item>, b: seq<Item>, d: nat)
    requires a != [] && b != [] && a[0] == b[0]
    ensures SmallerAt(a, b, d) ==> 0 < d && SmallerAt(a[1..], b[1..], d - 1)
    ensures SmallerAt(a[1..], b[1..], d) ==> SmallerAt(a, b, d + 1)
  {
    if SmallerAt(a, b, d) {
      assert a[1..][..d - 1] == a[..d][1..] && b[1..][..d - 1] == b[..d][1..];
    }
    if SmallerAt(a[1..], b[1..], d) {
      assert a[..d + 1] == [a[0]] + a[1..][..d] && b[..d + 1] == [b[0]] + b[1..][..d];
    }
  }

  /** Lists of one length are compared at their first difference. */
  lemma {:induction false} ItemsLessExactly(a: seq<Item>, b: seq<Item>)
    requires |a| == |b|
    ensures ItemsLess(a, b) <==> exists d :: SmallerAt(a, b, d)
  {
    if a == [] {
    } else if a[0] == b[0] {
      ItemsLessExactly(a[1..], b[1..]);
      if ItemsLess(a[1..], b[1..]) {
        var d: nat :| SmallerAt(a[1..], b[1..], d);
        FirstIsEqual(a, b, d);
        assert SmallerAt(a, b, d + 1);
      } else {
        forall d: nat
          ensures !SmallerAt(a, b, d)
        {
          FirstIsEqual(a, b, d);
        }
      }
    } else {
      assert a[0].idx < b[0].idx || (a[0].idx == b[0].idx && a[0].val < b[0].val) ==> SmallerAt(a, b, 0);
      forall d: nat | SmallerAt(a, b, d)
        ensures d == 0
      {
        FirstDiffers(a, b, d);
      }
    }
  }

  /** Larger by sum, then by number of items, then by the items. */
  ghost predicate Larger(a: Set, b: Set) {
    || a.sum > b.sum
    || (a.sum == b.sum && |a.items| > |b.items|)
    || (a.sum == b.sum && |a.items| == |b.items| && exists d :: SmallerAt(b.items, a.items, d))
  }

  lemma SetLessExactly(a: Set, b: Set)
    ensures SetLess(a, b) <==> Larger(b, a)
  {
    if |a.items| == |b.items| {
      ItemsLessExactly(a.items, b.items);
    }
  }

  // ---------------------------------------------------------------- what a pop yields

  /**
   No two sums of any state in the pool are further apart than the first and the last sum of the state that
   the heap yields; and no state that is as wide has a larger first set.
   */
  lemma {:induction false} HeapPops(pool: seq<State>, i: nat, k: nat, j: nat, p: nat, q: nat)
    requires 0 < k && Uniform(pool, k) && Least(pool, i, k) && j < |pool| && p < k && q < k
    requires forall state <- pool :: Falling(state, SumOf)
    ensures pool[j][p].sum - pool[j][q].sum <= pool[i][0].sum - pool[i][k - 1].sum
    ensures pool[j][p].sum - pool[j][q].sum == pool[i][0].sum - pool[i][k - 1].sum ==> !Larger(pool[j][0], pool[i][0])
  {
    assert pool[j] in pool && pool[i] in pool;
    assert SumOf(pool[j][0]) >= SumOf(pool[j][p]) && SumOf(pool[j][q]) >= SumOf(pool[j][k - 1]);
    assert !StateLess(pool[j], pool[i]);
    SetLessExactly(pool[i][0], pool[j][0]);
  }

  /** Whatever states are merged, every state of the pool has its sets in the falling order of their sums. */
  ghost predicate AllFall(pool: seq<State>) {
    forall state <- pool :: Falling(state, SumOf)
  }

  lemma SortedFalls(sets: seq<Set>)
    ensures Falling(Sorted(sets), SumOf)
  {
    SortSorts(sets, SetGreater, SumOf);
  }

  lemma {:induction false} SinglesFall(items: seq<Item>, k: nat)
    requires 0 < k
    ensures AllFall(Singles(items, k))
  {
    if items == [] {
    } else {
      SortedFalls(Unsorted(items[..1], k));
      SinglesFall(items[1..], k);
    }
  }

  lemma {:induction false} BlocksFall(items: seq<Item>, k: nat)
    requires 0 < k
    ensures AllFall(Blocks(items, k))
    decreases |items|
  {
    if |items| < k {
    } else {
      SortedFalls(Unsorted(items[..k], k));
      BlocksFall(items[k..], k);
    }
  }

  lemma InitialFalls(values: seq<int>, k: nat, equalSize: bool)
    requires 0 < k && (equalSize ==> |values| % k == 0)
    ensures AllFall(InitialPool(values, k, equalSize))
  {
    SinglesFall(SortedItems(values), k);
    BlocksFall(SortedItems(values), k);
  }

  lemma StepFalls(pool: seq<State>, pick: Pick, k: nat)
    requires AllFall(pool) && Uniform(pool, k) && pick.first < |pool| && pick.second < |pool| - 1
    ensures |pool[pick.first]| == |Without(pool, pick.first)[pick.second]|
    ensures AllFall(Step(pool, pick))
  {
    hide Falling, Sorted, Paired;
    StepUniform(pool, pick, k);
    SortedFalls(Paired(pool[pick.first], Without(pool, pick.first)[pick.second]));
  }

  /** The state that is popped is the widest, and among those has a largest first set. */
  ghost predicate Widest(pool: seq<State>, i: nat, k: nat)
    requires 0 < k && Uniform(pool, k)
  {
    && i < |pool|
    && (forall j, p, q :: 0 <= j < |pool| && 0 <= p < k && 0 <= q < k ==>
          pool[j][p].sum - pool[j][q].sum <= pool[i][0].sum - pool[i][k - 1].sum)
    && (forall j :: 0 <= j < |pool| && pool[j][0].sum - pool[j][k - 1].sum == pool[i][0].sum - pool[i][k - 1].sum ==>
          !Larger(pool[j][0], pool[i][0]))
  }

  /** Every pick is the widest state of its pool. */
  ghost predicate WidestFirst(pool: seq<State>, picks: seq<Pick>, k: nat)
    requires 0 < k && Uniform(pool, k) && ValidPicks(|pool|, picks)
    decreases |pool|
  {
    |pool| == 1 ||
    (StepUniform(pool, picks[0], k);
     && Widest(pool, picks[0].first, k) && Widest(Without(pool, picks[0].first), picks[0].second, k)
     && WidestFirst(Step(pool, picks[0]), picks[1..], k))
  }

  lemma LeastInside(pool: seq<State>, i: nat, k: nat)
    requires 0 < k && Uniform(pool, k) && Least(pool, i, k)
    ensures i < |pool|
  {
  }

  lemma LeastIsWidest(pool: seq<State>, i: nat, k: nat)
    requires 0 < k && Uniform(pool, k) && Least(pool, i, k) && AllFall(pool)
    ensures Widest(pool, i, k)
  {
    hide Least, Larger, Falling;
    LeastInside(pool, i, k);
    forall j, p, q | 0 <= j < |pool| && 0 <= p < k && 0 <= q < k
      ensures pool[j][p].sum - pool[j][q].sum <= pool[i][0].sum - pool[i][k - 1].sum
    {
      HeapPops(pool, i, k, j, p, q);
    }
    forall j | 0 <= j < |pool| && pool[j][0].sum - pool[j][k - 1].sum == pool[i][0].sum - pool[i][k - 1].sum
      ensures !Larger(pool[j][0], pool[i][0])
    {
      HeapPops(pool, i, k, j, 0, k - 1);
    }
  }

  lemma RestFalls(pool: seq<State>, i: nat)
    requires AllFall(pool) && i < |pool|
    ensures AllFall(Without(pool, i))
  {
  }

  /** The pops of a heap take the widest state every time. */
  lemma {:induction false} HeapPopsWidest(pool: seq<State>, picks: seq<Pick>, k: nat)
    requires 0 < k && Uniform(pool, k) && ValidPicks(|pool|, picks) && HeapPicks(pool, picks, k) && AllFall(pool)
    ensures WidestFirst(pool, picks, k)
    decreases |pool|
  {
    hide Least, Widest, Step, AllFall;
    if |pool| == 1 {
    } else {
      StepUniform(pool, picks[0], k);
      RestFalls(pool, picks[0].first);
      LeastIsWidest(pool, picks[0].first, k);
      LeastIsWidest(Without(pool, picks[0].first), picks[0].second, k);
      StepFalls(pool, picks[0], k);
      HeapPopsWidest(Step(pool, picks[0]), picks[1..], k);
    }
  }

  /** So it is for the pools of every call. */
  lemma {:induction false} PartitioningPopsWidest(values: seq<int>, k: nat, equalSize: bool, picks: seq<Pick>)
    requires 0 < k && (equalSize ==> |values| % k == 0) && Uniform(InitialPool(values, k, equalSize), k)
    requires var pool := InitialPool(values, k, equalSize); ValidPicks(|pool|, picks) && HeapPicks(pool, picks, k)
    ensures WidestFirst(InitialPool(values, k, equalSize), picks, k)
  {
    InitialFalls(values, k, equalSize);
    HeapPopsWidest(InitialPool(values, k, equalSize), picks, k);
  }

  // ---------------------------------------------------------------- the sorted sequences

  lemma SetLessTransitive(a: Set, b: Set, c: Set)
    requires SetLess(a, b) && SetLess(b, c)
    ensures SetLess(a, c)
  {
    if |a.items| == |b.items| == |c.items| && a.sum == b.sum == c.sum {
      ItemsLessTransitive(a.items, b.items, c.items);
    }
  }

  lemma SetLessAsymmetric(a: Set, b: Set)
    requires SetLess(a, b)
    ensures !SetLess(b, a)
  {
    if SetLess(b, a) {
      SetLessTransitive(a, b, a);
      ItemsLessIrreflexive(a.items);
    }
  }

  lemma SetLessIrreflexive(a: Set)
    ensures !SetLess(a, a)
  {
    ItemsLessIrreflexive(a.items);
  }

  lemma SetGreaterIsStrict()
    ensures StrictWeak(SetGreater)
  {
    forall a, b | SetGreater(a, b)
      ensures !SetGreater(b, a)
    {
      SetLessAsymmetric(b, a);
    }
    forall a, b, c | !SetGreater(a, b) && !SetGreater(b, c)
      ensures !SetGreater(a, c)
    {
      if SetLess(c, a) {
        if a != b { SetLessTotal(a, b); SetLessTransitive(c, a, b); }
      }
    }
  }

  /** The sets of a state stand in falling order: by sum, then by number of items, then by the items. */
  lemma {:induction false} SetsInOrder(sets: seq<Set>, i: nat, j: nat)
    requires i < j < |Sorted(sets)|
    ensures multiset(Sorted(sets)) == multiset(sets)
    ensures !Larger(Sorted(sets)[j], Sorted(sets)[i])
  {
    SetGreaterIsStrict();
    SortInOrder(sets, SetGreater);
    SortPermutes(sets, SetGreater);
    SetLessExactly(Sorted(sets)[i], Sorted(sets)[j]);
    assert !SetGreater(Sorted(sets)[j], Sorted(sets)[i]);
  }

  /** The items go into the pool by value, and those of one value by index. */
  lemma {:induction false} ItemsInOrder(values: seq<int>, i: nat, j: nat)
    requires i < j < |SortedItems(values)|
    ensures multiset(SortedItems(values)) == multiset(Indexed(values))
    ensures
      var a, b := SortedItems(values)[i], SortedItems(values)[j];
      a.val < b.val || (a.val == b.val && a.idx <= b.idx)
  {
    assert StrictWeak(ItemBefore);
    SortInOrder(Indexed(values), ItemBefore);
    SortPermutes(Indexed(values), ItemBefore);
    assert !ItemBefore(SortedItems(values)[j], SortedItems(values)[i]);
  }
}
