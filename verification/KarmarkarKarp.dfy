/**
 The largest differencing method for balanced partitions (utils/seqlen_balancing.py). The heap is
 modelled by what it promises: every pop takes a state that no other state comes before. Most
 results do not even need that; they hold for every order in which states may be merged.
 */
module KarmarkarKarp {
  import opened Permutations

  datatype Item = Item(idx: nat, val: int)

  /** A growing partition with its sum. */
  datatype Set = Set(sum: int, items: seq<Item>)

  const EMPTY := Set(0, [])

  /** `k` sets, always sorted in decreasing order. */
  type State = seq<Set>

  function Val(item: Item): int {
    item.val
  }

  function Idx(item: Item): nat {
    item.idx
  }

  function SumOf(s: Set): int {
    s.sum
  }

  function ItemsOf(s: Set): seq<Item> {
    s.items
  }

  function Used(s: Set): int {
    if s.items == [] then 0 else 1
  }

  function StateItems(s: State): seq<Item> {
    Concat(Map(s, ItemsOf))
  }

  function PoolItems(pool: seq<State>): seq<Item> {
    Concat(Map(pool, StateItems))
  }

  // ---------------------------------------------------------------- the orders

  /** The comparison of two item lists, element by element. */
  predicate ItemsLess(a: seq<Item>, b: seq<Item>) {
    b != [] &&
    (a == [] ||
     (if a[0].idx != b[0].idx then a[0].idx < b[0].idx
      else if a[0].val != b[0].val then a[0].val < b[0].val
      else ItemsLess(a[1..], b[1..])))
  }

  predicate SetLess(a: Set, b: Set) {
    if a.sum != b.sum then a.sum < b.sum
    else if |a.items| != |b.items| then |a.items| < |b.items|
    else ItemsLess(a.items, b.items)
  }

  predicate SetGreater(a: Set, b: Set) {
    SetLess(b, a)
  }

  function Spread(s: State): int
    requires s != []
  {
    s[0].sum - s[|s| - 1].sum
  }

  /** The heap order: the largest spread comes first, then the largest set. */
  predicate StateLess(a: State, b: State)
    requires a != [] && b != []
  {
    if Spread(a) != Spread(b) then Spread(a) > Spread(b) else SetLess(b[0], a[0])
  }

  predicate ItemBefore(a: Item, b: Item) {
    a.val < b.val || (a.val == b.val && a.idx < b.idx)
  }

  // ---------------------------------------------------------------- states

  function Sorted(sets: seq<Set>): State {
    SortBy(sets, SetGreater)
  }

  function Unsorted(items: seq<Item>, k: nat): (sets: seq<Set>)
    ensures |sets| == k
  {
    seq(k, i requires 0 <= i < k => if i < |items| then Set(items[i].val, [items[i]]) else EMPTY)
  }

  function NewState(items: seq<Item>, k: nat): State
    requires |items| <= k
  {
    Sorted(Unsorted(items, k))
  }

  function Joined(a: Set, b: Set): Set {
    Set(a.sum + SumBy(b.items, Val), a.items + b.items)
  }

  function Paired(a: State, b: State): (sets: seq<Set>)
    requires |a| == |b|
    ensures |sets| == |a| && forall i :: 0 <= i < |a| ==> sets[i] == Joined(a[i], b[|a| - 1 - i])
  {
    seq(|a|, i requires 0 <= i < |a| => Joined(a[i], b[|a| - 1 - i]))
  }

  /** The largest set of one state takes the smallest of the other, and so on. */
  function Merge(a: State, b: State): State
    requires |a| == |b|
  {
    Sorted(Paired(a, b))
  }

  lemma MergeSize(a: State, b: State)
    requires |a| == |b|
    ensures |Merge(a, b)| == |a|
  {
    SortPermutes(Paired(a, b), SetGreater);
  }

  // ---------------------------------------------------------------- the pool

  function Indexed(values: seq<int>): (items: seq<Item>)
    ensures |items| == |values|
  {
    seq(|values|, i requires 0 <= i < |values| => Item(i, values[i]))
  }

  function SortedItems(values: seq<int>): seq<Item> {
    SortBy(Indexed(values), ItemBefore)
  }

  /** One state for every item. */
  function Singles(items: seq<Item>, k: nat): seq<State>
    requires 0 < k
  {
    if items == [] then [] else [NewState(items[..1], k)] + Singles(items[1..], k)
  }

  /** One state for every block of `k` items. */
  function Blocks(items: seq<Item>, k: nat): seq<State>
    requires 0 < k
  {
    if |items| < k then [] else [NewState(items[..k], k)] + Blocks(items[k..], k)
  }

  function InitialPool(values: seq<int>, k: nat, equalSize: bool): seq<State>
    requires 0 < k && (equalSize ==> |values| % k == 0)
  {
    SortPermutes(Indexed(values), ItemBefore);
    if equalSize then Blocks(SortedItems(values), k) else Singles(SortedItems(values), k)
  }

  /** The positions of the popped states: the first in the pool, the second in what is left. */
  datatype Pick = Pick(first: nat, second: nat)

  predicate Uniform(pool: seq<State>, k: nat) {
    forall i :: 0 <= i < |pool| ==> |pool[i]| == k
  }

  predicate ValidPicks(n: nat, picks: seq<Pick>)
    decreases n
  {
    if n <= 1 then n == 1 && picks == []
    else picks != [] && picks[0].first < n && picks[0].second < n - 1 && ValidPicks(n - 1, picks[1..])
  }

  /** Two states are popped, and their merge is pushed. */
  function Step(pool: seq<State>, pick: Pick): (r: seq<State>)
    requires pick.first < |pool| && pick.second < |pool| - 1
    requires |pool[pick.first]| == |Without(pool, pick.first)[pick.second]|
    ensures |r| == |pool| - 1
  {
    var rest := Without(pool, pick.first);
    Without(rest, pick.second) + [Merge(pool[pick.first], rest[pick.second])]
  }

  lemma StepUniform(pool: seq<State>, pick: Pick, k: nat)
    requires Uniform(pool, k) && pick.first < |pool| && pick.second < |pool| - 1
    ensures |pool[pick.first]| == |Without(pool, pick.first)[pick.second]| == k
    ensures Uniform(Step(pool, pick), k)
  {
    hide Merge, SortBy;
    MergeSize(pool[pick.first], Without(pool, pick.first)[pick.second]);
  }

  /** The state that is left when the picks are followed. */
  function ReduceBy(pool: seq<State>, picks: seq<Pick>, k: nat): State
    requires Uniform(pool, k) && ValidPicks(|pool|, picks)
    decreases |pool|
  {
    if |pool| == 1 then pool[0]
    else
      StepUniform(pool, picks[0], k);
      ReduceBy(Step(pool, picks[0]), picks[1..], k)
  }

  ghost predicate Least(pool: seq<State>, i: nat, k: nat)
    requires 0 < k && Uniform(pool, k)
  {
    i < |pool| && forall j :: 0 <= j < |pool| ==> !StateLess(pool[j], pool[i])
  }

  /** Every pick is one that a heap can make. */
  ghost predicate HeapPicks(pool: seq<State>, picks: seq<Pick>, k: nat)
    requires 0 < k && Uniform(pool, k) && ValidPicks(|pool|, picks)
    decreases |pool|
  {
    |pool| == 1 ||
    (StepUniform(pool, picks[0], k);
     && Least(pool, picks[0].first, k) && Least(Without(pool, picks[0].first), picks[0].second, k)
     && HeapPicks(Step(pool, picks[0]), picks[1..], k))
  }

  function Indices(s: Set): seq<nat> {
    Map(s.items, Idx)
  }

  function Partitions(s: State): seq<seq<nat>> {
    Map(s, Indices)
  }
}
