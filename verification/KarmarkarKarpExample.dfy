/** One run of the largest differencing method in full: five values in two partitions. */
module KarmarkarKarpExample {
  import opened Permutations
  import opened KarmarkarKarp
  import opened KarmarkarKarpTheorems
  import opened KarmarkarKarpOrders

  const FIVE: seq<int> := [8, 7, 6, 5, 4]

  /** A state with two sets. */
  function Two(a: Set, b: Set): State {
    [a, b]
  }

  function Alone(idx: nat, val: int): State {
    [Set(val, [Item(idx, val)]), EMPTY]
  }

  const EIGHT := Alone(0, 8)
  const SEVEN := Alone(1, 7)
  const SIX := Alone(2, 6)
  const FIVES := Alone(3, 5)
  const FOUR := Alone(4, 4)

  const EIGHT_SEVEN := Two(Set(8, [Item(0, 8)]), Set(7, [Item(1, 7)]))
  const SIX_FIVE := Two(Set(6, [Item(2, 6)]), Set(5, [Item(3, 5)]))
  const ELEVEN_EIGHT := Two(Set(11, [Item(4, 4), Item(1, 7)]), Set(8, [Item(0, 8)]))
  const SIXTEEN_FOURTEEN := Two(Set(16, [Item(4, 4), Item(1, 7), Item(3, 5)]), Set(14, [Item(0, 8), Item(2, 6)]))

  const PICKS := [Pick(4, 3), Pick(2, 1), Pick(0, 0), Pick(1, 0)]

  lemma SortTwo(a: Set, b: Set)
    requires a.sum > b.sum
    ensures Sorted([a, b]) == [a, b] && Sorted([b, a]) == [a, b]
  {
    assert [a, b][1..] == [b] && [b, a][1..] == [a] && [a][1..] == [] && [b][1..] == [];
    assert SortBy([b], SetGreater) == Insert(b, SortBy([b][1..], SetGreater), SetGreater) == [b];
    assert SortBy([a], SetGreater) == Insert(a, SortBy([a][1..], SetGreater), SetGreater) == [a];
  }

  lemma SumOne(x: Item)
    ensures SumBy([x], Val) == x.val && SumBy<Item>([], Val) == 0
  {
    assert [x][1..] == [];
  }

  lemma MergeTwo(a: State, b: State)
    requires |a| == 2 && |b| == 2
    ensures Paired(a, b) == [Joined(a[0], b[1]), Joined(a[1], b[0])]
  {
  }

  lemma AloneIsNew(idx: nat, val: int)
    requires 0 < val
    ensures NewState([Item(idx, val)], 2) == Alone(idx, val)
  {
    var item := Item(idx, val);
    assert Unsorted([item], 2) == [Set(val, [item]), EMPTY];
    SortTwo(Set(val, [item]), EMPTY);
  }

  /** The first set takes the other's second one, and the second its first one. */
  lemma MergeIs(a: State, b: State, s: State)
    requires |a| == |b| == |s| == 2 && s[0].sum > s[1].sum
    requires s[0].sum == a[0].sum + SumBy(b[1].items, Val) && s[0].items == a[0].items + b[1].items
    requires s[1].sum == a[1].sum + SumBy(b[0].items, Val) && s[1].items == a[1].items + b[0].items
    ensures Merge(a, b) == s
  {
    MergeTwo(a, b);
    SortTwo(s[0], s[1]);
    assert s == [s[0], s[1]];
  }

  lemma Merges()
    ensures Merge(EIGHT, SEVEN) == EIGHT_SEVEN && Merge(SIX, FIVES) == SIX_FIVE
    ensures Merge(FOUR, EIGHT_SEVEN) == ELEVEN_EIGHT && Merge(ELEVEN_EIGHT, SIX_FIVE) == SIXTEEN_FOURTEEN
  {
    hide Merge;
    SumOne(Item(1, 7));
    SumOne(Item(3, 5));
    SumOne(Item(0, 8));
    SumOne(Item(2, 6));
    MergeIs(EIGHT, SEVEN, EIGHT_SEVEN);
    MergeIs(SIX, FIVES, SIX_FIVE);
    MergeIs(FOUR, EIGHT_SEVEN, ELEVEN_EIGHT);
    MergeIs(ELEVEN_EIGHT, SIX_FIVE, SIXTEEN_FOURTEEN);
  }

  lemma OneAtATime(items: seq<Item>, k: nat)
    requires 0 < k && items != []
    ensures Singles(items, k) == [NewState([items[0]], k)] + Singles(items[1..], k)
  {
    assert items[..1] == [items[0]];
  }

  lemma {:induction false} InsertBehind(x: Item, s: seq<Item>)
    requires forall y <- s :: ItemBefore(y, x)
    ensures Insert(x, s, ItemBefore) == s + [x]
  {
    if s == [] {
    } else {
      InsertBehind(x, s[1..]);
      assert s == [s[0]] + s[1..];
    }
  }

  lemma SortedFive()
    ensures SortedItems(FIVE) == [Item(4, 4), Item(3, 5), Item(2, 6), Item(1, 7), Item(0, 8)]
  {
    var raw := [Item(0, 8), Item(1, 7), Item(2, 6), Item(3, 5), Item(4, 4)];
    assert Indexed(FIVE) == raw;
    assert raw[1..][1..] == raw[2..] && raw[2..][1..] == raw[3..] && raw[3..][1..] == raw[4..] && raw[4..][1..] == [];
    assert SortBy(raw[4..], ItemBefore) == [Item(4, 4)];
    InsertBehind(Item(3, 5), [Item(4, 4)]);
    InsertBehind(Item(2, 6), [Item(4, 4), Item(3, 5)]);
    InsertBehind(Item(1, 7), [Item(4, 4), Item(3, 5), Item(2, 6)]);
    InsertBehind(Item(0, 8), [Item(4, 4), Item(3, 5), Item(2, 6), Item(1, 7)]);
    assert SortBy(raw[3..], ItemBefore) == [Item(4, 4), Item(3, 5)];
    assert SortBy(raw[2..], ItemBefore) == [Item(4, 4), Item(3, 5), Item(2, 6)];
    assert SortBy(raw[1..], ItemBefore) == [Item(4, 4), Item(3, 5), Item(2, 6), Item(1, 7)];
  }

  lemma Pool()
    ensures InitialPool(FIVE, 2, false) == [FOUR, FIVES, SIX, SEVEN, EIGHT]
  {
    var items := [Item(4, 4), Item(3, 5), Item(2, 6), Item(1, 7), Item(0, 8)];
    SortedFive();
    AloneIsNew(4, 4);
    AloneIsNew(3, 5);
    AloneIsNew(2, 6);
    AloneIsNew(1, 7);
    AloneIsNew(0, 8);
    hide NewState;
    OneAtATime(items, 2);
    OneAtATime(items[1..], 2);
    OneAtATime(items[2..], 2);
    OneAtATime(items[3..], 2);
    OneAtATime(items[4..], 2);
    assert items[1..][1..] == items[2..] && items[2..][1..] == items[3..] && items[3..][1..] == items[4..];
    assert items[4..][1..] == [];
  }

  // ---------------------------------------------------------------- the pops

  const POOL1 := [FOUR, FIVES, SIX, SEVEN, EIGHT]
  const POOL2 := [FOUR, FIVES, SIX, EIGHT_SEVEN]
  const POOL3 := [FOUR, EIGHT_SEVEN, SIX_FIVE]
  const POOL4 := [SIX_FIVE, ELEVEN_EIGHT]
  const POOL5 := [SIXTEEN_FOURTEEN]

  /** The pick is one of the heap, and leads from one pool to the next. */
  ghost predicate Pops(pool: seq<State>, pick: Pick, next: seq<State>) {
    && Uniform(pool, 2) && pick.first < |pool| && pick.second < |pool| - 1
    && |pool[pick.first]| == |Without(pool, pick.first)[pick.second]|
    && Least(pool, pick.first, 2) && Uniform(Without(pool, pick.first), 2)
    && Least(Without(pool, pick.first), pick.second, 2) && Step(pool, pick) == next
  }

  lemma PopOfFive()
    ensures Pops(POOL1, PICKS[0], POOL2)
  {
    Merges();
    hide Merge, SetLess;
    SetLessIrreflexive(EIGHT[0]);
    SetLessIrreflexive(SEVEN[0]);
    assert Without(POOL1, 4) == [FOUR, FIVES, SIX, SEVEN];
    assert Without(Without(POOL1, 4), 3) == [FOUR, FIVES, SIX];
  }

  lemma PopOfFour()
    ensures Pops(POOL2, PICKS[1], POOL3)
  {
    Merges();
    hide Merge, SetLess;
    SetLessIrreflexive(SIX[0]);
    SetLessIrreflexive(FIVES[0]);
    assert Without(POOL2, 2) == [FOUR, FIVES, EIGHT_SEVEN];
    assert Without(Without(POOL2, 2), 1) == [FOUR, EIGHT_SEVEN];
  }

  /** Two states are equally wide: the one with the larger first set is popped. */
  lemma PopOfThree()
    ensures Pops(POOL3, PICKS[2], POOL4)
  {
    Merges();
    hide Merge;
    assert Without(POOL3, 0) == [EIGHT_SEVEN, SIX_FIVE];
    assert Without(Without(POOL3, 0), 0) == [SIX_FIVE];
    SetLessIrreflexive(EIGHT_SEVEN[0]);
    SetLessIrreflexive(FOUR[0]);
  }

  lemma PopOfTwo()
    ensures Pops(POOL4, PICKS[3], POOL5)
  {
    Merges();
    hide Merge, SetLess;
    SetLessIrreflexive(ELEVEN_EIGHT[0]);
    SetLessIrreflexive(SIX_FIVE[0]);
    assert Without(POOL4, 1) == [SIX_FIVE];
    assert Without(Without(POOL4, 1), 0) == [];
  }

  lemma PopFirst(pool: seq<State>, picks: seq<Pick>, next: seq<State>)
    requires |pool| > 1 && picks != [] && Pops(pool, picks[0], next) && Uniform(next, 2) && |next| == |pool| - 1
    requires ValidPicks(|next|, picks[1..]) && HeapPicks(next, picks[1..], 2)
    ensures ValidPicks(|pool|, picks) && HeapPicks(pool, picks, 2)
    ensures ReduceBy(pool, picks, 2) == ReduceBy(next, picks[1..], 2)
  {
    hide Least, Step;
  }

  lemma LastState()
    ensures Uniform(POOL5, 2) && ValidPicks(1, []) && HeapPicks(POOL5, [], 2)
    ensures ReduceBy(POOL5, [], 2) == SIXTEEN_FOURTEEN
  {
  }

  lemma Run()
    ensures Uniform(POOL1, 2) && ValidPicks(5, PICKS) && HeapPicks(POOL1, PICKS, 2)
    ensures ReduceBy(POOL1, PICKS, 2) == SIXTEEN_FOURTEEN
  {
    PopOfFive();
    PopOfFour();
    PopOfThree();
    PopOfTwo();
    hide Pops, HeapPicks, ReduceBy;
    assert PICKS[1..][1..] == PICKS[2..] && PICKS[2..][1..] == PICKS[3..] && PICKS[3..][1..] == [];
    LastState();
    PopFirst(POOL4, PICKS[3..], POOL5);
    PopFirst(POOL3, PICKS[2..], POOL4);
    PopFirst(POOL2, PICKS[1..], POOL3);
    PopFirst(POOL1, PICKS, POOL2);
  }

  lemma PartitionOfRun()
    requires InitialPool(FIVE, 2, false) == POOL1 && Uniform(POOL1, 2) && ValidPicks(5, PICKS)
    requires ReduceBy(POOL1, PICKS, 2) == SIXTEEN_FOURTEEN
    ensures PartitionBy(FIVE, 2, false, PICKS) == [[4, 1, 3], [0, 2]]
  {
    hide ReduceBy, InitialPool, ValidPicks;
    assert Indices(SIXTEEN_FOURTEEN[0]) == [4, 1, 3] && Indices(SIXTEEN_FOURTEEN[1]) == [0, 2];
    assert Partitions(SIXTEEN_FOURTEEN) == [[4, 1, 3], [0, 2]];
  }

  /** Eight, seven, six, five and four are divided into sixteen and fourteen, whatever the layout of the heap. */
  lemma {:induction false} FiveInTwo(picks: seq<Pick>)
    requires Uniform(InitialPool(FIVE, 2, false), 2)
    requires var pool := InitialPool(FIVE, 2, false); ValidPicks(|pool|, picks) && HeapPicks(pool, picks, 2)
    ensures PartitionBy(FIVE, 2, false, picks) == [[4, 1, 3], [0, 2]]
  {
    hide ReduceBy, HeapPicks, InitialPool, ValidPicks, PartitionBy;
    Pool();
    Run();
    PartitionOfRun();
    HeapDecides(FIVE, 2, false, picks, PICKS);
  }
}
