/**
 `karmarkar_karp` as it runs: sets and states are objects that are merged in place. Every method is
 proved against the functions on values.
 */
module KarmarkarKarpClass {
  import opened Permutations
  import opened KarmarkarKarp

  class SetObject {
    var sum: int
    var items: seq<Item>

    function Value(): Set
      reads this
    {
      Set(sum, items)
    }

    constructor ()
      ensures Value() == EMPTY
    {
      sum, items := 0, [];
    }

    method Add(idx: nat, val: int)
      modifies this
      ensures sum == old(sum) + val && items == old(items) + [Item(idx, val)]
    {
      items := items + [Item(idx, val)];
      sum := sum + val;
    }

    method Merge(other: SetObject)
      requires other != this
      modifies this
      ensures Value() == Joined(old(Value()), other.Value())
    {
      for i := 0 to |other.items|
        invariant items == old(items) + other.items[..i]
        invariant sum == old(sum) + SumBy(other.items[..i], Val)
      {
        var item := other.items[i];
        Add(item.idx, item.val);
        assert other.items[..i + 1] == other.items[..i] + [item];
        SumConcat(other.items[..i], [item], Val);
        assert [item][1..] == [];
      }
      assert other.items[..|other.items|] == other.items;
    }
  }

  function Values(sets: seq<SetObject>): (r: seq<Set>)
    reads sets
    ensures |r| == |sets|
  {
    seq(|sets|, i requires 0 <= i < |sets| reads sets => sets[i].Value())
  }

  datatype Keyed = Keyed(key: Set, target: SetObject)

  function KeyOf(x: Keyed): Set {
    x.key
  }

  function ObjectOf(x: Keyed): SetObject {
    x.target
  }

  predicate KeyedGreater(a: Keyed, b: Keyed) {
    SetGreater(a.key, b.key)
  }

  lemma {:induction false} InsertKeyed(x: Keyed, s: seq<Keyed>)
    ensures Map(Insert(x, s, KeyedGreater), KeyOf) == Insert(x.key, Map(s, KeyOf), SetGreater)
  {
    if s != [] && KeyedGreater(s[0], x) {
      InsertKeyed(x, s[1..]);
      assert Map(s, KeyOf)[1..] == Map(s[1..], KeyOf);
    } else {
      assert Map([x] + s, KeyOf) == [x.key] + Map(s, KeyOf);
    }
  }

  lemma {:induction false} SortKeyed(s: seq<Keyed>)
    ensures Map(SortBy(s, KeyedGreater), KeyOf) == Sorted(Map(s, KeyOf))
  {
    if s == [] {
    } else {
      SortKeyed(s[1..]);
      InsertKeyed(s[0], SortBy(s[1..], KeyedGreater));
      assert Map(s, KeyOf)[1..] == Map(s[1..], KeyOf);
    }
  }

  /** `sorted(sets, reverse=True)`: the same objects in decreasing order. */
  method SortSets(sets: seq<SetObject>) returns (r: seq<SetObject>)
    ensures Values(r) == Sorted(Values(sets)) && multiset(r) == multiset(sets) && |r| == |sets|
  {
    var keyed := seq(|sets|, i requires 0 <= i < |sets| reads sets => Keyed(sets[i].Value(), sets[i]));
    var order := SortBy(keyed, KeyedGreater);
    SortPermutes(keyed, KeyedGreater);
    r := Map(order, ObjectOf);
    MapPermutes(order, keyed, ObjectOf);
    assert Map(keyed, ObjectOf) == sets;
    SortKeyed(keyed);
    assert Map(keyed, KeyOf) == Values(sets);
    forall i | 0 <= i < |r|
      ensures order[i].target.Value() == order[i].key
    {
      assert order[i] in multiset(keyed);
    }
    assert Values(r) == Map(order, KeyOf);
  }

  ghost predicate Distinct(sets: seq<SetObject>) {
    forall i, j :: 0 <= i < j < |sets| ==> sets[i] != sets[j]
  }

  ghost predicate Apart(a: seq<SetObject>, b: seq<SetObject>) {
    forall i, j :: 0 <= i < |a| && 0 <= j < |b| ==> a[i] != b[j]
  }

  lemma DistinctPermutes(a: seq<SetObject>, b: seq<SetObject>)
    requires multiset(a) == multiset(b) && Distinct(b)
    ensures Distinct(a) && forall s :: s in a <==> s in b
  {
    forall s
      ensures s in a <==> s in b
      ensures multiset(b)[s] <= 1
    {
      assert s in a <==> s in multiset(a);
      if s in b {
        var i :| 0 <= i < |b| && b[i] == s;
        WithoutBag(b, i);
      }
    }
    forall i, j | 0 <= i < j < |a|
      ensures a[i] != a[j]
    {
      if a[i] == a[j] {
        Twice(a, i, j);
      }
    }
  }

  /** `k` new sets, the first ones holding one item each. */
  method NewSets(items: seq<Item>, k: nat) returns (sets: seq<SetObject>)
    requires |items| <= k
    ensures |sets| == k && Distinct(sets) && fresh(sets) && Values(sets) == Unsorted(items, k)
  {
    sets := [];
    while |sets| < k
      invariant |sets| <= k && Distinct(sets) && fresh(sets)
      invariant forall i :: 0 <= i < |sets| ==> sets[i].Value() == EMPTY
    {
      var s := new SetObject();
      sets := sets + [s];
    }
    for i := 0 to |items|
      invariant forall j :: 0 <= j < k ==> sets[j].Value() == if j < i then Set(items[j].val, [items[j]]) else EMPTY
    {
      sets[i].Add(items[i].idx, items[i].val);
    }
  }

  class StateObject {
    const k: nat
    var sets: seq<SetObject>

    ghost predicate Valid()
      reads this
    {
      |sets| == k && Distinct(sets)
    }

    function Value(): State
      reads this, sets
    {
      Values(sets)
    }

    constructor (items: seq<Item>, k: nat)
      requires |items| <= k
      ensures this.k == k && Valid() && fresh(sets) && Value() == NewState(items, k)
    {
      this.k := k;
      sets := [];
      new;
      var created := NewSets(items, k);
      sets := SortSets(created);
      DistinctPermutes(sets, created);
      assert forall i :: 0 <= i < |sets| ==> sets[i] in created;
    }

    /** The largest set of this state takes over the smallest of the other. */
    method Merge(other: StateObject)
      requires Valid() && other.Valid() && other.k == k && other != this
      requires Apart(sets, other.sets)
      modifies this, sets
      ensures Valid() && forall s :: s in sets <==> s in old(sets)
      ensures Value() == KarmarkarKarp.Merge(old(Value()), old(other.Value()))
    {
      var mine, theirs := sets, other.sets;
      for i := 0 to k
        invariant sets == mine && other.sets == theirs
        invariant forall j :: 0 <= j < i ==> mine[j].Value() == Joined(old(mine[j].Value()), old(theirs[k - 1 - j].Value()))
        invariant forall j :: i <= j < k ==> mine[j].Value() == old(mine[j].Value())
        invariant forall j :: 0 <= j < k ==> theirs[j].Value() == old(theirs[j].Value())
      {
        mine[i].Merge(theirs[k - 1 - i]);
      }
      assert Values(mine) == Paired(old(Value()), old(other.Value()));
      sets := SortSets(mine);
      DistinctPermutes(sets, mine);
    }

    method GetPartitions() returns (partitions: seq<seq<nat>>)
      ensures partitions == Partitions(Value())
    {
      partitions := [];
      for i := 0 to |sets|
        invariant partitions == Partitions(Value()[..i])
      {
        var current: seq<nat> := [];
        for j := 0 to |sets[i].items|
          invariant current == Map(sets[i].items[..j], Idx)
        {
          current := current + [sets[i].items[j].idx];
        }
        assert current == Indices(sets[i].Value());
        partitions := partitions + [current];
      }
      assert Value()[..|sets|] == Value();
    }
  }
}
