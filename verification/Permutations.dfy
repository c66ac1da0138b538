/** Sequences up to order: sorting, concatenation and sums of rearranged sequences. */
module Permutations {

  function Concat<T>(ss: seq<seq<T>>): seq<T> {
    if ss == [] then [] else ss[0] + Concat(ss[1..])
  }

  function Map<T, U>(s: seq<T>, f: T -> U): (r: seq<U>)
    ensures |r| == |s| && forall i :: 0 <= i < |s| ==> r[i] == f(s[i])
  {
    seq(|s|, i requires 0 <= i < |s| => f(s[i]))
  }

  function SumBy<T>(s: seq<T>, f: T -> int): int {
    if s == [] then 0 else f(s[0]) + SumBy(s[1..], f)
  }

  function Range(n: nat): (r: seq<nat>)
    ensures |r| == n && forall i :: 0 <= i < n ==> r[i] == i
  {
    seq(n, i => i)
  }

  // ---------------------------------------------------------------- sorting

  /** `x` goes in front of the first element that does not have to stand before it. */
  function Insert<T>(x: T, s: seq<T>, before: (T, T) -> bool): seq<T> {
    if s == [] then [x]
    else if before(s[0], x) then [s[0]] + Insert(x, s[1..], before)
    else [x] + s
  }

  /** The stable sort: `before(a, b)` says that `a` has to stand before `b`. */
  function SortBy<T>(s: seq<T>, before: (T, T) -> bool): seq<T> {
    if s == [] then [] else Insert(s[0], SortBy(s[1..], before), before)
  }

  lemma {:induction false} InsertPermutes<T>(x: T, s: seq<T>, before: (T, T) -> bool)
    ensures multiset(Insert(x, s, before)) == multiset(s) + multiset{x}
    ensures |Insert(x, s, before)| == |s| + 1
  {
    if s == [] {
    } else {
      assert s == [s[0]] + s[1..];
      InsertPermutes(x, s[1..], before);
    }
  }

  lemma {:induction false} SortPermutes<T>(s: seq<T>, before: (T, T) -> bool)
    ensures multiset(SortBy(s, before)) == multiset(s) && |SortBy(s, before)| == |s|
  {
    if s == [] {
    } else {
      assert s == [s[0]] + s[1..];
      SortPermutes(s[1..], before);
      InsertPermutes(s[0], SortBy(s[1..], before), before);
    }
  }

  /** The order looks at `key` first, larger keys coming before smaller ones. */
  ghost predicate Follows<T(!new)>(before: (T, T) -> bool, key: T -> int) {
    forall a, b :: (key(a) > key(b) ==> before(a, b)) && (before(a, b) ==> key(a) >= key(b))
  }

  ghost predicate Falling<T>(s: seq<T>, key: T -> int) {
    forall i, j :: 0 <= i <= j < |s| ==> key(s[i]) >= key(s[j])
  }

  lemma {:induction false} InsertSorts<T(!new)>(x: T, s: seq<T>, before: (T, T) -> bool, key: T -> int)
    requires Follows(before, key) && Falling(s, key)
    ensures Falling(Insert(x, s, before), key)
  {
    if s != [] && before(s[0], x) {
      var rest := Insert(x, s[1..], before);
      InsertSorts(x, s[1..], before, key);
      InsertPermutes(x, s[1..], before);
      forall y <- rest
        ensures key(s[0]) >= key(y)
      {
        assert y in multiset(rest);
        if y != x { assert y in s[1..]; }
      }
    }
  }

  lemma {:induction false} SortSorts<T(!new)>(s: seq<T>, before: (T, T) -> bool, key: T -> int)
    requires Follows(before, key)
    ensures Falling(SortBy(s, before), key)
  {
    if s == [] {
    } else {
      SortSorts(s[1..], before, key);
      InsertSorts(s[0], SortBy(s[1..], before), before, key);
    }
  }

  // ---------------------------------------------------------------- what does not depend on the order

  /** A strict order, in which elements may be equivalent. */
  ghost predicate StrictWeak<T(!new)>(before: (T, T) -> bool) {
    && (forall a, b :: before(a, b) ==> !before(b, a))
    && (forall a, b, c :: !before(a, b) && !before(b, c) ==> !before(a, c))
  }

  /** No element has to stand before an earlier one. */
  ghost predicate InOrder<T>(s: seq<T>, before: (T, T) -> bool) {
    forall i, j :: 0 <= i < j < |s| ==> !before(s[j], s[i])
  }

  lemma {:induction false} InsertInOrder<T(!new)>(x: T, s: seq<T>, before: (T, T) -> bool)
    requires StrictWeak(before) && InOrder(s, before)
    ensures InOrder(Insert(x, s, before), before)
  {
    if s == [] {
    } else if before(s[0], x) {
      var rest := Insert(x, s[1..], before);
      InsertInOrder(x, s[1..], before);
      InsertPermutes(x, s[1..], before);
      forall y <- rest
        ensures !before(y, s[0])
      {
        assert y in multiset(rest);
        if y != x { assert y in s[1..]; }
      }
    } else {
      forall y <- s
        ensures !before(y, x)
      {
        var i :| 0 <= i < |s| && s[i] == y;
        assert i > 0 ==> !before(s[i], s[0]);
      }
    }
  }

  lemma {:induction false} SortInOrder<T(!new)>(s: seq<T>, before: (T, T) -> bool)
    requires StrictWeak(before)
    ensures InOrder(SortBy(s, before), before)
  {
    if s == [] {
    } else {
      SortInOrder(s[1..], before);
      InsertInOrder(s[0], SortBy(s[1..], before), before);
    }
  }

  function Without<T>(s: seq<T>, i: nat): (r: seq<T>)
    requires i < |s|
    ensures |r| == |s| - 1
  {
    s[..i] + s[i + 1..]
  }

  lemma WithoutBag<T>(s: seq<T>, i: nat)
    requires i < |s|
    ensures multiset(s) == multiset(Without(s, i)) + multiset{s[i]}
  {
    assert s == s[..i] + [s[i]] + s[i + 1..];
  }

  /** The place in `b` of the first element of `a`, and what is left of both. */
  lemma FindFirst<T>(a: seq<T>, b: seq<T>) returns (i: nat)
    requires multiset(a) == multiset(b) && a != []
    ensures i < |b| && b[i] == a[0] && multiset(a[1..]) == multiset(Without(b, i))
  {
    assert a[0] in multiset(b);
    i :| 0 <= i < |b| && b[i] == a[0];
    WithoutBag(b, i);
    assert Without(a, 0) == a[1..];
    WithoutBag(a, 0);
    assert multiset(a[1..]) == multiset(a) - multiset{a[0]};
    assert multiset(Without(b, i)) == multiset(b) - multiset{b[i]};
  }

  lemma {:induction false} SumConcat<T>(a: seq<T>, b: seq<T>, f: T -> int)
    ensures SumBy(a + b, f) == SumBy(a, f) + SumBy(b, f)
  {
    if a == [] {
      assert a + b == b;
    } else {
      assert (a + b)[1..] == a[1..] + b;
      SumConcat(a[1..], b, f);
    }
  }

  lemma {:induction false} SumWithout<T>(s: seq<T>, i: nat, f: T -> int)
    requires i < |s|
    ensures SumBy(s, f) == f(s[i]) + SumBy(Without(s, i), f)
  {
    if i == 0 {
      assert Without(s, 0) == s[1..];
    } else {
      SumWithout(s[1..], i - 1, f);
      assert Without(s, i)[1..] == Without(s[1..], i - 1);
    }
  }

  lemma {:induction false} SumPermutes<T>(a: seq<T>, b: seq<T>, f: T -> int)
    requires multiset(a) == multiset(b)
    ensures SumBy(a, f) == SumBy(b, f)
    decreases |a|
  {
    if a == [] {
      assert |b| == |multiset(b)| == 0;
    } else {
      var i := FindFirst(a, b);
      SumPermutes(a[1..], Without(b, i), f);
      SumWithout(b, i, f);
    }
  }

  lemma {:induction false} ConcatAppend<T>(a: seq<seq<T>>, b: seq<seq<T>>)
    ensures Concat(a + b) == Concat(a) + Concat(b)
  {
    if a == [] {
      assert a + b == b;
    } else {
      assert (a + b)[1..] == a[1..] + b;
      ConcatAppend(a[1..], b);
    }
  }

  lemma {:induction false} ConcatWithout<T>(s: seq<seq<T>>, i: nat)
    requires i < |s|
    ensures multiset(Concat(s)) == multiset(s[i]) + multiset(Concat(Without(s, i)))
  {
    if i == 0 {
      assert Without(s, 0) == s[1..];
    } else {
      ConcatWithout(s[1..], i - 1);
      assert Without(s, i)[1..] == Without(s[1..], i - 1);
    }
  }

  lemma {:induction false} ConcatPermutes<T>(a: seq<seq<T>>, b: seq<seq<T>>)
    requires multiset(a) == multiset(b)
    ensures multiset(Concat(a)) == multiset(Concat(b))
    decreases |a|
  {
    if a == [] {
      assert |b| == |multiset(b)| == 0;
    } else {
      var i := FindFirst(a, b);
      ConcatPermutes(a[1..], Without(b, i));
      ConcatWithout(b, i);
    }
  }

  lemma {:induction false} MapPermutes<T, U>(a: seq<T>, b: seq<T>, f: T -> U)
    requires multiset(a) == multiset(b)
    ensures multiset(Map(a, f)) == multiset(Map(b, f))
    decreases |a|
  {
    if a == [] {
      assert |b| == |multiset(b)| == 0;
    } else {
      var i := FindFirst(a, b);
      MapPermutes(a[1..], Without(b, i), f);
      assert Map(a, f) == [f(a[0])] + Map(a[1..], f);
      assert Without(Map(b, f), i) == Map(Without(b, i), f);
      WithoutBag(Map(b, f), i);
    }
  }

  lemma {:induction false} MapConcat<T, U>(ss: seq<seq<T>>, f: T -> U)
    ensures Map(Concat(ss), f) == Concat(Map(ss, s => Map(s, f)))
  {
    var each := s => Map(s, f);
    if ss == [] {
    } else {
      MapConcat(ss[1..], f);
      assert Map(Concat(ss), f) == Map(ss[0], f) + Map(Concat(ss[1..]), f);
      assert Map(ss, each)[1..] == Map(ss[1..], each);
    }
  }

  lemma {:induction false} RangeOnce(n: nat, x: nat)
    ensures multiset(Range(n))[x] == if x < n then 1 else 0
  {
    if n == 0 {
    } else {
      assert Range(n) == Range(n - 1) + [n - 1];
      RangeOnce(n - 1, x);
    }
  }

  lemma Twice<T>(s: seq<T>, i: nat, j: nat)
    requires i < j < |s| && s[i] == s[j]
    ensures multiset(s)[s[i]] >= 2
  {
    WithoutBag(s, i);
    assert Without(s, i)[j - 1] == s[j];
    assert s[j] in multiset(Without(s, i));
  }

  /** A rearrangement of 0 .. n - 1 has every number once. */
  lemma RangePermutation(s: seq<nat>, n: nat)
    requires multiset(s) == multiset(Range(n))
    ensures |s| == n
    ensures forall i :: 0 <= i < |s| ==> s[i] < n
    ensures forall i, j :: 0 <= i < j < |s| ==> s[i] != s[j]
    ensures forall x :: 0 <= x < n ==> x in s
  {
    assert |s| == |multiset(s)| == |multiset(Range(n))| == n;
    forall i | 0 <= i < |s|
      ensures s[i] < n
    {
      assert s[i] in multiset(Range(n));
    }
    forall i, j | 0 <= i < j < |s|
      ensures s[i] != s[j]
    {
      if s[i] == s[j] {
        Twice(s, i, j);
        RangeOnce(n, s[i]);
      }
    }
    forall x | 0 <= x < n
      ensures x in s
    {
      assert Range(n)[x] in multiset(s);
    }
  }

  // ---------------------------------------------------------------- sums

  function Self(v: int): int {
    v
  }

  function Total(values: seq<int>): int {
    SumBy(values, Self)
  }

  lemma {:induction false} SumAtLeast<T>(s: seq<T>, f: T -> int, c: int)
    requires forall i :: 0 <= i < |s| ==> f(s[i]) >= c
    ensures SumBy(s, f) >= |s| * c
  {
    if s == [] {
    } else {
      SumAtLeast(s[1..], f, c);
      assert |s| * c == |s[1..]| * c + c;
    }
  }

  lemma {:induction false} SumAtMost<T>(s: seq<T>, f: T -> int, c: int)
    requires forall i :: 0 <= i < |s| ==> f(s[i]) <= c
    ensures SumBy(s, f) <= |s| * c
  {
    if s == [] {
    } else {
      SumAtMost(s[1..], f, c);
      assert |s| * c == |s[1..]| * c + c;
    }
  }

  lemma {:induction false} SumOfConcat<T>(ss: seq<seq<T>>, f: T -> int)
    ensures SumBy(Concat(ss), f) == SumBy(ss, s => SumBy(s, f))
  {
    if ss == [] {
    } else {
      SumOfConcat(ss[1..], f);
      SumConcat(ss[0], Concat(ss[1..]), f);
    }
  }

  lemma {:induction false} SameSums<T>(s: seq<T>, f: T -> int, g: T -> int)
    requires forall i :: 0 <= i < |s| ==> f(s[i]) == g(s[i])
    ensures SumBy(s, f) == SumBy(s, g)
  {
    if s == [] {
    } else {
      SameSums(s[1..], f, g);
    }
  }

  // ---------------------------------------------------------------- sizes and reversal

  lemma SameSize<T>(a: seq<T>, b: seq<T>)
    requires multiset(a) == multiset(b)
    ensures |a| == |b|
  {
    assert |multiset(a)| == |multiset(b)|;
  }

  function Reversed<T>(s: seq<T>): (r: seq<T>)
    ensures |r| == |s| && forall i :: 0 <= i < |s| ==> r[i] == s[|s| - 1 - i]
  {
    seq(|s|, i requires 0 <= i < |s| => s[|s| - 1 - i])
  }

  lemma {:induction false} ReversedBag<T>(s: seq<T>)
    ensures multiset(Reversed(s)) == multiset(s)
  {
    if s == [] {
    } else {
      assert s == [s[0]] + s[1..];
      ReversedBag(s[1..]);
      assert Reversed(s) == Reversed(s[1..]) + [s[0]];
    }
  }
}
