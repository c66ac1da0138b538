/** The three splitters of grouped query-key-value tensors agree, and use every row exactly once. */
module QkvAgreement {
  import opened Wrappers
  import opened Arithmetic
  import opened Permutations
  import opened PythonSlices
  import opened QkvSplit

  // ---------------------------------------------------------------- equal chunks

  function Cut<T>(t: seq<T>, u: nat, n: nat): seq<seq<T>>
    requires |t| == Times(n, u)
  {
    if n == 0 then [] else [t[..u]] + Cut(t[u..], u, n - 1)
  }

  lemma {:induction false} PiecesAreCut<T>(t: seq<T>, u: nat, n: nat)
    requires 0 < u && 0 < n && |t| == Times(n, u)
    ensures Pieces(t, u) == Cut(t, u, n)
    decreases n
  {
    if n == 1 {
      assert t[..u] == t;
    } else {
      PiecesAreCut(t[u..], u, n - 1);
    }
  }

  lemma {:induction false} EmptyCut<T>(t: seq<T>, n: nat)
    requires |t| == Times(n, 0)
    ensures Cut(t, 0, n) == seq(n, _ => [])
  {
    if n == 0 {
    } else {
      EmptyCut(t[0..], n - 1);
    }
  }

  lemma Rearrange(a: int, b: int, c: int)
    ensures (a * b) * c == a * (b * c) && a * b == b * a && a * (b * c) == b * (a * c)
  {
  }

  lemma EvenChunkRows(n: nat, u: nat)
    requires 0 < n && 0 < u
    ensures ChunkRows(Times(n, u), n) == u && 0 < Times(n, u)
  {
    hide CeilDiv;
    TimesIsProduct(n, u);
    Rearrange(u, n, 1);
    OneMore(u - 1, n);
    TimesMonotone(1, u, n);
    CeilDivIsLeast(Times(n, u), n, u);
    CeilDivIsLeast(Times(n, u), n, u - 1);
  }

  lemma ChunkIsCut<T>(t: seq<T>, u: nat, n: nat)
    requires 0 < n && |t| == Times(n, u)
    ensures Chunk(t, n) == Cut(t, u, n)
  {
    if u == 0 {
      TimesIsProduct(n, 0);
      EmptyCut(t, n);
    } else {
      EvenChunkRows(n, u);
      PiecesAreCut(t, u, n);
    }
  }

  lemma SplitSingle<T>(chunk: seq<T>, a: nat, b: nat)
    requires |chunk| == a + b + b
    ensures SplitChunks([chunk], a, b) == Success(SplitOne(chunk, a, b))
  {
    assert [chunk][..|[chunk]| - 1] == [] && SplitChunks([chunk][..0], a, b) == Success(Qkv([], [], []));
    var one := SplitOne(chunk, a, b);
    assert Join(Qkv([], [], []), one) == one;
  }

  lemma {:induction false} SplitCut<T>(t: seq<T>, a: nat, b: nat, n: nat)
    requires |t| == Times(n, a + b + b)
    ensures SplitChunks(Cut(t, a + b + b, n), a, b) == Success(Grouped(t, a, b, n))
    decreases n
  {
    if n == 0 {
    } else {
      var u := a + b + b;
      SplitCut(t[u..], a, b, n - 1);
      SplitSingle(t[..u], a, b);
      SplitAppend([t[..u]], Cut(t[u..], u, n - 1), a, b);
    }
  }

  // ---------------------------------------------------------------- the sizes

  /** The rows of one group: the queries of `perKv` heads, a key and a value head. */
  function GroupRows(perKv: nat, headDim: nat): nat {
    Times(perKv, headDim) + headDim + headDim
  }

  lemma Factor(n: int, perKv: int, headDim: int)
    ensures n * (perKv * headDim + headDim + headDim) == (n * headDim) * (perKv + 2)
    ensures n * (perKv * headDim + headDim + headDim) == n * (perKv * headDim) + 2 * (n * headDim)
  {
  }

  lemma GroupRowsFactor(n: nat, perKv: nat, headDim: nat)
    ensures Times(n, GroupRows(perKv, headDim)) == Times(n, headDim) * (perKv + 2)
  {
    TimesIsProduct(n, GroupRows(perKv, headDim));
    TimesIsProduct(perKv, headDim);
    TimesIsProduct(n, headDim);
    Factor(n, perKv, headDim);
  }

  lemma SizesMatch(n: nat, perKv: nat, headDim: nat)
    requires 0 < n
    ensures SplitSizes(Times(n, GroupRows(perKv, headDim)), perKv, n) == (Times(perKv, headDim), headDim)
    ensures Times(n, GroupRows(perKv, headDim)) % (perKv + 2) == 0
  {
    hide Times, GroupRows;
    var rows, kv := Times(n, GroupRows(perKv, headDim)), Times(n, headDim);
    GroupRowsFactor(n, perKv, headDim);
    QuotientIs(rows, perKv + 2, kv, 0);
    TimesIsProduct(n, headDim);
    TimesIsProduct(kv, perKv);
    TimesIsProduct(perKv, headDim);
    Rearrange(n, headDim, perKv);
    Rearrange(perKv, headDim, n);
    QuotientIs(Times(kv, perKv), n, Times(perKv, headDim), 0);
    QuotientIs(kv, n, headDim, 0);
  }

  lemma HeadsMatch(kvHeads: nat, perKv: nat, rows: nat)
    requires 0 < kvHeads && rows % (perKv + 2) == 0
    ensures QueriesPerKv(Times(perKv, kvHeads), kvHeads, rows) == Success(perKv)
  {
    TimesIsProduct(perKv, kvHeads);
    QuotientIs(Times(perKv, kvHeads), kvHeads, perKv, 0);
  }

  // ---------------------------------------------------------------- agreement

  /** `_split_tensors` takes the groups apart. */
  lemma {:induction false} SplitTensorsGroups<T>(t: seq<T>, kvHeads: nat, perKv: nat, headDim: nat)
    requires 0 < kvHeads && |t| == Times(kvHeads, GroupRows(perKv, headDim))
    ensures SplitTensorsOf(t, Times(perKv, kvHeads), kvHeads)
         == Success(Grouped(t, Times(perKv, headDim), headDim, kvHeads))
  {
    hide QueriesPerKv, SplitSizes, Chunk;
    SizesMatch(kvHeads, perKv, headDim);
    HeadsMatch(kvHeads, perKv, |t|);
    ChunkIsCut(t, GroupRows(perKv, headDim), kvHeads);
    SplitCut(t, Times(perKv, headDim), headDim, kvHeads);
  }

  lemma {:induction false} PiecesCount<T>(t: seq<T>, c: nat, n: nat)
    requires 0 < c && 0 < n && |t| <= Times(n, c)
    ensures |Pieces(t, c)| <= n
    decreases n
  {
    if |t| <= c {
    } else {
      PiecesCount(t[c..], c, n - 1);
    }
  }

  lemma {:induction false} PiecesRows<T>(t: seq<T>, c: nat, u: nat)
    requires 0 < c && forall i :: 0 <= i < |Pieces(t, c)| ==> |Pieces(t, c)[i]| == u
    ensures |t| == Times(|Pieces(t, c)|, u)
  {
    var pieces := Pieces(t, c);
    if |t| > c {
      assert forall i :: 0 <= i < |pieces| - 1 ==> Pieces(t[c..], c)[i] == pieces[i + 1];
      PiecesRows(t[c..], c, u);
      assert pieces[0] == t[..c];
    } else {
      assert pieces[0] == t;
    }
  }

  lemma {:induction false} SplitRows<T>(chunks: seq<seq<T>>, a: nat, b: nat)
    requires SplitChunks(chunks, a, b).Success?
    ensures forall i :: 0 <= i < |chunks| ==> |chunks[i]| == a + b + b
  {
    if chunks == [] {
    } else {
      SplitRows(chunks[..|chunks| - 1], a, b);
      assert forall i :: 0 <= i < |chunks| - 1 ==> chunks[i] == chunks[..|chunks| - 1][i];
    }
  }

  /** Chunks of equal size are not smaller than an `n`-th of the tensor. */
  lemma EvenChunks<T>(t: seq<T>, n: nat, u: nat)
    requires 0 < n && forall i :: 0 <= i < |Chunk(t, n)| ==> |Chunk(t, n)[i]| == u
    ensures |t| <= Times(n, u)
  {
    if t != [] {
      var c := ChunkRows(|t|, n);
      assert Chunk(t, n) == Pieces(t, c);
      CeilDivIsLeast(|t|, n, CeilDiv(|t|, n));
      CeilDivIsLeast(|t|, n, 0);
      TimesIsProduct(n, c);
      PiecesCount(t, c, n);
      PiecesRows(t, c, u);
      TimesGrows(|Pieces(t, c)|, n, u);
    }
  }

  lemma NothingLost(kv: int, perKv: int, n: int, a: int, b: int)
    requires a * n <= kv * perKv && b * n <= kv && kv * (perKv + 2) <= n * (a + b + b)
    ensures kv == n * b
  {
    assert n * (a + b + b) == a * n + 2 * (b * n);
    assert kv * (perKv + 2) == kv * perKv + 2 * kv;
  }

  /** Rounding down loses nothing only when there is nothing to round. */
  lemma SizesExhaust(rows: nat, perKv: nat, n: nat)
    requires 0 < n && rows % (perKv + 2) == 0
    requires var (a, b) := SplitSizes(rows, perKv, n); rows <= Times(n, a + b + b)
    ensures var (a, b) := SplitSizes(rows, perKv, n); rows == Times(n, GroupRows(perKv, b))
  {
    var kv := Quotient(rows, perKv + 2);
    var (a, b) := SplitSizes(rows, perKv, n);
    hide Times;
    Remainder(rows, perKv + 2);
    Remainder(kv, n);
    Remainder(Times(kv, perKv), n);
    TimesIsProduct(kv, perKv);
    TimesIsProduct(n, a + b + b);
    TimesIsProduct(n, b);
    NothingLost(kv, perKv, n, a, b);
    GroupRowsFactor(n, perKv, b);
  }

  /** `_split_tensors` succeeds, given its asserts, exactly on a whole number of rows for every head. */
  lemma {:induction false} SplitTensorsExactly<T>(t: seq<T>, kvHeads: nat, perKv: nat)
    requires 0 < kvHeads
    ensures SplitTensorsOf(t, Times(perKv, kvHeads), kvHeads).Success?
      <==> exists headDim: nat :: |t| == Times(kvHeads, GroupRows(perKv, headDim))
  {
    forall headDim: nat | |t| == Times(kvHeads, GroupRows(perKv, headDim))
      ensures SplitTensorsOf(t, Times(perKv, kvHeads), kvHeads).Success?
    {
      SplitTensorsGroups(t, kvHeads, perKv, headDim);
    }
    if SplitTensorsOf(t, Times(perKv, kvHeads), kvHeads).Success? {
      TimesIsProduct(perKv, kvHeads);
      QuotientIs(Times(perKv, kvHeads), kvHeads, perKv, 0);
      var (a, b) := SplitSizes(|t|, perKv, kvHeads);
      hide Chunk, SplitSizes, Times, GroupRows;
      SplitRows(Chunk(t, kvHeads), a, b);
      EvenChunks(t, kvHeads, a + b + b);
      SizesExhaust(|t|, perKv, kvHeads);
      assert |t| == Times(kvHeads, GroupRows(perKv, b));
    }
  }

  lemma GroupedNothing<T>(y: seq<T>, a: nat, b: nat, m: nat)
    requires |y| == Times(m, a + b + b)
    ensures Join(Grouped([], a, b, 0), Grouped(y, a, b, m)) == Grouped(y, a, b, m)
  {
  }

  lemma GroupedMore<T>(x: seq<T>, y: seq<T>, a: nat, b: nat, n: nat, m: nat)
    requires 0 < n && |x| == Times(n, a + b + b) && |y| == Times(m, a + b + b) && |x + y| == Times(n + m, a + b + b)
    requires a + b + b <= |x| && |x[a + b + b..]| == Times(n - 1, a + b + b)
    requires |x[a + b + b..] + y| == Times(n - 1 + m, a + b + b)
    requires Grouped(x[a + b + b..] + y, a, b, n - 1 + m) == Join(Grouped(x[a + b + b..], a, b, n - 1), Grouped(y, a, b, m))
    ensures Grouped(x + y, a, b, n + m) == Join(Grouped(x, a, b, n), Grouped(y, a, b, m))
  {
    hide Times;
    var u := a + b + b;
    assert (x + y)[..u] == x[..u] && (x + y)[u..] == x[u..] + y;
    JoinAssociates(SplitOne(x[..u], a, b), Grouped(x[u..], a, b, n - 1), Grouped(y, a, b, m));
  }

  lemma {:induction false} GroupedAppend<T>(x: seq<T>, y: seq<T>, a: nat, b: nat, n: nat, m: nat)
    requires |x| == Times(n, a + b + b) && |y| == Times(m, a + b + b)
    ensures |x + y| == Times(n + m, a + b + b)
    ensures Grouped(x + y, a, b, n + m) == Join(Grouped(x, a, b, n), Grouped(y, a, b, m))
    decreases n
  {
    hide Grouped, Times;
    TimesAdds(n, m, a + b + b);
    if n == 0 {
      assert x == [] && x + y == y;
      GroupedNothing(y, a, b, m);
    } else {
      TimesNext(n - 1, a + b + b);
      GroupedAppend(x[a + b + b..], y, a, b, n - 1, m);
      GroupedMore(x, y, a, b, n, m);
    }
  }

  /** One more piece with `groups` groups, at the end of `front` with `n` times as many. */
  lemma OneMorePiece<T>(front: seq<T>, piece: seq<T>, groups: nat, a: nat, b: nat, n: nat)
    requires |piece| == Times(groups, a + b + b) && |front| == Times(Times(n, groups), a + b + b)
    ensures |front + piece| == Times(Times(n + 1, groups), a + b + b)
    ensures Grouped(front + piece, a, b, Times(n + 1, groups))
         == Join(Grouped(front, a, b, Times(n, groups)), Grouped(piece, a, b, groups))
  {
    hide Grouped, Times;
    TimesNext(n, groups);
    GroupedAppend(front, piece, a, b, Times(n, groups), groups);
  }

  /** On chunks of the right size, slicing cannot be told from splitting. */
  lemma {:induction false} SliceIsSplit<T>(chunks: seq<seq<T>>, a: nat, b: nat)
    requires SplitChunks(chunks, a, b).Success?
    ensures SliceChunks(chunks, a, b) == SplitChunks(chunks, a, b).value
  {
    if chunks == [] {
    } else {
      SliceIsSplit(chunks[..|chunks| - 1], a, b);
    }
  }

  lemma ChunkSplits<T>(t: seq<T>, groups: nat, a: nat, b: nat)
    requires 0 < groups && |t| == Times(groups, a + b + b)
    ensures SplitChunks(Chunk(t, groups), a, b) == Success(Grouped(t, a, b, groups))
    ensures SliceChunks(Chunk(t, groups), a, b) == Grouped(t, a, b, groups)
  {
    ChunkIsCut(t, a + b + b, groups);
    SplitCut(t, a, b, groups);
    SliceIsSplit(Chunk(t, groups), a, b);
  }

  lemma ConcatLast<T>(shards: seq<seq<T>>)
    requires shards != []
    ensures Concat(shards) == Concat(shards[..|shards| - 1]) + shards[|shards| - 1]
  {
    var front, last := shards[..|shards| - 1], shards[|shards| - 1];
    ConcatAppend(front, [last]);
    assert shards == front + [last];
    assert Concat([last]) == last + Concat([last][1..]);
  }

  lemma {:induction false} ShardsGroup<T>(shards: seq<seq<T>>, groups: nat, a: nat, b: nat)
    requires 0 < groups && forall i :: 0 <= i < |shards| ==> |shards[i]| == Times(groups, a + b + b)
    ensures |Concat(shards)| == Times(Times(|shards|, groups), a + b + b)
    ensures SplitChunks(ChunkAll(shards, groups), a, b)
         == Success(Grouped(Concat(shards), a, b, Times(|shards|, groups)))
    decreases |shards|
  {
    hide Chunk;
    if shards == [] {
    } else {
      hide Grouped, Times, SplitChunks, Concat;
      var front, last := shards[..|shards| - 1], shards[|shards| - 1];
      ShardsGroup(front, groups, a, b);
      ChunkSplits(last, groups, a, b);
      SplitAppend(ChunkAll(front, groups), Chunk(last, groups), a, b);
      OneMorePiece(Concat(front), last, groups, a, b, |front|);
      ConcatLast(shards);
    }
  }

  lemma RanksShare(tp: nat, groups: nat)
    requires 0 < tp && 0 < groups
    ensures tp <= Times(tp, groups) && Times(tp, groups) / tp == groups
  {
    TimesIsProduct(tp, groups);
    TimesMonotone(1, groups, tp);
    Rearrange(tp, groups, 1);
    QuotientIs(Times(tp, groups), tp, groups, 0);
  }

  /** `default_tp_concat_fn` takes the groups of all shards apart. */
  lemma {:induction false} TpConcatGroups<T>(shards: seq<seq<T>>, groups: nat, perKv: nat, headDim: nat)
    requires 0 < groups && shards != []
    requires forall i :: 0 <= i < |shards| ==> |shards[i]| == Times(groups, GroupRows(perKv, headDim))
    ensures
      var kvHeads := Times(|shards|, groups);
      && |Concat(shards)| == Times(kvHeads, GroupRows(perKv, headDim))
      && TpConcatOf(shards, Times(perKv, kvHeads), kvHeads, |shards|)
         == Success(Grouped(Concat(shards), Times(perKv, headDim), headDim, kvHeads))
  {
    var kvHeads := Times(|shards|, groups);
    hide QueriesPerKv, SplitSizes, Chunk;
    SizesMatch(groups, perKv, headDim);
    RanksShare(|shards|, groups);
    HeadsMatch(kvHeads, perKv, |shards[0]|);
    ShardsGroup(shards, groups, Times(perKv, headDim), headDim);
  }

  lemma HeadRows(tp: nat, groups: nat, perKv: nat, headDim: nat)
    ensures Times(headDim, Times(perKv, Times(tp, groups))) == Times(groups, Times(perKv, headDim)) * tp
    ensures Times(headDim, Times(tp, groups)) == Times(groups, headDim) * tp
    ensures Times(groups, Times(perKv, headDim)) == Times(perKv, headDim) * groups
    ensures Times(groups, headDim) == headDim * groups
  {
    hide Times;
    TimesIsProduct(tp, groups);
    TimesIsProduct(perKv, Times(tp, groups));
    TimesIsProduct(headDim, Times(perKv, Times(tp, groups)));
    TimesIsProduct(headDim, Times(tp, groups));
    TimesIsProduct(perKv, headDim);
    TimesIsProduct(groups, Times(perKv, headDim));
    TimesIsProduct(groups, headDim);
    Rearrange(headDim, perKv, tp * groups);
    Rearrange(perKv * headDim, groups, tp);
    Rearrange(headDim, groups, tp);
    Rearrange(headDim, perKv, 1);
  }

  lemma ShardSizesMatch(tp: nat, groups: nat, perKv: nat, headDim: nat)
    requires 0 < tp && 0 < groups
    ensures
      var kvHeads := Times(tp, groups);
      SizesOf(headDim, Times(perKv, kvHeads), kvHeads, tp, groups)
      == ShardSizes(Times(groups, GroupRows(perKv, headDim)), Times(perKv, headDim), headDim)
  {
    hide Times;
    var kvHeads := Times(tp, groups);
    var q, kv := Times(groups, Times(perKv, headDim)), Times(groups, headDim);
    HeadRows(tp, groups, perKv, headDim);
    QuotientIs(Times(headDim, Times(perKv, kvHeads)), tp, q, 0);
    QuotientIs(Times(headDim, kvHeads), tp, kv, 0);
    QuotientIs(q, groups, Times(perKv, headDim), 0);
    QuotientIs(kv, groups, headDim, 0);
    TimesIsProduct(groups, GroupRows(perKv, headDim));
    TimesIsProduct(perKv, headDim);
    TimesIsProduct(groups, Times(perKv, headDim));
    TimesIsProduct(groups, headDim);
    Factor(groups, perKv, headDim);
  }

  lemma RankRows(s: ShardSizes, groups: nat, n: nat, tp: nat)
    requires n <= tp && s.rows == Times(groups, s.q + s.kv + s.kv)
    ensures Times(n, s.rows) <= Times(tp, s.rows) && Times(n, s.rows) == Times(Times(n, groups), s.q + s.kv + s.kv)
  {
    hide Times;
    TimesGrows(n, tp, s.rows);
    TimesAssociate(n, groups, s.q + s.kv + s.kv);
  }

  lemma NoRanks<T>(full: seq<T>, s: ShardSizes, groups: nat)
    requires 0 < groups
    ensures Times(0, s.rows) == Times(0, groups) == 0
    ensures ConvertRanks(full, s, groups, 0) == Grouped(full[..0], s.q, s.kv, 0)
  {
  }

  /** One more rank takes the next `groups` groups: the rows from `from` to `to`. */
  lemma RankStep<T>(full: seq<T>, s: ShardSizes, groups: nat, n: nat, from: nat, to: nat, before: nat, after: nat)
    requires 0 < groups && s.rows == Times(groups, s.q + s.kv + s.kv)
    requires from <= |full| && to <= |full| && before == Times(n, groups) && after == Times(n + 1, groups)
    requires from == Times(before, s.q + s.kv + s.kv) && to == Times(after, s.q + s.kv + s.kv)
    requires from == Times(n, s.rows) && to == Times(n + 1, s.rows)
    requires ConvertRanks(full, s, groups, n) == Grouped(full[..from], s.q, s.kv, before)
    ensures ConvertRanks(full, s, groups, n + 1) == Grouped(full[..to], s.q, s.kv, after)
  {
    hide Grouped, Times, SliceChunks, Chunk;
    TimesNext(n, s.rows);
    var part := full[from..to];
    assert Slice(full, from, to) == part;
    ChunkSplits(part, groups, s.q, s.kv);
    OneMorePiece(full[..from], part, groups, s.q, s.kv, n);
    assert full[..to] == full[..from] + part;
  }

  lemma {:induction false} RanksGroup<T>(full: seq<T>, s: ShardSizes, groups: nat, n: nat, tp: nat)
    requires 0 < groups && n <= tp && s.rows == Times(groups, s.q + s.kv + s.kv) && |full| == Times(tp, s.rows)
    ensures Times(n, s.rows) <= |full| && Times(n, s.rows) == Times(Times(n, groups), s.q + s.kv + s.kv)
    ensures ConvertRanks(full, s, groups, n)
         == Grouped(full[..Times(n, s.rows)], s.q, s.kv, Times(n, groups))
    decreases n
  {
    hide Grouped, ConvertRanks, Times;
    RankRows(s, groups, n, tp);
    if n == 0 {
      NoRanks(full, s, groups);
    } else {
      RanksGroup(full, s, groups, n - 1, tp);
      RankStep(full, s, groups, n - 1, Times(n - 1, s.rows), Times(n, s.rows), Times(n - 1, groups), Times(n, groups));
    }
  }

  lemma WholeRanks<T>(full: seq<T>, s: ShardSizes, groups: nat, tp: nat)
    requires 0 < groups && s.rows == Times(groups, s.q + s.kv + s.kv)
    requires |full| == Times(Times(tp, groups), s.q + s.kv + s.kv)
    ensures ConvertRanks(full, s, groups, tp) == Grouped(full, s.q, s.kv, Times(tp, groups))
  {
    TimesAssociate(tp, groups, s.q + s.kv + s.kv);
    RanksGroup(full, s, groups, tp, tp);
    assert full[..|full|] == full;
  }

  /** `convert_qkv_shard` takes the groups apart, rank by rank. */
  lemma {:induction false} ConvertGroups<T>(full: seq<T>, tp: nat, groups: nat, perKv: nat, headDim: nat)
    requires 0 < tp && 0 < groups && |full| == Times(Times(tp, groups), GroupRows(perKv, headDim))
    ensures
      var kvHeads := Times(tp, groups);
      && tp <= kvHeads
      && ConvertOf(full, headDim, Times(perKv, kvHeads), kvHeads, tp, kvHeads)
         == Success(Grouped(full, Times(perKv, headDim), headDim, kvHeads))
  {
    var kvHeads := Times(tp, groups);
    RanksShare(tp, groups);
    ShardSizesMatch(tp, groups, perKv, headDim);
    hide SizesOf, ConvertRanks, Grouped, Times;
    WholeRanks(full, SizesOf(headDim, Times(perKv, kvHeads), kvHeads, tp, groups), groups, tp);
  }

  lemma {:induction false} CutConcat<T>(t: seq<T>, u: nat, n: nat)
    requires |t| == Times(n, u)
    ensures Concat(Cut(t, u, n)) == t && |Cut(t, u, n)| == n
    ensures forall i :: 0 <= i < n ==> |Cut(t, u, n)[i]| == u
    decreases n
  {
    if n == 0 {
    } else {
      CutConcat(t[u..], u, n - 1);
      assert t == t[..u] + t[u..];
    }
  }

  lemma RowsOnceOf<T>(full: seq<T>, kvHeads: nat, perKv: nat, headDim: nat)
    requires |full| == Times(kvHeads, GroupRows(perKv, headDim))
    ensures RowBag(Grouped(full, Times(perKv, headDim), headDim, kvHeads)) == multiset(full)
  {
    RowsOnce(full, Times(perKv, headDim), headDim, kvHeads);
  }

  /**
   With key-value heads that the ranks share evenly and matching row counts, the whole tensor, its tensor
   parallel shards and the gathered shards all come apart into the same queries, keys and values, and
   together these use every row of the tensor exactly once.
   */
  lemma {:induction false} SplittersAgree<T>(full: seq<T>, tp: nat, groups: nat, perKv: nat, headDim: nat)
    requires 0 < tp && 0 < groups && |full| == Times(Times(tp, groups), GroupRows(perKv, headDim))
    ensures |full| == Times(tp, Times(groups, GroupRows(perKv, headDim)))
    ensures
      var kvHeads, heads := Times(tp, groups), Times(perKv, Times(tp, groups));
      var shards := Cut(full, Times(groups, GroupRows(perKv, headDim)), tp);
      var r := SplitTensorsOf(full, heads, kvHeads);
      && shards != [] && Chunk(full, tp) == shards
      && r.Success? && TpConcatOf(shards, heads, kvHeads, tp) == r
      && ConvertOf(full, headDim, heads, kvHeads, tp, kvHeads) == r
      && multiset(r.value.q) + multiset(r.value.k) + multiset(r.value.v) == multiset(full)
  {
    var kvHeads, rows := Times(tp, groups), GroupRows(perKv, headDim);
    hide SplitTensorsOf, TpConcatOf, ConvertOf, Grouped, GroupRows, Chunk;
    TimesMonotone(1, groups, tp);
    TimesAssociate(tp, groups, rows);
    CutConcat(full, Times(groups, rows), tp);
    ChunkIsCut(full, Times(groups, rows), tp);
    SplitTensorsGroups(full, kvHeads, perKv, headDim);
    TpConcatGroups(Cut(full, Times(groups, rows), tp), groups, perKv, headDim);
    ConvertGroups(full, tp, groups, perKv, headDim);
    RowsOnceOf(full, kvHeads, perKv, headDim);
  }
}
