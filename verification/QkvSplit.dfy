/**
 The three ways in which a grouped query-key-value tensor is taken apart: `_split_tensors` on the whole
 tensor (model_merger/megatron_model_merger.py), the qkv branch of `default_tp_concat_fn` on its tensor
 parallel shards, and `convert_qkv_shard` (utils/megatron_utils.py). A tensor is its sequence of rows.
 */
module QkvSplit {
  import opened Wrappers
  import opened Arithmetic
  import opened PythonSlices

  datatype Qkv<T> = Qkv(q: seq<T>, k: seq<T>, v: seq<T>)

  datatype QkvError = AssertionFailed | DivisionByZero | NoChunks | SizesDoNotMatch

  // ---------------------------------------------------------------- tensor operations

  /** Consecutive pieces of `size` rows, the last one possibly smaller. */
  function Pieces<T>(t: seq<T>, size: nat): seq<seq<T>>
    requires 0 < size
  {
    if |t| <= size then [t] else [t[..size]] + Pieces(t[size..], size)
  }

  function ChunkRows(rows: nat, n: nat): (size: nat)
    requires 0 < n
    ensures 0 < rows ==> 0 < size
  {
    CeilDivIsLeast(rows, n, 0);
    CeilDivIsLeast(rows, n, CeilDiv(rows, n));
    if CeilDiv(rows, n) < 0 then 0 else CeilDiv(rows, n)
  }

  /** `tensor.chunk(n)` */
  function Chunk<T>(t: seq<T>, n: nat): seq<seq<T>>
    requires 0 < n
  {
    if t == [] then seq(n, _ => []) else Pieces(t, ChunkRows(|t|, n))
  }

  // ---------------------------------------------------------------- the splitters

  function Join<T>(x: Qkv<T>, y: Qkv<T>): Qkv<T> {
    Qkv(x.q + y.q, x.k + y.k, x.v + y.v)
  }

  lemma JoinAssociates<T>(x: Qkv<T>, y: Qkv<T>, z: Qkv<T>)
    ensures Join(Join(x, y), z) == Join(x, Join(y, z))
  {
  }

  function SplitOne<T>(chunk: seq<T>, a: nat, b: nat): Qkv<T>
    requires a + b <= |chunk|
  {
    Qkv(chunk[..a], chunk[a..a + b], chunk[a + b..])
  }

  /** Every chunk is split into `a`, `b` and `b` rows, which have to be all of it. */
  function SplitChunks<T>(chunks: seq<seq<T>>, a: nat, b: nat): Result<Qkv<T>, QkvError> {
    if chunks == [] then Success(Qkv([], [], []))
    else
      var front :- SplitChunks(chunks[..|chunks| - 1], a, b);
      var last := chunks[|chunks| - 1];
      if |last| != a + b + b then Failure(SizesDoNotMatch)
      else Success(Join(front, SplitOne(last, a, b)))
  }

  /** The checks of a configuration and of a row count, and the query heads per key-value head. */
  function QueriesPerKv(heads: nat, kvHeads: nat, rows: nat): Result<nat, QkvError> {
    if kvHeads == 0 then Failure(DivisionByZero)
    else if heads % kvHeads != 0 then Failure(AssertionFailed)
    else if rows % (heads / kvHeads + 2) != 0 then Failure(AssertionFailed)
    else Success(heads / kvHeads)
  }

  /** The query rows and the key rows of every chunk. */
  function SplitSizes(rows: nat, perKv: nat, groups: nat): (r: (nat, nat))
    requires 0 < groups
  {
    var kv := Quotient(rows, perKv + 2);
    (Quotient(Times(kv, perKv), groups), Quotient(kv, groups))
  }

  function SplitTensorsOf<T>(t: seq<T>, heads: nat, kvHeads: nat): Result<Qkv<T>, QkvError> {
    var perKv :- QueriesPerKv(heads, kvHeads, |t|);
    var (a, b) := SplitSizes(|t|, perKv, kvHeads);
    SplitChunks(Chunk(t, kvHeads), a, b)
  }

  lemma {:induction false} SplitFails<T>(chunks: seq<seq<T>>, n: nat, a: nat, b: nat)
    requires n <= |chunks| && SplitChunks(chunks[..n], a, b).Failure?
    ensures SplitChunks(chunks, a, b) == SplitChunks(chunks[..n], a, b)
  {
    if n == |chunks| {
      assert chunks[..n] == chunks;
    } else {
      assert chunks[..|chunks| - 1][..n] == chunks[..n];
      SplitFails(chunks[..|chunks| - 1], n, a, b);
    }
  }

  /** The loop that splits the chunks and collects the pieces. */
  method SplitLoop<T>(chunks: seq<seq<T>>, a: nat, b: nat) returns (r: Result<Qkv<T>, QkvError>)
    ensures r == SplitChunks(chunks, a, b)
  {
    var q, k, v := [], [], [];
    for i := 0 to |chunks|
      invariant SplitChunks(chunks[..i], a, b) == Success(Qkv(q, k, v))
    {
      var chunk := chunks[i];
      assert chunks[..i + 1][..i] == chunks[..i];
      if |chunk| != a + b + b {
        SplitFails(chunks, i + 1, a, b);
        return Failure(SizesDoNotMatch);
      }
      q, k, v := q + chunk[..a], k + chunk[a..a + b], v + chunk[a + b..];
    }
    assert chunks[..|chunks|] == chunks;
    return Success(Qkv(q, k, v));
  }

  /** `_split_tensors` */
  method SplitTensors<T>(t: seq<T>, heads: nat, kvHeads: nat) returns (r: Result<Qkv<T>, QkvError>)
    ensures r == SplitTensorsOf(t, heads, kvHeads)
  {
    var perKv := QueriesPerKv(heads, kvHeads, |t|);
    if perKv.Failure? { return Failure(perKv.error); }
    hide SplitSizes;
    var (a, b) := SplitSizes(|t|, perKv.value, kvHeads);
    r := SplitLoop(Chunk(t, kvHeads), a, b);
  }

  /** The chunks of all shards, `n` of each. */
  function ChunkAll<T>(shards: seq<seq<T>>, n: nat): seq<seq<T>>
    requires 0 < n
  {
    if shards == [] then [] else ChunkAll(shards[..|shards| - 1], n) + Chunk(shards[|shards| - 1], n)
  }

  function TpConcatOf<T>(shards: seq<seq<T>>, heads: nat, kvHeads: nat, tp: nat): Result<Qkv<T>, QkvError>
    requires shards != []
  {
    var perKv :- QueriesPerKv(heads, kvHeads, |shards[0]|);
    if tp == 0 then Failure(DivisionByZero)
    else if kvHeads / tp == 0 then Failure(NoChunks)
    else
      var (a, b) := SplitSizes(|shards[0]|, perKv, kvHeads / tp);
      SplitChunks(ChunkAll(shards, kvHeads / tp), a, b)
  }

  /** Splitting two lists of chunks one after the other. */
  lemma {:induction false} SplitAppend<T>(x: seq<seq<T>>, y: seq<seq<T>>, a: nat, b: nat)
    requires SplitChunks(x, a, b).Success?
    ensures
      var first, second := SplitChunks(x, a, b), SplitChunks(y, a, b);
      SplitChunks(x + y, a, b) ==
        if second.Failure? then second
        else Success(Join(first.value, second.value))
    decreases |y|
  {
    var first := SplitChunks(x, a, b).value;
    if y == [] {
      assert x + y == x && Join(first, Qkv([], [], [])) == first;
    } else {
      var front, last := y[..|y| - 1], y[|y| - 1];
      SplitAppend(x, front, a, b);
      assert (x + y)[..|x + y| - 1] == x + front;
      if SplitChunks(front, a, b).Success? && |last| == a + b + b {
        JoinAssociates(first, SplitChunks(front, a, b).value, SplitOne(last, a, b));
      }
    }
  }

  lemma {:induction false} ShardFails<T>(shards: seq<seq<T>>, n: nat, groups: nat, a: nat, b: nat)
    requires 0 < groups && n <= |shards| && SplitChunks(ChunkAll(shards[..n], groups), a, b).Failure?
    ensures SplitChunks(ChunkAll(shards, groups), a, b) == SplitChunks(ChunkAll(shards[..n], groups), a, b)
  {
    if n == |shards| {
      assert shards[..n] == shards;
    } else {
      var front := shards[..|shards| - 1];
      assert front[..n] == shards[..n];
      ShardFails(front, n, groups, a, b);
      var x, all := ChunkAll(front, groups), ChunkAll(shards, groups);
      assert all[..|x|] == x;
      SplitFails(all, |x|, a, b);
    }
  }

  /** The qkv branch of `default_tp_concat_fn`: one loop over the shards, one over the chunks of each. */
  method TpConcat<T>(shards: seq<seq<T>>, heads: nat, kvHeads: nat, tp: nat) returns (r: Result<Qkv<T>, QkvError>)
    requires shards != []
    ensures r == TpConcatOf(shards, heads, kvHeads, tp)
  {
    hide Chunk;
    hide SplitSizes, QueriesPerKv;
    var perKv := QueriesPerKv(heads, kvHeads, |shards[0]|);
    if perKv.Failure? { return Failure(perKv.error); }
    var q, k, v := [], [], [];
    if tp == 0 { return Failure(DivisionByZero); }
    var groups := kvHeads / tp;
    if groups == 0 { return Failure(NoChunks); }
    var (a, b) := SplitSizes(|shards[0]|, perKv.value, groups);
    for i := 0 to |shards|
      invariant SplitChunks(ChunkAll(shards[..i], groups), a, b) == Success(Qkv(q, k, v))
    {
      var part := SplitLoop(Chunk(shards[i], groups), a, b);
      assert shards[..i + 1][..i] == shards[..i];
      SplitAppend(ChunkAll(shards[..i], groups), Chunk(shards[i], groups), a, b);
      if part.Failure? {
        ShardFails(shards, i + 1, groups, a, b);
        return part;
      }
      q, k, v := q + part.value.q, k + part.value.k, v + part.value.v;
    }
    assert shards[..|shards|] == shards;
    return Success(Qkv(q, k, v));
  }

  function SliceOne<T>(chunk: seq<T>, a: nat, b: nat): Qkv<T> {
    Qkv(Slice(chunk, 0, a), Slice(chunk, a, a + b), Slice(chunk, a + b, |chunk|))
  }

  function SliceChunks<T>(chunks: seq<seq<T>>, a: nat, b: nat): Qkv<T> {
    if chunks == [] then Qkv([], [], [])
    else Join(SliceChunks(chunks[..|chunks| - 1], a, b), SliceOne(chunks[|chunks| - 1], a, b))
  }

  /** The sizes that `convert_qkv_shard` works with: rows per rank, and the query and key rows of a chunk. */
  datatype ShardSizes = ShardSizes(rows: nat, q: nat, kv: nat)

  function SizesOf(headDim: nat, heads: nat, kvHeads: nat, tp: nat, groups: nat): ShardSizes
    requires 0 < tp && 0 < groups
  {
    var q, kv := Quotient(Times(headDim, heads), tp), Quotient(Times(headDim, kvHeads), tp);
    ShardSizes(q + 2 * kv, Quotient(q, groups), Quotient(kv, groups))
  }

  /** What the first `n` ranks contribute. */
  function ConvertRanks<T>(full: seq<T>, s: ShardSizes, groups: nat, n: nat): Qkv<T>
    requires 0 < groups
  {
    if n == 0 then Qkv([], [], [])
    else
      var part := Slice(full, Times(n - 1, s.rows), Times(n, s.rows));
      Join(ConvertRanks(full, s, groups, n - 1), SliceChunks(Chunk(part, groups), s.q, s.kv))
  }

  function ConvertOf<T>(full: seq<T>, headDim: nat, heads: nat, kvHeads: nat, tp: nat, queryGroups: nat)
    : Result<Qkv<T>, QkvError>
  {
    if tp == 0 || queryGroups / tp == 0 then Failure(DivisionByZero)
    else
      var groups := queryGroups / tp;
      Success(ConvertRanks(full, SizesOf(headDim, heads, kvHeads, tp, groups), groups, tp))
  }

  /** The loop that slices the chunks of one rank and collects the pieces. */
  method SliceLoop<T>(chunks: seq<seq<T>>, a: nat, b: nat, q0: seq<T>, k0: seq<T>, v0: seq<T>)
    returns (q: seq<T>, k: seq<T>, v: seq<T>)
    ensures Qkv(q, k, v) == Join(Qkv(q0, k0, v0), SliceChunks(chunks, a, b))
  {
    q, k, v := q0, k0, v0;
    for j := 0 to |chunks|
      invariant Qkv(q, k, v) == Join(Qkv(q0, k0, v0), SliceChunks(chunks[..j], a, b))
    {
      var chunk := chunks[j];
      assert chunks[..j + 1][..j] == chunks[..j];
      JoinAssociates(Qkv(q0, k0, v0), SliceChunks(chunks[..j], a, b), SliceOne(chunk, a, b));
      q := q + Slice(chunk, 0, a);
      k := k + Slice(chunk, a, a + b);
      v := v + Slice(chunk, a + b, |chunk|);
    }
    assert chunks[..|chunks|] == chunks;
  }

  /** `convert_qkv_shard`, when there are at least as many key-value heads as ranks. */
  method ConvertQkvShard<T>(full: seq<T>, headDim: nat, heads: nat, kvHeads: nat, tp: nat, queryGroups: nat)
    returns (r: Result<Qkv<T>, QkvError>)
    requires tp <= kvHeads
    ensures r == ConvertOf(full, headDim, heads, kvHeads, tp, queryGroups)
  {
    if tp == 0 { return Failure(DivisionByZero); }
    var groups := queryGroups / tp;
    if groups == 0 { return Failure(DivisionByZero); }
    hide SizesOf, Slice, Chunk, SliceChunks;
    var s := SizesOf(headDim, heads, kvHeads, tp, groups);
    var q, k, v := [], [], [];
    for i := 0 to tp
      invariant Qkv(q, k, v) == ConvertRanks(full, s, groups, i)
    {
      var chunks := Chunk(Slice(full, Times(i, s.rows), Times(i + 1, s.rows)), groups);
      q, k, v := SliceLoop(chunks, s.q, s.kv, q, k, v);
    }
    return Success(Qkv(q, k, v));
  }

  // ---------------------------------------------------------------- the reference

  /** `count` groups, each of `a` query rows, `b` key rows and `b` value rows. */
  function Grouped<T>(t: seq<T>, a: nat, b: nat, count: nat): Qkv<T>
    requires |t| == Times(count, a + b + b)
  {
    if count == 0 then Qkv([], [], [])
    else
      var u := a + b + b;
      Join(SplitOne(t[..u], a, b), Grouped(t[u..], a, b, count - 1))
  }

  /** All the rows of the three tensors. */
  function RowBag<T>(r: Qkv<T>): multiset<T> {
    multiset(r.q) + multiset(r.k) + multiset(r.v)
  }

  lemma JoinBag<T>(x: Qkv<T>, y: Qkv<T>)
    ensures RowBag(Join(x, y)) == RowBag(x) + RowBag(y)
  {
  }

  lemma SplitOneBag<T>(chunk: seq<T>, a: nat, b: nat)
    requires a + b <= |chunk|
    ensures RowBag(SplitOne(chunk, a, b)) == multiset(chunk)
  {
    assert chunk == chunk[..a] + chunk[a..a + b] + chunk[a + b..];
  }

  /** Every row is used exactly once. */
  lemma {:induction false} RowsOnce<T>(t: seq<T>, a: nat, b: nat, count: nat)
    requires |t| == Times(count, a + b + b)
    ensures RowBag(Grouped(t, a, b, count)) == multiset(t)
  {
    if count == 0 {
    } else {
      var u := a + b + b;
      hide RowBag, Join, SplitOne;
      RowsOnce(t[u..], a, b, count - 1);
      SplitOneBag(t[..u], a, b);
      JoinBag(SplitOne(t[..u], a, b), Grouped(t[u..], a, b, count - 1));
      assert t == t[..u] + t[u..];
    }
  }

  lemma GroupedStep<T>(t: seq<T>, a: nat, b: nat, count: nat)
    requires 0 < count && |t| == Times(count, a + b + b)
    ensures a + b + b <= |t| && |t[a + b + b..]| == Times(count - 1, a + b + b)
    ensures
      var r, rest := Grouped(t, a, b, count), Grouped(t[a + b + b..], a, b, count - 1);
      r.q == t[..a] + rest.q && r.k == t[a..a + b] + rest.k && r.v == t[a + b..a + b + b] + rest.v
  {
    var u := a + b + b;
    TimesNext(count - 1, u);
    var front := t[..u];
    assert Grouped(t, a, b, count) == Join(SplitOne(front, a, b), Grouped(t[u..], a, b, count - 1));
    hide Grouped, Times;
    assert front[..a] == t[..a] && front[a..a + b] == t[a..a + b] && front[a + b..] == t[a + b..u];
  }

  lemma TimesNone(k: nat)
    ensures Times(0, k) == 0
  {
  }

  lemma TimesUp(g: nat, count: nat, k: nat)
    requires g < count
    ensures Times(g, k) + k <= Times(count, k)
  {
    TimesGrows(g + 1, count, k);
  }

  lemma TimesShift(g: nat, k: nat)
    requires 0 < g
    ensures Times(g, k) == k + Times(g - 1, k)
  {
  }

  lemma {:induction false} GroupedSizes<T>(t: seq<T>, a: nat, b: nat, count: nat)
    requires |t| == Times(count, a + b + b)
    ensures
      var r := Grouped(t, a, b, count);
      |r.q| == Times(count, a) && |r.k| == |r.v| == Times(count, b)
  {
    if count == 0 {
    } else {
      GroupedSizes(t[a + b + b..], a, b, count - 1);
    }
  }

  /** Where every row goes: group `g` of the result holds the rows of group `g` of the tensor. */
  lemma {:induction false} QueryRowAt<T>(t: seq<T>, a: nat, b: nat, count: nat, g: nat, j: nat)
    requires |t| == Times(count, a + b + b) && g < count && j < a
    ensures
      var r := Grouped(t, a, b, count);
      && Times(g, a) + j < |r.q| && Times(g, a + b + b) + j < |t|
      && r.q[Times(g, a) + j] == t[Times(g, a + b + b) + j]
  {
    hide Grouped, Times;
    var u := a + b + b;
    GroupedSizes(t, a, b, count);
    GroupedStep(t, a, b, count);
    TimesUp(g, count, u);
    TimesUp(g, count, a);
    if g == 0 {
      TimesNone(a);
      TimesNone(u);
    } else {
      TimesShift(g, a);
      TimesShift(g, u);
      QueryRowAt(t[u..], a, b, count - 1, g - 1, j);
    }
  }

  lemma {:induction false} KeyRowAt<T>(t: seq<T>, a: nat, b: nat, count: nat, g: nat, j: nat)
    requires |t| == Times(count, a + b + b) && g < count && j < b
    ensures
      var r, start := Grouped(t, a, b, count), Times(g, a + b + b);
      && Times(g, b) + j < |r.k| && Times(g, b) + j < |r.v| && start + a + b + j < |t|
      && r.k[Times(g, b) + j] == t[start + a + j]
      && r.v[Times(g, b) + j] == t[start + a + b + j]
  {
    hide Grouped, Times;
    var u := a + b + b;
    GroupedSizes(t, a, b, count);
    GroupedStep(t, a, b, count);
    TimesUp(g, count, u);
    TimesUp(g, count, b);
    if g == 0 {
      TimesNone(b);
      TimesNone(u);
    } else {
      TimesShift(g, b);
      TimesShift(g, u);
      KeyRowAt(t[u..], a, b, count - 1, g - 1, j);
    }
  }
}
