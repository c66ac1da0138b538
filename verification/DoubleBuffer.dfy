/**
 What both transports have in common: the run's buckets, buffers that are written byte by byte, and
 the chunks that a receiver is meant to hand over.
 */
module DoubleBuffer {
  import opened Wrappers
  import opened WeightChunks
  import opened BucketPacking

  datatype Metadata = Metadata(metas: seq<TensorMeta>, isLast: bool)

  /** What is sent over a whole run, the bytes in a buffer, and the length of the chain. */
  datatype Config = Config(buckets: seq<Bucket>, size: nat, ranks: nat) {
    ghost predicate Valid() {
      && buckets != [] && 2 <= ranks
      && Legal(buckets) && forall i :: 0 <= i < |buckets| ==> |buckets[i].data| <= size
    }

    function Meta(i: nat): Metadata
      requires i < |buckets|
    {
      Metadata(buckets[i].metas, i + 1 == |buckets|)
    }
  }

  /** What is packed from weights with distinct names can be sent. */
  lemma PackedIsValid(cfg: Config, weights: seq<Weight>, memory: Memory)
    requires 0 < cfg.size && DistinctNames(weights) && (forall w <- weights :: w.Valid()) && 2 <= cfg.ranks
    requires Pack(EMPTY, SplitAll(weights, cfg.size), cfg.size) == Success(cfg.buckets)
    ensures cfg.Valid()
  {
    PipelineRoundTrip(weights, cfg.size, memory);
    SplitAllPackable(weights, cfg.size);
    PackIsNextFit(EMPTY, SplitAll(weights, cfg.size), cfg.size);
    assert forall i :: 0 <= i < |cfg.buckets| ==> cfg.buckets[i].Valid(cfg.size);
  }

  function WriteByte(bufs: seq<seq<Byte>>, buf: nat, pos: nat, b: Byte): seq<seq<Byte>>
    requires buf < |bufs| && pos < |bufs[buf]|
  {
    bufs[buf := bufs[buf][pos := b]]
  }

  function Zeros(n: nat): (b: seq<Byte>)
    ensures |b| == n
  {
    seq(n, _ => 0)
  }

  /** The first `n` bytes of the buffer are the bucket's, as far as the bucket goes. */
  ghost predicate Holds(buf: seq<Byte>, data: seq<Byte>, n: nat) {
    forall j :: 0 <= j < n && j < |data| ==> j < |buf| && buf[j] == data[j]
  }

  /** The chunks of the first `i` buckets, then `n` chunks of the next one. */
  ghost function Delivered(cfg: Config, i: nat, n: nat): seq<Chunk>
    requires cfg.Valid() && i <= |cfg.buckets| && (i == |cfg.buckets| ==> n == 0)
    requires i < |cfg.buckets| ==> n <= |cfg.buckets[i].metas|
  {
    UnpackAll(cfg.buckets[..i]) + if i == |cfg.buckets| then [] else Unpack(cfg.buckets[i], n)
  }

  lemma DeliveredNext(cfg: Config, i: nat, n: nat)
    requires cfg.Valid() && i < |cfg.buckets| && n <= |cfg.buckets[i].metas|
    ensures n < |cfg.buckets[i].metas| ==>
      Delivered(cfg, i, n + 1) == Delivered(cfg, i, n) + Unpack(cfg.buckets[i], n + 1)[n..]
    ensures n == |cfg.buckets[i].metas| ==> Delivered(cfg, i + 1, 0) == Delivered(cfg, i, n)
  {
    if n == |cfg.buckets[i].metas| {
      assert cfg.buckets[..i + 1][..i] == cfg.buckets[..i];
    }
  }

  /** A metadata entry reads the same bytes from any buffer that holds the bucket. */
  lemma SameSlice(buf: seq<Byte>, b: Bucket, pos: nat, size: nat)
    requires b.Valid(|b.data|) && |b.data| <= size == |buf| && Holds(buf, b.data, size) && pos < |b.metas|
    ensures b.metas[pos].offset.Some? && b.metas[pos].offset.value + b.metas[pos].chunkSize <= |b.data|
    ensures ReadChunk(buf, b.metas[pos]) == ReadChunk(b.data, b.metas[pos])
  {
    assert b.metas[pos] in b.metas;
  }

  lemma {:induction false} UnpackFirst(b: Bucket, n: nat)
    requires b.Valid(|b.data|) && n <= |b.metas|
    ensures Unpack(b, n) == Unpack(b, |b.metas|)[..n]
  {
  }

  lemma {:induction false} UnpackPrefix(buckets: seq<Bucket>, i: nat, n: nat)
    requires Legal(buckets) && i < |buckets| && n <= |buckets[i].metas|
    ensures UnpackAll(buckets[..i]) + Unpack(buckets[i], n) <= UnpackAll(buckets)
  {
    UnpackFirst(buckets[i], n);
    if i == |buckets| - 1 {
      assert UnpackAll(buckets) == UnpackAll(buckets[..i]) + Unpack(buckets[i], |buckets[i].metas|);
    } else {
      var front := buckets[..|buckets| - 1];
      assert front[..i] == buckets[..i];
      UnpackPrefix(front, i, n);
    }
  }

  /** What a receiver has handed over at any point is a prefix of everything. */
  lemma DeliveredPrefix(cfg: Config, i: nat, n: nat)
    requires cfg.Valid() && i <= |cfg.buckets| && (i == |cfg.buckets| ==> n == 0)
    requires i < |cfg.buckets| ==> n <= |cfg.buckets[i].metas|
    ensures Delivered(cfg, i, n) <= UnpackAll(cfg.buckets)
    ensures i == |cfg.buckets| ==> Delivered(cfg, i, n) == UnpackAll(cfg.buckets)
  {
    if i < |cfg.buckets| {
      UnpackPrefix(cfg.buckets, i, n);
    } else {
      assert cfg.buckets[..i] == cfg.buckets && UnpackAll(cfg.buckets) + [] == UnpackAll(cfg.buckets);
    }
  }

  // ---------------------------------------------------------------- counting rounds

  function MetaCount(buckets: seq<Bucket>): nat {
    if buckets == [] then 0 else |buckets[0].metas| + MetaCount(buckets[1..])
  }

  lemma {:induction false} MetaCountBounds(buckets: seq<Bucket>, i: nat)
    requires i < |buckets|
    ensures |buckets[i].metas| <= MetaCount(buckets)
  {
    if i == 0 {
    } else {
      MetaCountBounds(buckets[1..], i - 1);
    }
  }

  /** The cost of `n` rounds, kept away from multiplication. */
  function RoundsCost(n: int, cost: nat): (t: nat)
    decreases if n <= 0 then 0 else n
  {
    if n <= 0 then 0 else RoundsCost(n - 1, cost) + cost
  }

  lemma {:induction false} RoundsCostIsProduct(n: nat, cost: nat)
    ensures RoundsCost(n, cost) == n * cost
  {
    if n == 0 {
    } else {
      RoundsCostIsProduct(n - 1, cost);
      assert n * cost == (n - 1) * cost + cost;
    }
  }

  lemma {:induction false} RoundsCostMonotone(a: nat, b: nat, cost: nat)
    requires a <= b
    ensures RoundsCost(a, cost) <= RoundsCost(b, cost)
  {
    if a == b {
    } else {
      RoundsCostMonotone(a, b - 1, cost);
    }
  }
}
