/**
 What the buckets carry (checkpoint_engine/nccl_checkpoint_engine.py, checkpoint_engine/nixl_checkpoint_engine.py):
 every byte of every weight once, in order.
 */
module BucketPayload {
  import opened WeightChunks
  import opened BucketPacking
  import opened ChunkAssembly

  /** The bytes of the weights, one weight after the other. */
  function WeightBytes(weights: seq<Weight>): seq<Byte> {
    if weights == [] then [] else WeightBytes(weights[..|weights| - 1]) + weights[|weights| - 1].bytes
  }

  /** The bytes of the buckets, one bucket after the other. */
  function Payload(buckets: seq<Bucket>): seq<Byte> {
    if buckets == [] then [] else buckets[0].data + Payload(buckets[1..])
  }

  lemma {:induction false} BytesConcat(a: seq<Chunk>, b: seq<Chunk>)
    ensures Bytes(a + b) == Bytes(a) + Bytes(b)
  {
    if b == [] {
      assert a + b == a;
    } else {
      var front, last := b[..|b| - 1], b[|b| - 1];
      assert (a + b)[..|a + b| - 1] == a + front;
      BytesConcat(a, front);
      ConcatAssociates(Bytes(a), Bytes(front), last.data);
    }
  }

  lemma BytesFirst(chunks: seq<Chunk>)
    requires chunks != []
    ensures Bytes(chunks) == chunks[0].data + Bytes(chunks[1..])
  {
    assert [chunks[0]] + chunks[1..] == chunks;
    assert [chunks[0]][..0] == [];
    BytesConcat([chunks[0]], chunks[1..]);
  }

  lemma {:induction false} ChunkBytes(w: Weight, start: nat, bucketSize: nat)
    requires 0 < bucketSize && start <= |w.bytes|
    ensures Bytes(ChunksFrom(w, start, bucketSize)) == w.bytes[start..]
    decreases |w.bytes| - start
  {
    if start < |w.bytes| {
      var c := ChunkAt(w, start, bucketSize);
      var end := start + c.meta.chunkSize;
      ChunkBytes(w, end, bucketSize);
      BytesFirst(ChunksFrom(w, start, bucketSize));
      assert ChunksFrom(w, start, bucketSize)[1..] == ChunksFrom(w, end, bucketSize);
      assert w.bytes[start..] == w.bytes[start..end] + w.bytes[end..];
    }
  }

  lemma {:induction false} SplitBytes(weights: seq<Weight>, bucketSize: nat)
    requires 0 < bucketSize
    ensures Bytes(SplitAll(weights, bucketSize)) == WeightBytes(weights)
  {
    if weights != [] {
      var front, last := weights[..|weights| - 1], weights[|weights| - 1];
      SplitBytes(front, bucketSize);
      ChunkBytes(last, 0, bucketSize);
      BytesConcat(SplitAll(front, bucketSize), ChunksFrom(last, 0, bucketSize));
    }
  }

  lemma NoBytes(cur: Bucket)
    ensures Payload([cur]) == cur.data + Bytes([])
  {
    assert [cur][1..] == [];
  }

  lemma {:induction false} PackBytes(cur: Bucket, chunks: seq<Chunk>, bucketSize: nat)
    requires Pack(cur, chunks, bucketSize).Success?
    ensures Payload(Pack(cur, chunks, bucketSize).value) == cur.data + Bytes(chunks)
    decreases |chunks|
  {
    hide Bytes, SplitAll, ChunksFrom;
    if chunks == [] {
      NoBytes(cur);
    } else {
      var c := chunks[0];
      var target := Target(cur, c, bucketSize);
      PackBytes(Place(target, c), chunks[1..], bucketSize);
      BytesFirst(chunks);
      var rest := Pack(Place(target, c), chunks[1..], bucketSize).value;
      ConcatAssociates(target.data, c.data, Bytes(chunks[1..]));
      if !Fits(cur, c, bucketSize) {
        assert ([cur] + rest)[1..] == rest;
      }
    }
  }

  lemma {:induction false} PayloadSize(buckets: seq<Bucket>)
    ensures |Payload(buckets)| == TotalBytes(buckets)
  {
    if buckets != [] {
      PayloadSize(buckets[1..]);
    }
  }

  /**
   The buckets carry the bytes of the weights, each once and in order, and there are less than twice as
   many as these bytes fill, plus one.
   */
  lemma {:induction false} EveryByteOnce(weights: seq<Weight>, bucketSize: nat)
    requires 0 < bucketSize && DistinctNames(weights)
    ensures
      var r := Pack(EMPTY, SplitAll(weights, bucketSize), bucketSize);
      && r.Success? && Payload(r.value) == WeightBytes(weights)
      && (|r.value| >= 2 ==> (|r.value| / 2) * bucketSize < |WeightBytes(weights)|)
  {
    var chunks := SplitAll(weights, bucketSize);
    TransferBound(weights, bucketSize);
    PackBytes(EMPTY, chunks, bucketSize);
    SplitBytes(weights, bucketSize);
    PayloadSize(Pack(EMPTY, chunks, bucketSize).value);
  }
}
