/**
 The next-fit packing of chunks into buckets done by rank 0 of both transports
 (checkpoint_engine/nccl_checkpoint_engine.py, checkpoint_engine/nixl_checkpoint_engine.py),
 the unpacking done by every receiver, and the round trip of the whole pipeline.
 */
module BucketPacking {
  import opened Wrappers
  import opened WeightChunks

  /** What one transfer carries: the metadata dictionary in insertion order, and the bytes written. */
  datatype Bucket = Bucket(metas: seq<TensorMeta>, data: seq<Byte>) {
    predicate Valid(bucketSize: nat) {
      && |data| <= bucketSize
      && forall m <- metas :: m.offset.Some? && m.offset.value + m.chunkSize <= |data|
    }
  }

  const EMPTY := Bucket([], [])

  datatype PackError = BucketOverflow | DuplicateName

  function Names(metas: seq<TensorMeta>): set<string> {
    set m <- metas :: m.name
  }

  predicate Fits(cur: Bucket, c: Chunk, bucketSize: nat) {
    |cur.data| + c.meta.chunkSize <= bucketSize
  }

  /** The bucket that receives `c`: the current one, or a new one after a flush. */
  function Target(cur: Bucket, c: Chunk, bucketSize: nat): Bucket {
    if Fits(cur, c, bucketSize) then cur else EMPTY
  }

  function Place(cur: Bucket, c: Chunk): Bucket {
    Bucket(cur.metas + [c.meta.(offset := Some(|cur.data|))], cur.data + c.data)
  }

  /** The buckets sent for `chunks` when `cur` is being filled; the last one is sent whatever it holds. */
  function Pack(cur: Bucket, chunks: seq<Chunk>, bucketSize: nat): Result<seq<Bucket>, PackError>
    decreases |chunks|
  {
    if chunks == [] then Success([cur])
    else
      var c := chunks[0];
      var target := Target(cur, c, bucketSize);
      if !Fits(target, c, bucketSize) then Failure(BucketOverflow)
      else if c.meta.name in Names(target.metas) then Failure(DuplicateName)
      else
        var rest :- Pack(Place(target, c), chunks[1..], bucketSize);
        Success(if Fits(cur, c, bucketSize) then rest else [cur] + rest)
  }

  // ---------------------------------------------------------------- the sending loop

  function Prepend(sent: seq<Bucket>, r: Result<seq<Bucket>, PackError>): Result<seq<Bucket>, PackError> {
    if r.Failure? then r else Success(sent + r.value)
  }

  lemma PrependNothing(r: Result<seq<Bucket>, PackError>)
    ensures Prepend([], r) == r
  {
    if r.Success? {
      assert [] + r.value == r.value;
    }
  }

  lemma PrependAgain(sent: seq<Bucket>, b: Bucket, r: Result<seq<Bucket>, PackError>)
    ensures Prepend(sent, Prepend([b], r)) == Prepend(sent + [b], r)
  {
    if r.Success? {
      assert sent + ([b] + r.value) == (sent + [b]) + r.value;
    }
  }

  /** One iteration of the packing: raise, or place the chunk after a flush if need be. */
  lemma PackGoesOn(sent: seq<Bucket>, cur: Bucket, chunks: seq<Chunk>, i: nat, bucketSize: nat)
    requires i < |chunks|
    ensures
      var c := chunks[i];
      var fits := |cur.data| + c.meta.chunkSize <= bucketSize;
      var target := if fits then cur else EMPTY;
      Prepend(sent, Pack(cur, chunks[i..], bucketSize)) ==
      if |target.data| + c.meta.chunkSize > bucketSize then Failure(BucketOverflow)
      else if c.meta.name in Names(target.metas) then Failure(DuplicateName)
      else Prepend(if fits then sent else sent + [cur], Pack(Place(target, c), chunks[i + 1..], bucketSize))
  {
    var c := chunks[i];
    assert chunks[i..][0] == c && chunks[i..][1..] == chunks[i + 1..];
    PrependAgain(sent, cur, Pack(Place(Target(cur, c, bucketSize), c), chunks[i + 1..], bucketSize));
  }

  lemma PlaceIs(cur: Bucket, c: Chunk)
    ensures Place(cur, c).metas == cur.metas + [c.meta.(offset := Some(|cur.data|))]
    ensures Place(cur, c).data == cur.data + c.data
  {
  }

  lemma PackEnds(sent: seq<Bucket>, cur: Bucket, chunks: seq<Chunk>, bucketSize: nat)
    ensures Prepend(sent, Pack(cur, chunks[|chunks|..], bucketSize)) == Success(sent + [cur])
  {
  }

  /** Every chunk has a legal size, and a weight's chunk that has a successor fills a bucket. */
  ghost predicate Packable(chunks: seq<Chunk>, bucketSize: nat) {
    && (forall c <- chunks :: c.Valid() && 0 < c.meta.chunkSize <= bucketSize)
    && forall i, j :: 0 <= i < j < |chunks| && chunks[i].meta.name == chunks[j].meta.name
         ==> chunks[i].meta.chunkSize == bucketSize
  }

  lemma {:induction false} ChunksFromPackable(w: Weight, start: nat, bucketSize: nat)
    requires 0 < bucketSize && start <= |w.bytes|
    ensures Packable(ChunksFrom(w, start, bucketSize), bucketSize)
    ensures forall c <- ChunksFrom(w, start, bucketSize) :: c.meta.name == w.name && c.meta.offset.None?
    decreases |w.bytes| - start
  {
    if start == |w.bytes| {
    } else {
      ChunksFromPackable(w, start + ChunkAt(w, start, bucketSize).meta.chunkSize, bucketSize);
    }
  }

  lemma {:induction false} SplitAllSizes(weights: seq<Weight>, bucketSize: nat)
    requires 0 < bucketSize
    ensures forall c <- SplitAll(weights, bucketSize) :: c.Valid() && 0 < c.meta.chunkSize <= bucketSize
    ensures forall c <- SplitAll(weights, bucketSize) :: c.meta.offset.None?
    ensures forall c <- SplitAll(weights, bucketSize) :: exists w <- weights :: w.name == c.meta.name
  {
    if weights == [] {
    } else {
      var w := weights[|weights| - 1];
      SplitAllSizes(weights[..|weights| - 1], bucketSize);
      ChunksFromPackable(w, 0, bucketSize);
      assert w in weights;
    }
  }

  /** The sending loop: the buffer is filled in place and the two buffers are swapped at every flush. */
  method SendWeights(weights: seq<Weight>, bucketSize: nat, sendBuf0: array<Byte>, recvBuf0: array<Byte>)
    returns (r: Result<seq<Bucket>, PackError>)
    requires 0 < bucketSize && sendBuf0.Length == recvBuf0.Length == bucketSize && sendBuf0 != recvBuf0
    modifies sendBuf0, recvBuf0
    ensures r == Pack(EMPTY, SplitAll(weights, bucketSize), bucketSize)
  {
    var sendBuf, recvBuf := sendBuf0, recvBuf0;
    var chunks := SplitWeightChunks(weights, bucketSize);
    SplitAllSizes(weights, bucketSize);
    var sent: seq<Bucket> := [];
    var metas: seq<TensorMeta> := [];
    var offset: nat := 0;
    assert sendBuf[..offset] == [] && chunks[0..] == chunks;
    PrependNothing(Pack(EMPTY, chunks, bucketSize));
    ghost var cur := EMPTY;
    hide Pack, Prepend, Written, Place, Target, Fits, Names;
    for i := 0 to |chunks|
      invariant (sendBuf == sendBuf0 && recvBuf == recvBuf0) || (sendBuf == recvBuf0 && recvBuf == sendBuf0)
      invariant offset <= bucketSize && cur.metas == metas && cur.data == sendBuf[..offset]
      invariant Pack(EMPTY, chunks, bucketSize) == Prepend(sent, Pack(cur, chunks[i..], bucketSize))
    {
      var c := chunks[i];
      PackGoesOn(sent, cur, chunks, i, bucketSize);
      if offset + c.meta.chunkSize > bucketSize {
        sent := sent + [Bucket(metas, sendBuf[..offset])];
        sendBuf, recvBuf := recvBuf, sendBuf;
        metas, offset := [], 0;
        cur := EMPTY;
      }
      if offset + c.meta.chunkSize > bucketSize { return Failure(BucketOverflow); }
      if c.meta.name in Names(metas) { return Failure(DuplicateName); }
      PlaceIs(cur, c);
      metas := metas + [c.meta.(offset := Some(offset))];
      WriteSlice(sendBuf, offset, c.data);
      offset := offset + c.meta.chunkSize;
      cur := Place(cur, c);
    }
    PackEnds(sent, cur, chunks, bucketSize);
    assert cur == Bucket(metas, sendBuf[..offset]);
    return Success(sent + [Bucket(metas, sendBuf[..offset])]);
  }

  // ---------------------------------------------------------------- no assert fires

  /** A name that the current bucket shares with a later chunk fills that bucket to the brim. */
  ghost predicate NamesMeet(cur: Bucket, chunks: seq<Chunk>, bucketSize: nat) {
    && cur.Valid(bucketSize)
    && forall c <- chunks :: c.meta.name in Names(cur.metas) ==> |cur.data| == bucketSize
  }

  lemma NamesMeetNext(cur: Bucket, chunks: seq<Chunk>, bucketSize: nat)
    requires chunks != [] && Packable(chunks, bucketSize) && NamesMeet(cur, chunks, bucketSize)
    ensures
      var target := Target(cur, chunks[0], bucketSize);
      && chunks[0].meta.name !in Names(target.metas)
      && Packable(chunks[1..], bucketSize)
      && NamesMeet(Place(target, chunks[0]), chunks[1..], bucketSize)
  {
    var next := Place(Target(cur, chunks[0], bucketSize), chunks[0]);
    forall d <- chunks[1..] | d.meta.name in Names(next.metas)
      ensures |next.data| == bucketSize
    {
      var j :| 0 <= j < |chunks[1..]| && chunks[1..][j] == d;
      assert chunks[j + 1] == d && d in chunks;
    }
  }

  /** Every metadata entry lies within its bucket's bytes. */
  ghost predicate Legal(buckets: seq<Bucket>) {
    forall i :: 0 <= i < |buckets| ==> buckets[i].Valid(|buckets[i].data|)
  }

  lemma {:induction false} PackSucceeds(cur: Bucket, chunks: seq<Chunk>, bucketSize: nat)
    requires Packable(chunks, bucketSize) && NamesMeet(cur, chunks, bucketSize)
    ensures Pack(cur, chunks, bucketSize).Success?
    ensures forall b <- Pack(cur, chunks, bucketSize).value :: b.Valid(bucketSize)
    ensures Legal(Pack(cur, chunks, bucketSize).value)
    decreases |chunks|
  {
    if chunks == [] {
    } else {
      var c := chunks[0];
      var target := Target(cur, c, bucketSize);
      var next := Place(target, c);
      NamesMeetNext(cur, chunks, bucketSize);
      PackSucceeds(next, chunks[1..], bucketSize);
    }
  }

  ghost predicate NamesDiffer(b: Bucket) {
    forall i, j :: 0 <= i < j < |b.metas| ==> b.metas[i].name != b.metas[j].name
  }

  lemma PlaceDiffers(cur: Bucket, c: Chunk)
    requires NamesDiffer(cur) && c.meta.name !in Names(cur.metas)
    ensures NamesDiffer(Place(cur, c))
  {
    assert forall i :: 0 <= i < |cur.metas| ==> cur.metas[i] in cur.metas;
  }

  /** For any chunks: if the packing raises nothing, all of them fit, and no bucket has two chunks of one name. */
  lemma {:induction false} PackSound(cur: Bucket, chunks: seq<Chunk>, bucketSize: nat)
    requires Pack(cur, chunks, bucketSize).Success? && NamesDiffer(cur)
    ensures forall b <- Pack(cur, chunks, bucketSize).value :: NamesDiffer(b)
    ensures forall c <- chunks :: c.meta.chunkSize <= bucketSize
    decreases |chunks|
  {
    if chunks == [] {
    } else {
      var target := Target(cur, chunks[0], bucketSize);
      PlaceDiffers(target, chunks[0]);
      PackSound(Place(target, chunks[0]), chunks[1..], bucketSize);
      assert forall c <- chunks :: c == chunks[0] || c in chunks[1..];
    }
  }

  ghost predicate DistinctNames(weights: seq<Weight>) {
    forall i, j :: 0 <= i < j < |weights| ==> weights[i].name != weights[j].name
  }

  lemma {:induction false} SplitAllPackable(weights: seq<Weight>, bucketSize: nat)
    requires 0 < bucketSize && DistinctNames(weights)
    ensures Packable(SplitAll(weights, bucketSize), bucketSize)
  {
    SplitAllSizes(weights, bucketSize);
    if weights == [] {
    } else {
      var front, w := weights[..|weights| - 1], weights[|weights| - 1];
      SplitAllPackable(front, bucketSize);
      SplitAllSizes(front, bucketSize);
      ChunksFromPackable(w, 0, bucketSize);
    }
  }

  // ---------------------------------------------------------------- unpacking

  /** The slice of the received buffer that one metadata entry describes. */
  function ReadChunk(buf: seq<Byte>, m: TensorMeta): Chunk
    requires m.offset.Some? && m.offset.value + m.chunkSize <= |buf|
  {
    Chunk(m, buf[m.offset.value..m.offset.value + m.chunkSize])
  }

  /** The first `n` chunks that a receiver yields from the bucket. */
  function Unpack(b: Bucket, n: nat): (chunks: seq<Chunk>)
    requires b.Valid(|b.data|) && n <= |b.metas|
    ensures |chunks| == n
    ensures forall i :: 0 <= i < n ==> chunks[i] == ReadChunk(b.data, b.metas[i])
  {
    if n == 0 then [] else Unpack(b, n - 1) + [ReadChunk(b.data, b.metas[n - 1])]
  }

  function UnpackAll(buckets: seq<Bucket>): seq<Chunk>
    requires Legal(buckets)
  {
    if buckets == [] then []
    else UnpackAll(buckets[..|buckets| - 1]) + Unpack(buckets[|buckets| - 1], |buckets[|buckets| - 1].metas|)
  }

  lemma ConcatAssociates<T>(a: seq<T>, b: seq<T>, c: seq<T>)
    ensures (a + b) + c == a + (b + c)
  {
  }

  lemma UnpackAllStep(front: seq<Bucket>, last: Bucket)
    requires Legal(front) && last.Valid(|last.data|)
    ensures Legal(front + [last])
    ensures UnpackAll(front + [last]) == UnpackAll(front) + Unpack(last, |last.metas|)
  {
    var all := front + [last];
    assert all[..|all| - 1] == front && all[|all| - 1] == last;
  }

  lemma {:induction false} UnpackAllCons(b: Bucket, rest: seq<Bucket>)
    requires Legal([b] + rest) && Legal(rest) && b.Valid(|b.data|)
    ensures UnpackAll([b] + rest) == Unpack(b, |b.metas|) + UnpackAll(rest)
    decreases |rest|
  {
    if rest == [] {
      assert [b] + rest == [] + [b];
      UnpackAllStep([], b);
    } else {
      var front, last := rest[..|rest| - 1], rest[|rest| - 1];
      assert rest == front + [last] && [b] + rest == ([b] + front) + [last];
      UnpackAllStep(front, last);
      UnpackAllStep([b] + front, last);
      UnpackAllCons(b, front);
      ConcatAssociates(Unpack(b, |b.metas|), UnpackAll(front), Unpack(last, |last.metas|));
    }
  }

  /** The chunk with its place in a bucket. */
  function PutAt(c: Chunk, start: nat): Chunk {
    Chunk(c.meta.(offset := Some(start)), c.data)
  }

  /** The chunks with the places that they get when `used` bytes of the current bucket are taken; only sizes matter. */
  function Placed(chunks: seq<Chunk>, used: nat, bucketSize: nat): seq<Chunk> {
    if chunks == [] then []
    else
      var size := chunks[0].meta.chunkSize;
      var start := if used + size <= bucketSize then used else 0;
      [PutAt(chunks[0], start)] + Placed(chunks[1..], start + size, bucketSize)
  }

  lemma ReadBefore(buf: seq<Byte>, more: seq<Byte>, m: TensorMeta)
    requires m.offset.Some? && m.offset.value + m.chunkSize <= |buf|
    ensures ReadChunk(buf + more, m) == ReadChunk(buf, m)
  {
    assert (buf + more)[..|buf|] == buf;
  }

  lemma ReadBehind(buf: seq<Byte>, c: Chunk)
    requires c.Valid()
    ensures ReadChunk(buf + c.data, PutAt(c, |buf|).meta) == PutAt(c, |buf|)
  {
    assert (buf + c.data)[|buf|..|buf| + c.meta.chunkSize] == c.data;
  }

  lemma PlaceUnpack(target: Bucket, c: Chunk, bucketSize: nat)
    requires target.Valid(bucketSize) && c.Valid() && Fits(target, c, bucketSize)
    ensures
      var next := Place(target, c);
      && next.Valid(bucketSize)
      && Unpack(next, |next.metas|) == Unpack(target, |target.metas|) + [PutAt(c, |target.data|)]
  {
    hide ReadChunk;
    var next, n := Place(target, c), |target.metas|;
    forall i | 0 <= i < n
      ensures ReadChunk(next.data, next.metas[i]) == ReadChunk(target.data, target.metas[i])
    {
      assert target.metas[i] in target.metas;
      ReadBefore(target.data, c.data, target.metas[i]);
    }
    ReadBehind(target.data, c);
    hide Unpack;
    assert forall i :: 0 <= i < n ==> Unpack(next, n + 1)[i] == Unpack(target, n)[i];
  }

  /** The first of the placed chunks goes behind what has been placed before. */
  lemma PlacedNext(before: seq<Chunk>, chunks: seq<Chunk>, used: nat, bucketSize: nat)
    requires chunks != []
    ensures
      var size := chunks[0].meta.chunkSize;
      var start := if used + size <= bucketSize then used else 0;
      before + Placed(chunks, used, bucketSize)
      == (before + [PutAt(chunks[0], start)]) + Placed(chunks[1..], start + size, bucketSize)
  {
  }

  lemma NothingUnpacked(chunks: seq<Chunk>)
    ensures Unpack(EMPTY, 0) + chunks == chunks
  {
  }

  lemma TargetFits(cur: Bucket, chunks: seq<Chunk>, bucketSize: nat)
    requires chunks != [] && Packable(chunks, bucketSize) && NamesMeet(cur, chunks, bucketSize)
    ensures
      var target := Target(cur, chunks[0], bucketSize);
      && chunks[0].Valid() && target.Valid(bucketSize) && Fits(target, chunks[0], bucketSize)
  {
    assert chunks[0] in chunks;
  }

  lemma FrontIsValid(b: Bucket, rest: seq<Bucket>)
    requires Legal([b] + rest)
    ensures b.Valid(|b.data|)
  {
    assert ([b] + rest)[0] == b;
  }

  lemma PackUnpackStep(cur: Bucket, chunks: seq<Chunk>, rest: seq<Bucket>, bucketSize: nat)
    requires chunks != [] && Packable(chunks, bucketSize) && NamesMeet(cur, chunks, bucketSize)
    requires Legal(rest) && Legal([cur] + rest)
    requires
      var placed := Place(Target(cur, chunks[0], bucketSize), chunks[0]);
      && placed.Valid(|placed.data|)
      && UnpackAll(rest) == Unpack(placed, |placed.metas|) + Placed(chunks[1..], |placed.data|, bucketSize)
    ensures
      var sent := if Fits(cur, chunks[0], bucketSize) then rest else [cur] + rest;
      UnpackAll(sent) == Unpack(cur, |cur.metas|) + Placed(chunks, |cur.data|, bucketSize)
  {
    hide Unpack, UnpackAll, Place, Placed, PutAt, Packable, NamesMeet, Legal;
    var target := Target(cur, chunks[0], bucketSize);
    TargetFits(cur, chunks, bucketSize);
    FrontIsValid(cur, rest);
    PlaceIs(target, chunks[0]);
    PlaceUnpack(target, chunks[0], bucketSize);
    PlacedNext(Unpack(target, |target.metas|), chunks, |cur.data|, bucketSize);
    if !Fits(cur, chunks[0], bucketSize) {
      UnpackAllCons(cur, rest);
      NothingUnpacked(Placed(chunks, |cur.data|, bucketSize));
    }
  }

  lemma UnpackOne(b: Bucket)
    requires b.Valid(|b.data|)
    ensures UnpackAll([b]) == Unpack(b, |b.metas|)
  {
    UnpackAllStep([], b);
    assert [] + [b] == [b];
  }

  /** The receivers unpack what was already in the current bucket, then the chunks in order, each from its place. */
  lemma {:induction false} PackUnpack(cur: Bucket, chunks: seq<Chunk>, bucketSize: nat)
    requires Packable(chunks, bucketSize) && NamesMeet(cur, chunks, bucketSize)
    requires Pack(cur, chunks, bucketSize).Success?
    ensures Legal(Pack(cur, chunks, bucketSize).value)
    ensures UnpackAll(Pack(cur, chunks, bucketSize).value)
         == Unpack(cur, |cur.metas|) + Placed(chunks, |cur.data|, bucketSize)
    decreases |chunks|
  {
    hide Unpack, UnpackAll, Place, Names, Fits;
    if chunks == [] {
      UnpackOne(cur);
    } else {
      NamesMeetNext(cur, chunks, bucketSize);
      var placed := Place(Target(cur, chunks[0], bucketSize), chunks[0]);
      PackUnpack(placed, chunks[1..], bucketSize);
      PackUnpackStep(cur, chunks, Pack(placed, chunks[1..], bucketSize).value, bucketSize);
    }
  }

  // ---------------------------------------------------------------- places and views

  /** A weight that fits in a bucket is viewed where it lies; one that does not is copied byte by byte. */
  predicate Viewable(c: Chunk, bucketSize: nat) {
    c.meta.Nbytes() <= bucketSize ==> c.meta.Aligned()
  }

  ghost predicate AllViewable(chunks: seq<Chunk>, bucketSize: nat) {
    forall i :: 0 <= i < |chunks| ==> Viewable(chunks[i], bucketSize)
  }

  /** The same chunks up to their places in buckets. */
  ghost predicate SameChunks(a: seq<Chunk>, b: seq<Chunk>) {
    |a| == |b| && forall i :: 0 <= i < |a| ==> a[i].Strip() == b[i].Strip()
  }

  lemma {:induction false} PlacedSame(chunks: seq<Chunk>, used: nat, bucketSize: nat)
    ensures SameChunks(Placed(chunks, used, bucketSize), chunks)
  {
    if chunks == [] {
    } else {
      var size := chunks[0].meta.chunkSize;
      PlacedSame(chunks[1..], (if used + size <= bucketSize then used else 0) + size, bucketSize);
    }
  }

  lemma MergeStepPlaced(st: MergeState, a: Chunk, b: Chunk, bucketSize: nat, memory: Memory)
    requires a.Strip() == b.Strip() && b.meta.offset.None? && MergeStep(st, b, bucketSize, memory).Success?
    ensures MergeStep(st, a, bucketSize, memory) ==
      if Viewable(a, bucketSize) then MergeStep(st, b, bucketSize, memory) else Failure(MisalignedView)
  {
    assert a == Chunk(b.meta.(offset := a.meta.offset), b.data);
  }

  lemma ViewableNext(a: seq<Chunk>, bucketSize: nat)
    requires a != []
    ensures AllViewable(a, bucketSize) <==> AllViewable(a[..|a| - 1], bucketSize) && Viewable(a[|a| - 1], bucketSize)
  {
  }

  /** Chunks that merge from where they were cut also merge from their buckets, unless a view is misaligned. */
  lemma {:induction false} MergePlaced(a: seq<Chunk>, b: seq<Chunk>, bucketSize: nat, memory: Memory)
    requires SameChunks(a, b) && forall c <- b :: c.meta.offset.None?
    requires MergeFrom(START, b, bucketSize, memory).Success?
    ensures MergeFrom(START, a, bucketSize, memory) ==
      if AllViewable(a, bucketSize) then MergeFrom(START, b, bucketSize, memory) else Failure(MisalignedView)
  {
    if a == [] {
    } else {
      var n := |a| - 1;
      MergePlaced(a[..n], b[..n], bucketSize, memory);
      MergeStepPlaced(MergeFrom(START, b[..n], bucketSize, memory).value, a[n], b[n], bucketSize, memory);
      ViewableNext(a, bucketSize);
      hide MergeStep, AllViewable, Viewable;
    }
  }

  /** Every weight that fits in a bucket begins at a multiple of its item size there. */
  ghost predicate WellPlaced(weights: seq<Weight>, bucketSize: nat)
    requires 0 < bucketSize
  {
    AllViewable(Placed(SplitAll(weights, bucketSize), 0, bucketSize), bucketSize)
  }

  // ---------------------------------------------------------------- the whole pipeline

  /**
   For weights with distinct names, splitting and packing raise nothing and every bucket is legal.
   Merging what the receivers unpack gives back the weights that have bytes, in order, if every small
   weight begins at a multiple of its item size, and raises otherwise. So the receivers get exactly what
   was sent if and only if that is the case and every weight has at least one byte.
   */
  lemma {:induction false} PipelineRoundTrip(weights: seq<Weight>, bucketSize: nat, memory: Memory)
    requires 0 < bucketSize && DistinctNames(weights) && forall w <- weights :: w.Valid()
    ensures
      var sent := Pack(EMPTY, SplitAll(weights, bucketSize), bucketSize);
      && sent.Success? && (forall b <- sent.value :: b.Valid(bucketSize)) && Legal(sent.value)
      && MergeAll(UnpackAll(sent.value), bucketSize, memory)
         == (if WellPlaced(weights, bucketSize) then Success(NonEmpty(weights)) else Failure(MisalignedView))
      && (MergeAll(UnpackAll(sent.value), bucketSize, memory) == Success(weights)
          <==> WellPlaced(weights, bucketSize) && forall w <- weights :: w.bytes != [])
  {
    hide Pack, Placed, MergeFrom, Packable, AllViewable, SameChunks, UnpackAll;
    var chunks := SplitAll(weights, bucketSize);
    SplitAllSizes(weights, bucketSize);
    SplitAllPackable(weights, bucketSize);
    PackSucceeds(EMPTY, chunks, bucketSize);
    PackUnpack(EMPTY, chunks, bucketSize);
    NothingUnpacked(Placed(chunks, 0, bucketSize));
    PlacedSame(chunks, 0, bucketSize);
    SplitMergeRoundTrip(weights, bucketSize, memory);
    MergePlaced(Placed(chunks, 0, bucketSize), chunks, bucketSize, memory);
    NonEmptyIdentity(weights);
  }

  // ---------------------------------------------------------------- how full the buckets are

  function TotalBytes(buckets: seq<Bucket>): nat {
    if buckets == [] then 0 else |buckets[0].data| + TotalBytes(buckets[1..])
  }

  /** Only the last bucket can be empty, and two neighbours never fit in one bucket. */
  ghost predicate NextFit(buckets: seq<Bucket>, bucketSize: nat) {
    && (forall i :: 0 <= i < |buckets| - 1 ==> buckets[i].data != [])
    && forall i :: 0 <= i < |buckets| - 1 ==> |buckets[i].data| + |buckets[i + 1].data| > bucketSize
  }

  lemma {:induction false} PackIsNextFit(cur: Bucket, chunks: seq<Chunk>, bucketSize: nat)
    requires Packable(chunks, bucketSize) && NamesMeet(cur, chunks, bucketSize)
    ensures
      var r := Pack(cur, chunks, bucketSize);
      && r.Success? && r.value != [] && NextFit(r.value, bucketSize)
      && (chunks != [] && Fits(cur, chunks[0], bucketSize)
          ==> cur.data + chunks[0].data <= r.value[0].data)
      && cur.data <= r.value[0].data
    decreases |chunks|
  {
    if chunks == [] {
    } else {
      var c := chunks[0];
      var target := Target(cur, c, bucketSize);
      var next := Place(target, c);
      NamesMeetNext(cur, chunks, bucketSize);
      PackIsNextFit(next, chunks[1..], bucketSize);
    }
  }

  lemma {:induction false} NextFitBound(buckets: seq<Bucket>, bucketSize: nat)
    requires NextFit(buckets, bucketSize)
    ensures |buckets| >= 2 ==> (|buckets| / 2) * bucketSize < TotalBytes(buckets)
  {
    if |buckets| >= 4 {
      NextFitBound(buckets[2..], bucketSize);
      assert |buckets[2..]| / 2 + 1 == |buckets| / 2;
      assert (|buckets[2..]| / 2 + 1) * bucketSize == (|buckets[2..]| / 2) * bucketSize + bucketSize;
      assert buckets[1..][1..] == buckets[2..];
    } else if |buckets| >= 2 {
      assert TotalBytes(buckets) == |buckets[0].data| + |buckets[1].data| + TotalBytes(buckets[1..][1..]);
    }
  }

  /** The number of transfers is less than twice what the bytes need, plus one. */
  lemma {:induction false} TransferBound(weights: seq<Weight>, bucketSize: nat)
    requires 0 < bucketSize && DistinctNames(weights)
    ensures
      var r := Pack(EMPTY, SplitAll(weights, bucketSize), bucketSize);
      && r.Success? && NextFit(r.value, bucketSize)
      && (|r.value| >= 2 ==> (|r.value| / 2) * bucketSize < TotalBytes(r.value))
  {
    var chunks := SplitAll(weights, bucketSize);
    SplitAllPackable(weights, bucketSize);
    PackIsNextFit(EMPTY, chunks, bucketSize);
    NextFitBound(Pack(EMPTY, chunks, bucketSize).value, bucketSize);
  }
}
