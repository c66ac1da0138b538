/**
 The byte-level cutting of weights into chunks, and the reassembly of chunks into weights
 (checkpoint_engine/base.py).
 */
module WeightChunks {
  import opened Wrappers
  import opened Arithmetic

  type Byte = bv8

  /** The number of bytes of an element. */
  type ItemSize = n: nat | 0 < n witness 1

  function Numel(shape: seq<nat>): nat {
    if shape == [] then 1 else shape[0] * Numel(shape[1..])
  }

  /** One dimension has as many elements as it is long; several have the product of theirs. */
  lemma {:induction false} NumelMultiplies(a: seq<nat>, b: seq<nat>, n: nat)
    ensures Numel([n]) == n && Numel(a + b) == Numel(a) * Numel(b)
  {
    assert [n][1..] == [];
    if a == [] {
      assert a + b == b;
    } else {
      NumelMultiplies(a[1..], b, n);
      assert (a + b)[1..] == a[1..] + b;
      ProductsAssociate(a[0], Numel(a[1..]), Numel(b));
    }
  }

  /** A named tensor, flattened to its bytes. */
  datatype Weight = Weight(name: string, shape: seq<nat>, itemsize: ItemSize, bytes: seq<Byte>) {
    predicate Valid() {
      |bytes| == Numel(shape) * itemsize
    }
  }

  /** The description that travels with every chunk; `offset` is the position in the bucket. */
  datatype TensorMeta = TensorMeta(
    name: string, shape: seq<nat>, itemsize: ItemSize, chunkOffset: nat, chunkSize: nat, offset: Option<nat>)
  {
    function Nbytes(): nat {
      Numel(shape) * itemsize
    }

    /** Where the chunk begins in the buffer that it is a slice of; a weight that was not packed begins its own. */
    function Start(): nat {
      if offset.Some? then offset.value else 0
    }

    /** Bytes can be viewed as elements if they begin at a multiple of the element's size. */
    predicate Aligned() {
      Start() % itemsize == 0
    }
  }

  datatype Chunk = Chunk(meta: TensorMeta, data: seq<Byte>) {
    predicate Valid() {
      |data| == meta.chunkSize
    }

    /** The chunk as it was before it got a place in a bucket. */
    function Strip(): Chunk {
      Chunk(meta.(offset := None), data)
    }
  }

  function Min(a: nat, b: nat): nat {
    if a <= b then a else b
  }

  // ---------------------------------------------------------------- split

  function ChunkAt(w: Weight, start: nat, bucketSize: nat): (c: Chunk)
    requires start < |w.bytes|
    ensures c.Valid()
  {
    var size := Min(bucketSize, |w.bytes| - start);
    Chunk(TensorMeta(w.name, w.shape, w.itemsize, start, size, None), w.bytes[start..start + size])
  }

  /** The chunks of `w` from byte `start` on. */
  function ChunksFrom(w: Weight, start: nat, bucketSize: nat): seq<Chunk>
    requires 0 < bucketSize && start <= |w.bytes|
    decreases |w.bytes| - start
  {
    if start == |w.bytes| then []
    else
      var c := ChunkAt(w, start, bucketSize);
      [c] + ChunksFrom(w, start + c.meta.chunkSize, bucketSize)
  }

  function SplitAll(weights: seq<Weight>, bucketSize: nat): seq<Chunk>
    requires 0 < bucketSize
  {
    if weights == [] then []
    else SplitAll(weights[..|weights| - 1], bucketSize) + ChunksFrom(weights[|weights| - 1], 0, bucketSize)
  }

  /** `split_weight_chunks`: one loop over the weights, one over the bytes of each. */
  method SplitWeightChunks(weights: seq<Weight>, bucketSize: nat) returns (chunks: seq<Chunk>)
    requires 0 < bucketSize
    ensures chunks == SplitAll(weights, bucketSize)
  {
    chunks := [];
    for i := 0 to |weights|
      invariant chunks == SplitAll(weights[..i], bucketSize)
    {
      var w := weights[i];
      var chunkOffset := 0;
      while chunkOffset < |w.bytes|
        invariant chunkOffset <= |w.bytes|
        invariant chunks + ChunksFrom(w, chunkOffset, bucketSize)
               == SplitAll(weights[..i], bucketSize) + ChunksFrom(w, 0, bucketSize)
      {
        var chunkSize := Min(bucketSize, |w.bytes| - chunkOffset);
        var meta := TensorMeta(w.name, w.shape, w.itemsize, chunkOffset, chunkSize, None);
        chunks := chunks + [Chunk(meta, w.bytes[chunkOffset..chunkOffset + chunkSize])];
        chunkOffset := chunkOffset + chunkSize;
      }
      assert weights[..i + 1][..i] == weights[..i];
    }
    assert weights[..|weights|] == weights;
  }

  // ---------------------------------------------------------------- merge

  datatype MergeError = WeightPending | NonZeroStart | NameMismatch | OffsetMismatch | ShapeMismatch | MisalignedView

  /** A weight under construction: its buffer, written up to `offset`. */
  datatype Partial = Partial(name: string, shape: seq<nat>, itemsize: ItemSize, buffer: seq<Byte>, offset: nat)

  /** The locals of the merge loop, and the weights yielded so far. */
  datatype MergeState = MergeState(cur: Option<Partial>, out: seq<Weight>)

  type Merged = Result<MergeState, MergeError>

  /** What new memory holds: any byte in every place, in every buffer anew. */
  type Memory = (nat, nat) -> Byte

  /** The `count`-th buffer of `n` bytes before anything is written to it. */
  function Uninitialised(n: nat, memory: Memory, count: nat): (b: seq<Byte>)
    ensures |b| == n
  {
    seq(n, i requires 0 <= i < n => memory(count, i))
  }

  method NewBuffer(n: nat, memory: Memory, count: nat) returns (buf: array<Byte>)
    ensures fresh(buf) && buf[..] == Uninitialised(n, memory, count)
  {
    buf := new Byte[n](i requires 0 <= i < n => memory(count, i));
    assert buf[..] == Uninitialised(n, memory, count);
  }

  /** The buffer after the slice assignment `buffer[start : start + len(data)] = data`. */
  function Written(buffer: seq<Byte>, start: nat, data: seq<Byte>): (r: seq<Byte>)
    requires start + |data| <= |buffer|
    ensures |r| == |buffer|
  {
    buffer[..start] + data + buffer[start + |data|..]
  }

  /** The branch for a weight that fits in one bucket. */
  function MergeSmall(st: MergeState, c: Chunk): Merged {
    if st.cur.Some? then Failure(WeightPending)
    else if |c.data| % c.meta.itemsize != 0 || !c.meta.Aligned() then Failure(MisalignedView)
    else if |c.data| != c.meta.Nbytes() then Failure(ShapeMismatch)
    else Success(MergeState(None, st.out + [Weight(c.meta.name, c.meta.shape, c.meta.itemsize, c.data)]))
  }

  /** The write of one chunk of a large weight into its buffer. */
  function MergeInto(cur: Partial, out: seq<Weight>, c: Chunk): Merged {
    var meta := c.meta;
    var stop := meta.chunkOffset + meta.chunkSize;
    if meta.name != cur.name then Failure(NameMismatch)
    else if cur.offset != meta.chunkOffset then Failure(OffsetMismatch)
    else if |cur.buffer| < stop || |c.data| != meta.chunkSize then Failure(ShapeMismatch)
    else
      var buffer := Written(cur.buffer, meta.chunkOffset, c.data);
      if stop == meta.Nbytes() then
        Success(MergeState(None, out + [Weight(cur.name, cur.shape, cur.itemsize, buffer)]))
      else Success(MergeState(Some(cur.(buffer := buffer, offset := stop)), out))
  }

  function NewPartial(meta: TensorMeta, memory: Memory, count: nat): Partial {
    Partial(meta.name, meta.shape, meta.itemsize, Uninitialised(meta.Nbytes(), memory, count), 0)
  }

  /** One iteration of the merge loop. */
  function MergeStep(st: MergeState, c: Chunk, bucketSize: nat, memory: Memory): Merged {
    if c.meta.Nbytes() <= bucketSize then MergeSmall(st, c)
    else if st.cur.Some? then MergeInto(st.cur.value, st.out, c)
    else if c.meta.chunkOffset != 0 then Failure(NonZeroStart)
    else MergeInto(NewPartial(c.meta, memory, |st.out|), st.out, c)
  }

  function MergeFrom(start: Merged, chunks: seq<Chunk>, bucketSize: nat, memory: Memory): Merged {
    if chunks == [] then start
    else
      var st :- MergeFrom(start, chunks[..|chunks| - 1], bucketSize, memory);
      MergeStep(st, chunks[|chunks| - 1], bucketSize, memory)
  }

  const START: Merged := Success(MergeState(None, []))

  function MergeAll(chunks: seq<Chunk>, bucketSize: nat, memory: Memory): Result<seq<Weight>, MergeError> {
    var st :- MergeFrom(START, chunks, bucketSize, memory);
    Success(st.out)
  }

  /** The slice assignment, in place. */
  method WriteSlice(buf: array<Byte>, start: nat, data: seq<Byte>)
    requires start + |data| <= buf.Length
    modifies buf
    ensures buf[..] == Written(old(buf[..]), start, data)
    ensures buf[..start + |data|] == old(buf[..start]) + data
  {
    forall j | 0 <= j < |data| {
      buf[start + j] := data[j];
    }
    assert buf[..] == Written(old(buf[..]), start, data);
  }

  /** The fold over one more chunk; an iteration that raises ends the whole loop with that error. */
  lemma {:induction false} MergeFromNext(chunks: seq<Chunk>, i: nat, bucketSize: nat, memory: Memory)
    requires i < |chunks| && MergeFrom(START, chunks[..i], bucketSize, memory).Success?
    ensures
      var r := MergeStep(MergeFrom(START, chunks[..i], bucketSize, memory).value, chunks[i], bucketSize, memory);
      && MergeFrom(START, chunks[..i + 1], bucketSize, memory) == r
      && (r.Failure? ==> MergeFrom(START, chunks, bucketSize, memory) == r)
    decreases |chunks|
  {
    assert chunks[..i + 1][..i] == chunks[..i] && chunks[..i + 1][i] == chunks[i];
    if i + 1 == |chunks| {
      assert chunks[..i + 1] == chunks;
    } else {
      var front := chunks[..|chunks| - 1];
      assert front[..i + 1] == chunks[..i + 1] && front[..i] == chunks[..i];
      MergeFromNext(front, i, bucketSize, memory);
    }
  }

  /** What the next iteration does, branch by branch. */
  lemma MergeGoesOn(chunks: seq<Chunk>, i: nat, bucketSize: nat, memory: Memory)
    requires i < |chunks| && MergeFrom(START, chunks[..i], bucketSize, memory).Success?
    ensures
      var st, c := MergeFrom(START, chunks[..i], bucketSize, memory).value, chunks[i];
      var r :=
        if c.meta.Nbytes() <= bucketSize then
          if st.cur.Some? then Failure(WeightPending)
          else if |c.data| % c.meta.itemsize != 0 || !c.meta.Aligned() then Failure(MisalignedView)
          else if |c.data| != c.meta.Nbytes() then Failure(ShapeMismatch)
          else Success(MergeState(None, st.out + [Weight(c.meta.name, c.meta.shape, c.meta.itemsize, c.data)]))
        else if st.cur.Some? then MergeInto(st.cur.value, st.out, c)
        else if c.meta.chunkOffset != 0 then Failure(NonZeroStart)
        else
          var buffer := Uninitialised(c.meta.Nbytes(), memory, |st.out|);
          MergeInto(Partial(c.meta.name, c.meta.shape, c.meta.itemsize, buffer, 0), st.out, c);
      && MergeFrom(START, chunks[..i + 1], bucketSize, memory) == r
      && (r.Failure? ==> MergeAll(chunks, bucketSize, memory) == Failure(r.error))
  {
    MergeFromNext(chunks, i, bucketSize, memory);
    hide MergeFrom, MergeInto;
  }

  lemma MergeEnds(chunks: seq<Chunk>, bucketSize: nat, memory: Memory)
    requires MergeFrom(START, chunks[..|chunks|], bucketSize, memory).Success?
    ensures MergeAll(chunks, bucketSize, memory) == Success(MergeFrom(START, chunks[..|chunks|], bucketSize, memory).value.out)
  {
    assert chunks[..|chunks|] == chunks;
  }

  /** A chunk of a large weight is written into its buffer; the answer says whether it was the last one. */
  method WriteChunk(
      buf: array<Byte>, offset: nat, c: Chunk, name: string,
      ghost shape: seq<nat>, ghost itemsize: ItemSize, ghost out: seq<Weight>)
    returns (last: Result<bool, MergeError>)
    modifies buf
    ensures MergeInto(Partial(name, shape, itemsize, old(buf[..]), offset), out, c) ==
      if last.Failure? then Failure(last.error)
      else if last.value then Success(MergeState(None, out + [Weight(name, shape, itemsize, buf[..])]))
      else Success(MergeState(Some(Partial(name, shape, itemsize, buf[..], offset + c.meta.chunkSize)), out))
  {
    hide Written;
    if c.meta.name != name { return Failure(NameMismatch); }
    if offset != c.meta.chunkOffset { return Failure(OffsetMismatch); }
    if buf.Length < c.meta.chunkOffset + c.meta.chunkSize || |c.data| != c.meta.chunkSize { return Failure(ShapeMismatch); }
    WriteSlice(buf, c.meta.chunkOffset, c.data);
    return Success(c.meta.chunkOffset + c.meta.chunkSize == c.meta.Nbytes());
  }

  /** `merge_weight_chunks`: the buffer of the weight under construction is written in place. */
  method MergeWeightChunks(chunks: seq<Chunk>, bucketSize: nat, memory: Memory)
    returns (r: Result<seq<Weight>, MergeError>)
    ensures r == MergeAll(chunks, bucketSize, memory)
  {
    var out: seq<Weight> := [];
    var merging, name, shape := false, "", [];
    var itemsize: ItemSize := 1;
    var mergeOffset: nat := 0;
    var mergeBuffer := new Byte[0];
    assert MergeFrom(START, chunks[..0], bucketSize, memory) == START;
    hide MergeFrom, MergeAll, MergeStep, MergeInto, MergeSmall, NewPartial, Uninitialised, TensorMeta.Nbytes;
    for i := 0 to |chunks|
      invariant fresh(mergeBuffer)
      invariant MergeFrom(START, chunks[..i], bucketSize, memory) == Success(MergeState(
        if merging then Some(Partial(name, shape, itemsize, mergeBuffer[..], mergeOffset)) else None, out))
    {
      var meta, data := chunks[i].meta, chunks[i].data;
      MergeGoesOn(chunks, i, bucketSize, memory);
      if meta.Nbytes() <= bucketSize {
        if merging { return Failure(WeightPending); }
        if |data| % meta.itemsize != 0 || meta.Start() % meta.itemsize != 0 { return Failure(MisalignedView); }
        if |data| != meta.Nbytes() { return Failure(ShapeMismatch); }
        out := out + [Weight(meta.name, meta.shape, meta.itemsize, data)];
      } else {
        if !merging {
          if meta.chunkOffset != 0 { return Failure(NonZeroStart); }
          merging, name, shape, itemsize, mergeOffset := true, meta.name, meta.shape, meta.itemsize, 0;
          mergeBuffer := NewBuffer(meta.Nbytes(), memory, |out|);
        }
        var last := WriteChunk(mergeBuffer, mergeOffset, chunks[i], name, shape, itemsize, out);
        if last.Failure? { return Failure(last.error); }
        mergeOffset := mergeOffset + meta.chunkSize;
        if last.value {
          out := out + [Weight(name, shape, itemsize, mergeBuffer[..])];
          merging, mergeOffset := false, 0;
          mergeBuffer := new Byte[0];
        }
      }
    }
    MergeEnds(chunks, bucketSize, memory);
    return Success(out);
  }

  // ---------------------------------------------------------------- round trip

  /** The weights that own at least one byte. */
  function NonEmpty(weights: seq<Weight>): seq<Weight> {
    if weights == [] then []
    else
      var last := weights[|weights| - 1];
      NonEmpty(weights[..|weights| - 1]) + if last.bytes == [] then [] else [last]
  }

  lemma {:induction false} MergeFromConcat(start: Merged, a: seq<Chunk>, b: seq<Chunk>, bucketSize: nat, memory: Memory)
    ensures MergeFrom(start, a + b, bucketSize, memory)
         == MergeFrom(MergeFrom(start, a, bucketSize, memory), b, bucketSize, memory)
    decreases |b|
  {
    if b == [] {
      assert a + b == a;
    } else {
      MergeFromConcat(start, a, b[..|b| - 1], bucketSize, memory);
      assert (a + b)[..|a + b| - 1] == a + b[..|b| - 1];
    }
  }

  lemma MergeOne(st: MergeState, c: Chunk, bucketSize: nat, memory: Memory)
    ensures MergeFrom(Success(st), [c], bucketSize, memory) == MergeStep(st, c, bucketSize, memory)
  {
    assert [c][..0] == [];
  }

  function Building(w: Weight, start: nat, buffer: seq<Byte>): Option<Partial> {
    if start == 0 then None else Some(Partial(w.name, w.shape, w.itemsize, buffer, start))
  }

  /** The buffer of `w` is right up to byte `start`; before the first chunk nothing is known about it. */
  ghost predicate BuiltUpTo(w: Weight, start: nat, buffer: seq<Byte>, memory: Memory, count: nat) {
    && |buffer| == |w.bytes| && start <= |w.bytes| && buffer[..start] == w.bytes[..start]
    && (start == 0 ==> buffer == Uninitialised(|w.bytes|, memory, count))
  }

  lemma MergeLargeStep(w: Weight, start: nat, buffer: seq<Byte>, out: seq<Weight>, bucketSize: nat, memory: Memory)
    returns (written: seq<Byte>)
    requires w.Valid() && 0 < bucketSize < |w.bytes| && start < |w.bytes| && BuiltUpTo(w, start, buffer, memory, |out|)
    ensures
      var c := ChunkAt(w, start, bucketSize);
      var stop := start + c.meta.chunkSize;
      && BuiltUpTo(w, stop, written, memory, |out|)
      && MergeStep(MergeState(Building(w, start, buffer), out), c, bucketSize, memory)
         == Success(if stop < |w.bytes| then MergeState(Building(w, stop, written), out) else MergeState(None, out + [w]))
  {
    var c := ChunkAt(w, start, bucketSize);
    var stop := start + c.meta.chunkSize;
    written := buffer[..start] + c.data + buffer[stop..];
    assert written[..stop] == w.bytes[..stop];
    if stop == |w.bytes| {
      assert written == w.bytes;
    }
  }

  /** A weight larger than a bucket is rebuilt from its remaining chunks, whatever the buffer held. */
  lemma {:induction false} MergeLargeWeight(
      w: Weight, start: nat, buffer: seq<Byte>, out: seq<Weight>, bucketSize: nat, memory: Memory)
    requires w.Valid() && 0 < bucketSize < |w.bytes| && start < |w.bytes| && BuiltUpTo(w, start, buffer, memory, |out|)
    ensures
      MergeFrom(Success(MergeState(Building(w, start, buffer), out)), ChunksFrom(w, start, bucketSize), bucketSize, memory)
      == Success(MergeState(None, out + [w]))
    decreases |w.bytes| - start
  {
    hide MergeStep;
    var st, c := MergeState(Building(w, start, buffer), out), ChunkAt(w, start, bucketSize);
    var stop := start + c.meta.chunkSize;
    var written := MergeLargeStep(w, start, buffer, out, bucketSize, memory);
    MergeOne(st, c, bucketSize, memory);
    MergeFromConcat(Success(st), [c], ChunksFrom(w, stop, bucketSize), bucketSize, memory);
    if stop < |w.bytes| {
      MergeLargeWeight(w, stop, written, out, bucketSize, memory);
    }
  }

  lemma WholeItems(count: nat, itemsize: ItemSize)
    ensures (count * itemsize) % itemsize == 0
  {
    QuotientIs(count * itemsize, itemsize, count, 0);
  }

  lemma MergeWeight(w: Weight, out: seq<Weight>, bucketSize: nat, memory: Memory)
    requires w.Valid() && 0 < bucketSize
    ensures MergeFrom(Success(MergeState(None, out)), ChunksFrom(w, 0, bucketSize), bucketSize, memory)
         == Success(MergeState(None, out + if w.bytes == [] then [] else [w]))
  {
    if |w.bytes| > bucketSize {
      MergeLargeWeight(w, 0, Uninitialised(|w.bytes|, memory, |out|), out, bucketSize, memory);
    } else if w.bytes != [] {
      var c := ChunkAt(w, 0, bucketSize);
      WholeItems(Numel(w.shape), w.itemsize);
      MergeOne(MergeState(None, out), c, bucketSize, memory);
      assert c.data == w.bytes && ChunksFrom(w, 0, bucketSize) == [c];
    } else {
      assert out + [] == out;
    }
  }

  /**
   Merging what split produced raises nothing and returns the weights in order, byte for byte,
   without those that have no bytes.
   */
  lemma {:induction false} SplitMergeRoundTrip(weights: seq<Weight>, bucketSize: nat, memory: Memory)
    requires 0 < bucketSize && forall w <- weights :: w.Valid()
    ensures MergeFrom(START, SplitAll(weights, bucketSize), bucketSize, memory)
         == Success(MergeState(None, NonEmpty(weights)))
  {
    if weights == [] {
    } else {
      var front, w := weights[..|weights| - 1], weights[|weights| - 1];
      SplitMergeRoundTrip(front, bucketSize, memory);
      MergeWeight(w, NonEmpty(front), bucketSize, memory);
      MergeFromConcat(START, SplitAll(front, bucketSize), ChunksFrom(w, 0, bucketSize), bucketSize, memory);
    }
  }

  lemma SameLast(a: seq<Weight>, b: seq<Weight>, w: Weight)
    ensures a + [w] == b + [w] <==> a == b
  {
    assert (a + [w])[..|a|] == a && (b + [w])[..|b|] == b;
  }

  lemma EachHasBytes(front: seq<Weight>, last: Weight)
    ensures (forall w <- front + [last] :: w.bytes != []) <==> (forall w <- front :: w.bytes != []) && last.bytes != []
  {
    assert last in front + [last] && forall w <- front :: w in front + [last];
  }

  lemma NonEmptyStep(front: seq<Weight>, last: Weight)
    ensures NonEmpty(front + [last]) == NonEmpty(front) + if last.bytes == [] then [] else [last]
  {
    assert (front + [last])[..|front|] == front;
  }

  lemma NoWeights()
    ensures NonEmpty([]) == []
  {
  }

  lemma OneMoreWeight(front: seq<Weight>, last: Weight)
    requires |NonEmpty(front)| <= |front|
    requires NonEmpty(front) == front <==> forall w <- front :: w.bytes != []
    ensures |NonEmpty(front + [last])| <= |front + [last]|
    ensures NonEmpty(front + [last]) == front + [last] <==> forall w <- front + [last] :: w.bytes != []
  {
    hide NonEmpty;
    NonEmptyStep(front, last);
    SameLast(NonEmpty(front), front, last);
    EachHasBytes(front, last);
  }

  lemma {:induction false} NonEmptyIdentity(weights: seq<Weight>)
    ensures |NonEmpty(weights)| <= |weights|
    ensures NonEmpty(weights) == weights <==> forall w <- weights :: w.bytes != []
  {
    hide NonEmpty;
    if weights == [] {
      NoWeights();
    } else {
      var front, last := weights[..|weights| - 1], weights[|weights| - 1];
      assert weights == front + [last];
      NonEmptyIdentity(front);
      OneMoreWeight(front, last);
    }
  }
}
