/** When merging chunks succeeds, for any chunks, and what it makes of them (checkpoint_engine/base.py). */
module ChunkAssembly {
  import opened Wrappers
  import opened Permutations
  import opened WeightChunks

  /** The bytes of the chunks, one chunk after the other. */
  function Bytes(chunks: seq<Chunk>): seq<Byte> {
    if chunks == [] then [] else Bytes(chunks[..|chunks| - 1]) + chunks[|chunks| - 1].data
  }

  /** Both chunks are of one tensor. */
  predicate SameWeight(a: TensorMeta, b: TensorMeta) {
    a.name == b.name && a.shape == b.shape && a.itemsize == b.itemsize
  }

  /** The chunks of one name agree on the tensor. */
  ghost predicate Consistent(chunks: seq<Chunk>) {
    forall a <- chunks, b <- chunks :: a.meta.name == b.meta.name ==> SameWeight(a.meta, b.meta)
  }

  /** The first chunks of a tensor that is larger than a bucket: each begins where the one before it ends. */
  ghost predicate Begins(chunks: seq<Chunk>, m: TensorMeta, bucketSize: nat) {
    && bucketSize < m.Nbytes() && |Bytes(chunks)| <= m.Nbytes()
    && forall i :: 0 <= i < |chunks| ==>
         && SameWeight(chunks[i].meta, m) && chunks[i].Valid()
         && chunks[i].meta.chunkOffset == |Bytes(chunks[..i])|
         && (i > 0 ==> |Bytes(chunks[..i])| < m.Nbytes())
  }

  /** The chunks are those of the weight: one that can be viewed, or the pieces of a large one. */
  ghost predicate Builds(chunks: seq<Chunk>, w: Weight, bucketSize: nat) {
    && chunks != [] && w.bytes == Bytes(chunks) && |w.bytes| == chunks[0].meta.Nbytes()
    && w == Weight(chunks[0].meta.name, chunks[0].meta.shape, chunks[0].meta.itemsize, w.bytes)
    && if |w.bytes| <= bucketSize then |chunks| == 1 && chunks[0].meta.Aligned() && |w.bytes| % w.itemsize == 0
       else Begins(chunks, chunks[0].meta, bucketSize)
  }

  ghost predicate AllBuild(parts: seq<seq<Chunk>>, out: seq<Weight>, bucketSize: nat) {
    |parts| == |out| && forall i :: 0 <= i < |parts| ==> Builds(parts[i], out[i], bucketSize)
  }

  /** What the merge loop has under construction are the chunks in `tail`. */
  ghost predicate Holds(cur: Option<Partial>, tail: seq<Chunk>, bucketSize: nat) {
    match cur
    case None => tail == []
    case Some(p) =>
      && tail != [] && Begins(tail, tail[0].meta, bucketSize)
      && p.name == tail[0].meta.name && p.shape == tail[0].meta.shape && p.itemsize == tail[0].meta.itemsize
      && |p.buffer| == tail[0].meta.Nbytes() && p.offset == |Bytes(tail)| < |p.buffer| && p.buffer[..p.offset] == Bytes(tail)
  }

  // ---------------------------------------------------------------- one more chunk

  lemma BytesNext(chunks: seq<Chunk>, c: Chunk)
    ensures Bytes(chunks + [c]) == Bytes(chunks) + c.data
  {
    assert (chunks + [c])[..|chunks|] == chunks;
  }

  lemma BytesOne(c: Chunk)
    ensures Bytes([c]) == c.data && Bytes([]) == []
  {
    assert [c][..0] == [];
  }

  lemma BeginsNext(tail: seq<Chunk>, c: Chunk, m: TensorMeta, bucketSize: nat)
    requires Begins(tail, m, bucketSize) && (tail != [] ==> |Bytes(tail)| < m.Nbytes())
    requires SameWeight(c.meta, m) && c.Valid() && c.meta.chunkOffset == |Bytes(tail)|
    requires |Bytes(tail)| + |c.data| <= m.Nbytes()
    ensures Begins(tail + [c], m, bucketSize)
  {
    var more := tail + [c];
    BytesNext(tail, c);
    forall i | 0 <= i < |more|
      ensures
        && SameWeight(more[i].meta, m) && more[i].Valid() && more[i].meta.chunkOffset == |Bytes(more[..i])|
        && (i > 0 ==> |Bytes(more[..i])| < m.Nbytes())
    {
      if i < |tail| {
        assert more[..i] == tail[..i] && more[i] == tail[i];
      } else {
        assert more[..i] == tail;
      }
    }
  }

  lemma WrittenBegins(buffer: seq<Byte>, start: nat, data: seq<Byte>, before: seq<Byte>)
    requires start + |data| <= |buffer| && start == |before| && buffer[..start] == before
    ensures Written(buffer, start, data)[..start + |data|] == before + data
  {
  }

  /** A chunk of a large weight that the merge takes goes behind those that it has, and may be the last. */
  lemma LargeAssembles(cur: Partial, out: seq<Weight>, tail: seq<Chunk>, c: Chunk, m: TensorMeta, bucketSize: nat)
    requires Begins(tail, m, bucketSize) && bucketSize < m.Nbytes() && SameWeight(c.meta, m)
    requires cur.name == m.name && cur.shape == m.shape && cur.itemsize == m.itemsize
    requires |cur.buffer| == m.Nbytes() && cur.offset == |Bytes(tail)| < |cur.buffer|
    requires cur.buffer[..cur.offset] == Bytes(tail) && MergeInto(cur, out, c).Success?
    ensures
      var st, all := MergeInto(cur, out, c).value, tail + [c];
      && Begins(all, m, bucketSize)
      && if |Bytes(all)| == m.Nbytes() then st == MergeState(None, out + [Weight(m.name, m.shape, m.itemsize, Bytes(all))])
         else
           && st.out == out && st.cur.Some? && st.cur.value == cur.(buffer := st.cur.value.buffer, offset := |Bytes(all)|)
           && |st.cur.value.buffer| == m.Nbytes() && st.cur.value.buffer[..|Bytes(all)|] == Bytes(all)
  {
    hide Numel;
    BytesNext(tail, c);
    BeginsNext(tail, c, m, bucketSize);
    hide Begins, Bytes, Written;
    WrittenBegins(cur.buffer, cur.offset, c.data, Bytes(tail));
    var written := Written(cur.buffer, cur.offset, c.data);
    assert written[..|written|] == written;
  }

  /** One iteration that raises nothing: the chunk extends what is under construction, or completes a weight. */
  lemma StepAssembles(st: MergeState, tail: seq<Chunk>, c: Chunk, bucketSize: nat, memory: Memory)
    requires Holds(st.cur, tail, bucketSize) && MergeStep(st, c, bucketSize, memory).Success?
    requires tail != [] && c.meta.name == tail[0].meta.name ==> SameWeight(c.meta, tail[0].meta)
    ensures
      var next, all := MergeStep(st, c, bucketSize, memory).value, tail + [c];
      if |Bytes(all)| == c.meta.Nbytes() then
        next.cur.None? && |next.out| == |st.out| + 1 && next.out[..|st.out|] == st.out
        && Builds(all, next.out[|st.out|], bucketSize)
      else next.out == st.out && Holds(next.cur, all, bucketSize)
  {
    BytesOne(c);
    BytesNext(tail, c);
    if c.meta.Nbytes() <= bucketSize {
      assert tail + [c] == [c];
    } else if st.cur.Some? {
      LargeAssembles(st.cur.value, st.out, tail, c, tail[0].meta, bucketSize);
      assert (tail + [c])[0] == tail[0];
    } else {
      LargeAssembles(NewPartial(c.meta, memory, |st.out|), st.out, [], c, c.meta, bucketSize);
      assert [] + [c] == [c] == tail + [c];
    }
  }

  // ---------------------------------------------------------------- from the merge to the parts

  lemma ConcatLast<T>(parts: seq<seq<T>>, last: seq<T>)
    ensures Concat(parts + [last]) == Concat(parts) + last
  {
    ConcatAppend(parts, [last]);
    assert [last][1..] == [] && Concat([last]) == last + Concat([last][1..]);
  }

  lemma AllBuildNext(parts: seq<seq<Chunk>>, out: seq<Weight>, part: seq<Chunk>, w: Weight, bucketSize: nat)
    requires AllBuild(parts, out, bucketSize) && Builds(part, w, bucketSize)
    ensures AllBuild(parts + [part], out + [w], bucketSize)
  {
  }

  lemma NothingHeld(bucketSize: nat)
    ensures Holds(None, [], bucketSize)
  {
  }

  lemma AssembleNext(
      parts: seq<seq<Chunk>>, tail: seq<Chunk>, st: MergeState, c: Chunk, bucketSize: nat, memory: Memory)
    returns (parts': seq<seq<Chunk>>, tail': seq<Chunk>)
    requires AllBuild(parts, st.out, bucketSize) && Holds(st.cur, tail, bucketSize)
    requires tail != [] && c.meta.name == tail[0].meta.name ==> SameWeight(c.meta, tail[0].meta)
    requires MergeStep(st, c, bucketSize, memory).Success?
    ensures
      var next := MergeStep(st, c, bucketSize, memory).value;
      && Concat(parts') + tail' == Concat(parts) + (tail + [c])
      && AllBuild(parts', next.out, bucketSize) && Holds(next.cur, tail', bucketSize)
  {
    hide Holds, Builds, AllBuild, Concat, MergeStep, Bytes;
    var next := MergeStep(st, c, bucketSize, memory).value;
    StepAssembles(st, tail, c, bucketSize, memory);
    if |Bytes(tail + [c])| == c.meta.Nbytes() {
      var w := next.out[|st.out|];
      assert next.out == st.out + [w];
      AllBuildNext(parts, st.out, tail + [c], w, bucketSize);
      ConcatLast(parts, tail + [c]);
      NothingHeld(bucketSize);
      parts', tail' := parts + [tail + [c]], [];
      assert Concat(parts') + [] == Concat(parts');
    } else {
      parts', tail' := parts, tail + [c];
    }
  }

  lemma MergeFromLast(front: seq<Chunk>, c: Chunk, bucketSize: nat, memory: Memory)
    requires MergeFrom(START, front + [c], bucketSize, memory).Success?
    ensures MergeFrom(START, front, bucketSize, memory).Success?
    ensures
      MergeFrom(START, front + [c], bucketSize, memory) ==
      MergeStep(MergeFrom(START, front, bucketSize, memory).value, c, bucketSize, memory)
  {
    assert (front + [c])[..|front|] == front;
  }

  lemma ConsistentNext(front: seq<Chunk>, c: Chunk, done: seq<Chunk>, tail: seq<Chunk>)
    requires Consistent(front + [c]) && front == done + tail
    ensures Consistent(front)
    ensures tail != [] && c.meta.name == tail[0].meta.name ==> SameWeight(c.meta, tail[0].meta)
  {
    assert forall x <- front :: x in front + [c];
    assert c in front + [c] && (tail != [] ==> tail[0] == front[|done|]);
  }

  lemma NothingMerged(bucketSize: nat, memory: Memory)
    ensures MergeFrom(START, [], bucketSize, memory) == START && AllBuild([], [], bucketSize) && Concat<Chunk>([]) == []
  {
  }

  /** What the merge has taken is what it has yielded, and what it has under construction. */
  lemma {:induction false} MergeAssembles(chunks: seq<Chunk>, bucketSize: nat, memory: Memory)
    returns (parts: seq<seq<Chunk>>, tail: seq<Chunk>)
    requires Consistent(chunks) && MergeFrom(START, chunks, bucketSize, memory).Success?
    ensures
      var st := MergeFrom(START, chunks, bucketSize, memory).value;
      chunks == Concat(parts) + tail && AllBuild(parts, st.out, bucketSize) && Holds(st.cur, tail, bucketSize)
  {
    hide Holds, AllBuild, Concat, MergeStep, MergeFrom, Consistent;
    if chunks == [] {
      NothingMerged(bucketSize, memory);
      NothingHeld(bucketSize);
      parts, tail := [], [];
    } else {
      var front, c := chunks[..|chunks| - 1], chunks[|chunks| - 1];
      assert chunks == front + [c];
      MergeFromLast(front, c, bucketSize, memory);
      ConsistentNext(front, c, front, []);
      var parts0, tail0 := MergeAssembles(front, bucketSize, memory);
      ConsistentNext(front, c, Concat(parts0), tail0);
      parts, tail := AssembleNext(parts0, tail0, MergeFrom(START, front, bucketSize, memory).value, c, bucketSize, memory);
      assert Concat(parts0) + (tail0 + [c]) == (Concat(parts0) + tail0) + [c];
    }
  }

  // ---------------------------------------------------------------- from the parts to the merge

  lemma LargeStepSucceeds(st: MergeState, tail: seq<Chunk>, c: Chunk, m: TensorMeta, bucketSize: nat, memory: Memory)
    requires Holds(st.cur, tail, bucketSize) && SameWeight(c.meta, m) && c.Valid() && bucketSize < m.Nbytes()
    requires tail != [] ==> SameWeight(tail[0].meta, m)
    requires c.meta.chunkOffset == |Bytes(tail)| && |Bytes(tail)| + |c.data| <= m.Nbytes()
    ensures MergeStep(st, c, bucketSize, memory).Success?
  {
    hide Numel, Begins;
    BytesOne(c);
  }

  lemma PieceOf(part: seq<Chunk>, n: nat, bucketSize: nat)
    requires n < |part| && Begins(part, part[0].meta, bucketSize)
    ensures SameWeight(part[n].meta, part[0].meta) && part[n].Valid() && part[n].meta.chunkOffset == |Bytes(part[..n])|
    ensures part[..n + 1] == part[..n] + [part[n]] && |Bytes(part[..n])| + |part[n].data| <= part[0].meta.Nbytes()
    ensures n + 1 < |part| ==> |Bytes(part[..n + 1])| < part[0].meta.Nbytes()
  {
    hide Numel;
    BytesNext(part[..n], part[n]);
    assert part[..n + 1] == part[..n] + [part[n]];
    if n + 1 == |part| { assert part[..n + 1] == part; }
  }

  lemma OneMoreChunk(start: Merged, front: seq<Chunk>, c: Chunk, bucketSize: nat, memory: Memory)
    requires MergeFrom(start, front, bucketSize, memory).Success?
    ensures
      MergeFrom(start, front + [c], bucketSize, memory) ==
      MergeStep(MergeFrom(start, front, bucketSize, memory).value, c, bucketSize, memory)
  {
    assert (front + [c])[..|front|] == front;
  }

  lemma {:induction false} PiecesMerge(
      part: seq<Chunk>, n: nat, out: seq<Weight>, bucketSize: nat, memory: Memory)
    requires n < |part| && Begins(part, part[0].meta, bucketSize) && bucketSize < part[0].meta.Nbytes()
    ensures
      var r := MergeFrom(Success(MergeState(None, out)), part[..n], bucketSize, memory);
      r.Success? && r.value.out == out && Holds(r.value.cur, part[..n], bucketSize)
  {
    if n == 0 {
      NothingHeld(bucketSize);
    } else {
      PiecesMerge(part, n - 1, out, bucketSize, memory);
      PieceOf(part, n - 1, bucketSize);
      var st := MergeFrom(Success(MergeState(None, out)), part[..n - 1], bucketSize, memory).value;
      var c := part[n - 1];
      LargeStepSucceeds(st, part[..n - 1], c, part[0].meta, bucketSize, memory);
      StepAssembles(st, part[..n - 1], c, bucketSize, memory);
      OneMoreChunk(Success(MergeState(None, out)), part[..n - 1], c, bucketSize, memory);
    }
    hide Holds, Begins, Bytes, MergeStep, MergeFrom, Builds;
  }

  lemma SamePart(w: Weight, v: Weight, part: seq<Chunk>, bucketSize: nat)
    requires Builds(part, w, bucketSize) && Builds(part, v, bucketSize)
    ensures w == v
  {
  }

  lemma SmallMerges(part: seq<Chunk>, w: Weight, out: seq<Weight>, bucketSize: nat, memory: Memory)
    requires Builds(part, w, bucketSize) && |w.bytes| <= bucketSize
    ensures MergeFrom(Success(MergeState(None, out)), part, bucketSize, memory) == Success(MergeState(None, out + [w]))
  {
    hide Numel;
    BytesOne(part[0]);
    assert part == [part[0]];
    MergeOne(MergeState(None, out), part[0], bucketSize, memory);
  }

  lemma LargeMerges(part: seq<Chunk>, w: Weight, out: seq<Weight>, bucketSize: nat, memory: Memory)
    requires Builds(part, w, bucketSize) && bucketSize < |w.bytes|
    ensures MergeFrom(Success(MergeState(None, out)), part, bucketSize, memory) == Success(MergeState(None, out + [w]))
  {
    var n := |part| - 1;
    var c := part[n];
    PiecesMerge(part, n, out, bucketSize, memory);
    PieceOf(part, n, bucketSize);
    assert part == part[..n] + [c];
    var st := MergeFrom(Success(MergeState(None, out)), part[..n], bucketSize, memory).value;
    LargeStepSucceeds(st, part[..n], c, part[0].meta, bucketSize, memory);
    StepAssembles(st, part[..n], c, bucketSize, memory);
    OneMoreChunk(Success(MergeState(None, out)), part[..n], c, bucketSize, memory);
    var next := MergeStep(st, c, bucketSize, memory).value;
    SamePart(w, next.out[|out|], part, bucketSize);
    assert next.out == next.out[..|out|] + [w];
    hide Holds, Begins, Bytes, MergeStep, MergeFrom;
  }

  /** The chunks of a weight merge to it. */
  lemma PartMerges(part: seq<Chunk>, w: Weight, out: seq<Weight>, bucketSize: nat, memory: Memory)
    requires Builds(part, w, bucketSize)
    ensures MergeFrom(Success(MergeState(None, out)), part, bucketSize, memory) == Success(MergeState(None, out + [w]))
  {
    if |w.bytes| <= bucketSize {
      SmallMerges(part, w, out, bucketSize, memory);
    } else {
      LargeMerges(part, w, out, bucketSize, memory);
    }
  }

  lemma {:induction false} PartsMerge(parts: seq<seq<Chunk>>, out: seq<Weight>, bucketSize: nat, memory: Memory)
    requires AllBuild(parts, out, bucketSize)
    ensures MergeFrom(START, Concat(parts), bucketSize, memory) == Success(MergeState(None, out))
  {
    hide Builds, MergeFrom, Concat;
    if parts == [] {
      NothingMerged(bucketSize, memory);
    } else {
      var n := |parts| - 1;
      PartsMerge(parts[..n], out[..n], bucketSize, memory);
      PartMerges(parts[n], out[n], out[..n], bucketSize, memory);
      assert parts == parts[..n] + [parts[n]] && out == out[..n] + [out[n]];
      ConcatLast(parts[..n], parts[n]);
      MergeFromConcat(START, Concat(parts[..n]), parts[n], bucketSize, memory);
    }
  }

  /**
   For any chunks whose names stand for one tensor each: the merge raises nothing and yields the weights if
   and only if the chunks are those of the weights, one weight after the other.
   */
  lemma {:induction false} MergeExactly(chunks: seq<Chunk>, out: seq<Weight>, bucketSize: nat, memory: Memory)
    requires Consistent(chunks)
    ensures
      MergeFrom(START, chunks, bucketSize, memory) == Success(MergeState(None, out)) <==>
      exists parts :: Concat(parts) == chunks && AllBuild(parts, out, bucketSize)
  {
    hide MergeFrom, Concat, AllBuild, Consistent;
    if MergeFrom(START, chunks, bucketSize, memory) == Success(MergeState(None, out)) {
      var parts, tail := MergeAssembles(chunks, bucketSize, memory);
      assert Concat(parts) + [] == Concat(parts);
      assert Concat(parts) == chunks;
    }
    forall parts | Concat(parts) == chunks && AllBuild(parts, out, bucketSize)
      ensures MergeFrom(START, chunks, bucketSize, memory) == Success(MergeState(None, out))
    {
      PartsMerge(parts, out, bucketSize, memory);
    }
  }
}
