/**
 When the weights that fit in a bucket begin at multiples of their item sizes, so that their bytes can be
 viewed as elements (checkpoint_engine/base.py).
 */
module BucketAlignment {
  import opened Wrappers
  import opened Arithmetic
  import opened WeightChunks
  import opened BucketPacking

  // ---------------------------------------------------------------- divisors

  lemma Distributes(a: int, b: int, d: int)
    ensures (a + b) * d == a * d + b * d
  {
  }

  lemma SumDivides(a: nat, b: nat, d: nat)
    requires 0 < d && a % d == 0 && b % d == 0
    ensures (a + b) % d == 0
  {
    Remainder(a, d);
    Remainder(b, d);
    Distributes(a / d, b / d, d);
    QuotientIs(a + b, d, a / d + b / d, 0);
  }

  lemma DifferenceDivides(a: nat, b: nat, d: nat)
    requires 0 < d && b <= a && a % d == 0 && b % d == 0
    ensures (a - b) % d == 0
  {
    Remainder(a, d);
    Remainder(b, d);
    Distributes(a / d - b / d, b / d, d);
    QuotientIs(a - b, d, a / d - b / d, 0);
  }

  lemma MultipleDivides(n: nat, d: nat, size: nat)
    requires 0 < size && 0 < d && n % d == 0 && d % size == 0
    ensures n % size == 0
  {
    Remainder(n, d);
    Remainder(d, size);
    ProductsAssociate(n / d, d / size, size);
    QuotientIs(n, size, (n / d) * (d / size), 0);
  }

  // ---------------------------------------------------------------- a common divisor

  /** The chunk has a size that `d` divides, and elements whose size divides `d`. */
  predicate Fine(c: Chunk, d: nat)
    requires 0 < d
  {
    c.meta.chunkSize % d == 0 && d % c.meta.itemsize == 0
  }

  lemma {:induction false} ChunksFine(w: Weight, start: nat, bucketSize: nat, d: nat)
    requires 0 < d && 0 < bucketSize && start <= |w.bytes| && start % d == 0
    requires bucketSize % d == 0 && |w.bytes| % d == 0 && d % w.itemsize == 0
    ensures forall c <- ChunksFrom(w, start, bucketSize) :: Fine(c, d)
    decreases |w.bytes| - start
  {
    if start == |w.bytes| {
    } else {
      var size := Min(bucketSize, |w.bytes| - start);
      DifferenceDivides(|w.bytes|, start, d);
      SumDivides(start, size, d);
      ChunksFine(w, start + size, bucketSize, d);
    }
  }

  lemma {:induction false} AllChunksFine(weights: seq<Weight>, bucketSize: nat, d: nat)
    requires 0 < d && 0 < bucketSize && bucketSize % d == 0
    requires forall w <- weights :: |w.bytes| % d == 0 && d % w.itemsize == 0
    ensures forall c <- SplitAll(weights, bucketSize) :: Fine(c, d)
  {
    if weights == [] {
    } else {
      assert weights[|weights| - 1] in weights;
      AllChunksFine(weights[..|weights| - 1], bucketSize, d);
      ChunksFine(weights[|weights| - 1], 0, bucketSize, d);
    }
  }

  lemma {:induction false} FinePlaces(chunks: seq<Chunk>, used: nat, bucketSize: nat, d: nat)
    requires 0 < d && used % d == 0 && forall c <- chunks :: Fine(c, d)
    ensures AllViewable(Placed(chunks, used, bucketSize), bucketSize)
  {
    if chunks == [] {
    } else {
      var c := chunks[0];
      var start := if used + c.meta.chunkSize <= bucketSize then used else 0;
      assert c in chunks;
      MultipleDivides(start, d, c.meta.itemsize);
      SumDivides(start, c.meta.chunkSize, d);
      FinePlaces(chunks[1..], start + c.meta.chunkSize, bucketSize, d);
    }
  }

  /**
   A number that divides the bucket size and the bytes of every weight, and that every item size divides,
   is enough: it divides every place.
   */
  lemma {:induction false} CommonDivisor(weights: seq<Weight>, bucketSize: nat, d: nat)
    requires 0 < d && 0 < bucketSize && bucketSize % d == 0
    requires forall w <- weights :: |w.bytes| % d == 0 && d % w.itemsize == 0
    ensures WellPlaced(weights, bucketSize)
  {
    AllChunksFine(weights, bucketSize, d);
    FinePlaces(SplitAll(weights, bucketSize), 0, bucketSize, d);
  }

  // ---------------------------------------------------------------- one item size

  /** Weights with names of their own, all of one element type. */
  ghost predicate OfItemSize(weights: seq<Weight>, size: ItemSize) {
    DistinctNames(weights) && forall w <- weights :: w.Valid() && w.itemsize == size
  }

  lemma {:induction false} ChunksHaveBytes(w: Weight, start: nat, bucketSize: nat)
    requires w.Valid() && 0 < bucketSize && start <= |w.bytes|
    ensures forall c <- ChunksFrom(w, start, bucketSize) :: 0 < c.meta.Nbytes() == Numel(w.shape) * w.itemsize
    decreases |w.bytes| - start
  {
    if start == |w.bytes| {
    } else {
      ChunksHaveBytes(w, start + Min(bucketSize, |w.bytes| - start), bucketSize);
    }
  }

  lemma PositiveProduct(count: nat, size: nat)
    requires 0 < count * size
    ensures size <= count * size
  {
    if count > 0 {
      TimesMonotone(1, count, size);
    }
  }

  /** A weight with bytes is at least as large as one element. */
  lemma {:induction false} ChunksOfItems(weights: seq<Weight>, bucketSize: nat, size: ItemSize)
    requires 0 < bucketSize && forall w <- weights :: w.Valid() && w.itemsize == size
    ensures forall c <- SplitAll(weights, bucketSize) :: size <= c.meta.Nbytes()
  {
    if weights == [] {
    } else {
      var w := weights[|weights| - 1];
      assert w in weights;
      ChunksOfItems(weights[..|weights| - 1], bucketSize, size);
      ChunksHaveBytes(w, 0, bucketSize);
      forall c <- ChunksFrom(w, 0, bucketSize)
        ensures size <= c.meta.Nbytes()
      {
        PositiveProduct(Numel(w.shape), size);
      }
    }
  }

  lemma {:induction false} LargeViewable(chunks: seq<Chunk>, used: nat, bucketSize: nat)
    requires forall c <- chunks :: bucketSize < c.meta.Nbytes()
    ensures AllViewable(Placed(chunks, used, bucketSize), bucketSize)
  {
    if chunks == [] {
    } else {
      var size := chunks[0].meta.chunkSize;
      assert chunks[0] in chunks;
      LargeViewable(chunks[1..], (if used + size <= bucketSize then used else 0) + size, bucketSize);
    }
  }

  lemma OneItemSizePlaced(weights: seq<Weight>, bucketSize: nat, size: ItemSize)
    requires 0 < bucketSize && OfItemSize(weights, size) && (bucketSize % size == 0 || bucketSize < size)
    ensures WellPlaced(weights, bucketSize)
  {
    if bucketSize % size == 0 {
      forall w <- weights
        ensures |w.bytes| % size == 0
      {
        WholeItems(Numel(w.shape), size);
      }
      CommonDivisor(weights, bucketSize, size);
    } else {
      ChunksOfItems(weights, bucketSize, size);
      LargeViewable(SplitAll(weights, bucketSize), 0, bucketSize);
    }
  }

  lemma FirstPlaced(c: Chunk, behind: seq<Chunk>, used: nat, bucketSize: nat)
    requires c.meta.chunkSize <= bucketSize && 0 < c.meta.chunkSize && used in {0, bucketSize}
    ensures
      AllViewable(Placed([c] + behind, used, bucketSize), bucketSize) ==>
      AllViewable(Placed(behind, c.meta.chunkSize, bucketSize), bucketSize)
  {
    var placed := Placed([c] + behind, used, bucketSize);
    assert ([c] + behind)[1..] == behind;
    assert placed[1..] == Placed(behind, c.meta.chunkSize, bucketSize);
    hide Placed, Viewable;
    assert forall i :: 0 <= i < |placed[1..]| ==> placed[1..][i] == placed[i + 1];
  }

  /** The last chunk of a weight begins a bucket, and what follows is placed behind it. */
  lemma {:induction false} BehindLarge(
      w: Weight, start: nat, rest: seq<Chunk>, used: nat, bucketSize: nat, full: nat, left: nat)
    requires 0 < left <= bucketSize && |w.bytes| == start + Times(full, bucketSize) + left && used in {0, bucketSize}
    requires AllViewable(Placed(ChunksFrom(w, start, bucketSize) + rest, used, bucketSize), bucketSize)
    ensures AllViewable(Placed(rest, left, bucketSize), bucketSize)
    decreases full
  {
    var c := ChunkAt(w, start, bucketSize);
    var behind := ChunksFrom(w, start + c.meta.chunkSize, bucketSize) + rest;
    assert ChunksFrom(w, start, bucketSize) + rest == [c] + behind;
    FirstPlaced(c, behind, used, bucketSize);
    hide AllViewable, Placed;
    if full == 0 {
      assert behind == rest;
    } else {
      TimesNext(full - 1, bucketSize);
      BehindLarge(w, start + bucketSize, rest, bucketSize, bucketSize, full - 1, left);
    }
  }

  function ZeroWeight(name: string, count: nat, size: ItemSize): (w: Weight)
    ensures w.Valid()
  {
    assert Numel([count]) == count * Numel([count][1..]) == count;
    Weight(name, [count], size, seq(count * size, _ => 0))
  }

  /** A weight of a few elements more than fill some buckets, and one of a single element. */
  function OddWeights(bucketSize: nat, size: ItemSize): seq<Weight>
    requires bucketSize % size != 0
  {
    var full := (size - 1) / (bucketSize % size);
    [ZeroWeight("large", full * (bucketSize / size) + 1, size), ZeroWeight("small", 1, size)]
  }

  lemma LeftOver(full: nat, q: nat, r: nat, size: nat, left: nat)
    requires size == full * r + left
    ensures (full * q + 1) * size == full * (q * size + r) + left
  {
    Distributes(full * q, 1, size);
    ProductsAssociate(full, q, size);
    Distributes(q * size, r, full);
  }

  lemma AtLeastOnce(n: nat, size: nat)
    requires 0 < size <= n
    ensures size + n % size <= n
  {
    Remainder(n, size);
    if n / size == 0 {
    } else {
      TimesMonotone(1, n / size, size);
    }
  }

  /** How many bytes the first of them leaves in its last bucket. */
  lemma BytesLeft(bucketSize: nat, size: ItemSize) returns (full: nat, left: nat)
    requires size <= bucketSize && bucketSize % size != 0
    ensures |OddWeights(bucketSize, size)[0].bytes| == Times(full, bucketSize) + left
    ensures 0 < left <= bucketSize && left + size <= bucketSize && left % size != 0
  {
    var q, r := bucketSize / size, bucketSize % size;
    full, left := (size - 1) / r, (size - 1) % r + 1;
    Remainder(bucketSize, size);
    Remainder(size - 1, r);
    LeftOver(full, q, r, size, left);
    TimesIsProduct(full, bucketSize);
    AtLeastOnce(bucketSize, size);
    QuotientIs(left, size, 0, left);
    hide Numel;
  }

  lemma SplitTwo(a: Weight, b: Weight, bucketSize: nat)
    requires 0 < bucketSize
    ensures SplitAll([a, b], bucketSize) == ChunksFrom(a, 0, bucketSize) + ChunksFrom(b, 0, bucketSize)
  {
    assert [a, b][..1] == [a] && [a][..0] == [];
    assert SplitAll([a], bucketSize) == SplitAll([], bucketSize) + ChunksFrom(a, 0, bucketSize);
  }

  /** A single element lies well only behind as many bytes as some number of elements has. */
  lemma SmallMisplaced(name: string, size: ItemSize, left: nat, bucketSize: nat)
    requires left % size != 0 && left + size <= bucketSize
    ensures !AllViewable(Placed(ChunksFrom(ZeroWeight(name, 1, size), 0, bucketSize), left, bucketSize), bucketSize)
  {
    var small := ZeroWeight(name, 1, size);
    var c := ChunkAt(small, 0, bucketSize);
    assert small.Valid() && |small.bytes| == size;
    assert ChunksFrom(small, 0, bucketSize) == [c];
    var placed := Placed([c], left, bucketSize);
    assert placed[0] == PutAt(c, left);
    hide Placed;
  }

  lemma OddWeightsMisplaced(bucketSize: nat, size: ItemSize)
    requires size <= bucketSize && bucketSize % size != 0
    ensures OfItemSize(OddWeights(bucketSize, size), size) && !WellPlaced(OddWeights(bucketSize, size), bucketSize)
  {
    hide AllViewable, Placed, ChunksFrom, SplitAll, Numel;
    var weights := OddWeights(bucketSize, size);
    var full, left := BytesLeft(bucketSize, size);
    SplitTwo(weights[0], weights[1], bucketSize);
    SmallMisplaced("small", size, left, bucketSize);
    if WellPlaced(weights, bucketSize) {
      BehindLarge(weights[0], 0, ChunksFrom(weights[1], 0, bucketSize), 0, bucketSize, full, left);
    }
  }

  /**
   For weights of one element type the places are right whatever the weights are if and only if the item
   size divides the bucket size, or exceeds it.
   */
  lemma {:induction false} OneItemSizeExactly(bucketSize: nat, size: ItemSize)
    requires 0 < bucketSize
    ensures
      (forall weights: seq<Weight> :: OfItemSize(weights, size) ==> WellPlaced(weights, bucketSize)) <==>
      bucketSize % size == 0 || bucketSize < size
  {
    if bucketSize % size == 0 || bucketSize < size {
      forall weights: seq<Weight> | OfItemSize(weights, size)
        ensures WellPlaced(weights, bucketSize)
      {
        OneItemSizePlaced(weights, bucketSize, size);
      }
    } else {
      OddWeightsMisplaced(bucketSize, size);
    }
  }

  // ---------------------------------------------------------------- single inputs

  /** What a receiver makes of the weights. */
  function Transferred(weights: seq<Weight>, bucketSize: nat, memory: Memory): Result<seq<Weight>, MergeError>
    requires 0 < bucketSize && Pack(EMPTY, SplitAll(weights, bucketSize), bucketSize).Success?
    requires Legal(Pack(EMPTY, SplitAll(weights, bucketSize), bucketSize).value)
  {
    MergeAll(UnpackAll(Pack(EMPTY, SplitAll(weights, bucketSize), bucketSize).value), bucketSize, memory)
  }

  /**
   Two element types in a bucket of eight bytes: the weight of one two-byte element lies behind three
   bytes, and the receiver raises.
   */
  lemma {:induction false} MixedItemSizes(memory: Memory)
    ensures
      var weights := [ZeroWeight("a", 3, 1), ZeroWeight("b", 1, 2)];
      && Pack(EMPTY, SplitAll(weights, 8), 8).Success? && Legal(Pack(EMPTY, SplitAll(weights, 8), 8).value)
      && Transferred(weights, 8, memory) == Failure(MisalignedView)
  {
    hide Pack, Placed, AllViewable, MergeAll, UnpackAll, SplitAll;
    var a, b := ZeroWeight("a", 3, 1), ZeroWeight("b", 1, 2);
    PipelineRoundTrip([a, b], 8, memory);
    SplitTwo(a, b, 8);
    assert a.Valid() && |a.bytes| == 3 && ChunksFrom(a, 0, 8) == [ChunkAt(a, 0, 8)];
    FirstPlaced(ChunkAt(a, 0, 8), ChunksFrom(b, 0, 8), 0, 8);
    SmallMisplaced("b", 2, 3, 8);
  }

  /** One element type in a bucket of five bytes: six bytes, then two, and the two lie behind one byte. */
  lemma {:induction false} OddBucket(memory: Memory)
    ensures
      var weights := [ZeroWeight("large", 3, 2), ZeroWeight("small", 1, 2)];
      && Pack(EMPTY, SplitAll(weights, 5), 5).Success? && Legal(Pack(EMPTY, SplitAll(weights, 5), 5).value)
      && Transferred(weights, 5, memory) == Failure(MisalignedView)
  {
    hide Pack, Placed, AllViewable, MergeAll, UnpackAll, SplitAll;
    OddWeightsMisplaced(5, 2);
    PipelineRoundTrip(OddWeights(5, 2), 5, memory);
  }

  /** A weight without elements does not arrive. */
  lemma {:induction false} NoElements(memory: Memory)
    ensures
      var weights := [ZeroWeight("none", 0, 2)];
      && Pack(EMPTY, SplitAll(weights, 8), 8).Success? && Legal(Pack(EMPTY, SplitAll(weights, 8), 8).value)
      && Transferred(weights, 8, memory) == Success([])
  {
    hide Pack, MergeAll, UnpackAll;
    var w := ZeroWeight("none", 0, 2);
    assert w.Valid() && w.bytes == [];
    PipelineRoundTrip([w], 8, memory);
    OneItemSizePlaced([w], 8, 2);
    NonEmptyStep([], w);
    assert [] + [w] == [w];
  }
}
