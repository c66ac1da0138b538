/**
 The global numbers of transformer layers under pipeline parallelism (utils/megatron_utils.py). The
 layouts without a custom pipeline layout and without accounting for the embedding and the loss.
 */
module LayerOffsets {
  import opened Wrappers
  import opened Arithmetic
  import opened Permutations

  datatype Config = Config(numLayers: nat, stages: nat, virtual: Option<nat>, first: Option<nat>, last: Option<nat>)

  datatype OffsetError = StageMissing | DivisionByZero

  function OrZero(count: Option<nat>): nat {
    if count.Some? then count.value else 0
  }

  function MiddleStages(c: Config): int {
    c.stages - (if c.first.Some? then 1 else 0) - (if c.last.Some? then 1 else 0)
  }

  function MiddleLayers(c: Config): int {
    c.numLayers - OrZero(c.first) - OrZero(c.last)
  }

  function UnevenOffset(rank: nat, vpStage: Option<nat>, c: Config): Result<int, OffsetError> {
    if c.virtual.Some? then
      if vpStage.None? then Failure(StageMissing)
      else if c.virtual.value == 0 then Failure(DivisionByZero)
      else
        var vp := c.virtual.value;
        var firstChunk, lastChunk := OrZero(c.first) / vp, OrZero(c.last) / vp;
        var middleChunk := FloorDiv(MiddleLayers(c), vp);
        var total := firstChunk + middleChunk + lastChunk;
        if rank == 0 then Success(vpStage.value * total)
        else if MiddleStages(c) == 0 then Failure(DivisionByZero)
        else Success(vpStage.value * total + firstChunk + (rank - 1) * FloorDiv(middleChunk, MiddleStages(c)))
    else
      var perRank := if MiddleStages(c) > 0 then FloorDiv(MiddleLayers(c), MiddleStages(c)) else 0;
      var middleRank := if c.first.None? then rank else rank - 1;
      Success(if rank == 0 then 0 else middleRank * perRank + OrZero(c.first))
  }

  function EvenOffset(rank: nat, vpStage: Option<nat>, c: Config): Result<int, OffsetError>
    requires 0 < c.stages
  {
    var perRank := c.numLayers / c.stages;
    if c.virtual.Some? then
      if vpStage.None? then Failure(StageMissing)
      else if c.virtual.value == 0 then Failure(DivisionByZero)
      else Success(vpStage.value * (c.numLayers / c.virtual.value) + rank * (perRank / c.virtual.value))
    else Success(rank * perRank)
  }

  /** `get_transformer_layer_offset` */
  function LayerOffset(rank: nat, vpStage: Option<nat>, c: Config): Result<int, OffsetError> {
    if c.stages <= 1 then Success(0)
    else if c.first.Some? || c.last.Some? then UnevenOffset(rank, vpStage, c)
    else EvenOffset(rank, vpStage, c)
  }

  // ---------------------------------------------------------------- where the layers are

  function VirtualStages(c: Config): nat {
    if c.virtual.Some? then c.virtual.value else 1
  }

  predicate Even(c: Config) {
    c.stages <= 1 || (c.first.None? && c.last.None?)
  }

  /** The number of layers of a rank in one virtual stage. */
  function ChunkSize(c: Config, rank: nat): int
    requires 0 < c.stages && 0 < VirtualStages(c) && rank < c.stages
  {
    var vp := VirtualStages(c);
    if Even(c) then c.numLayers / c.stages / vp
    else if rank == 0 && c.first.Some? then c.first.value / vp
    else if rank == c.stages - 1 && c.last.Some? then c.last.value / vp
    else FloorDiv(MiddleLayers(c), vp) / MiddleStages(c)
  }

  function ChunkSizes(c: Config): (sizes: seq<int>)
    requires 0 < c.stages && 0 < VirtualStages(c)
    ensures |sizes| == c.stages
  {
    seq(c.stages, rank requires 0 <= rank < c.stages => ChunkSize(c, rank))
  }

  /** The layer counts divide: the chunks of all ranks and virtual stages make up the model. */
  predicate Divides(c: Config) {
    && 0 < c.stages && 0 < VirtualStages(c)
    && Total(ChunkSizes(c)) * VirtualStages(c) == c.numLayers
    && (!Even(c) ==>
          && OrZero(c.first) % VirtualStages(c) == 0 && OrZero(c.last) % VirtualStages(c) == 0
          && OrZero(c.first) + OrZero(c.last) <= c.numLayers)
  }

  /** Virtual stages come one after the other, and the ranks in order within each. */
  function ChunkStart(c: Config, stage: nat, rank: nat): int
    requires Divides(c) && rank < c.stages
  {
    stage * Total(ChunkSizes(c)) + Total(ChunkSizes(c)[..rank])
  }

  function StageArgument(c: Config, stage: nat): Option<nat> {
    if c.virtual.Some? then Some(stage) else None
  }

  ghost predicate OffsetsRight(c: Config)
    requires Divides(c)
  {
    forall stage: nat, rank: nat :: stage < VirtualStages(c) && rank < c.stages ==>
      LayerOffset(rank, StageArgument(c, stage), c) == Success(ChunkStart(c, stage, rank))
  }

  /** Interleaving asks for more than one rank and, when it is uneven, for a first-stage count and a middle stage. */
  predicate Supported(c: Config)
    requires Divides(c)
  {
    if c.stages == 1 then VirtualStages(c) == 1 || c.numLayers == 0
    else if Even(c) || c.virtual.None? then true
    else if c.first.Some? then MiddleStages(c) > 0
    else FloorDiv(MiddleLayers(c), VirtualStages(c)) / MiddleStages(c) == 0
  }

  lemma PrefixNext(sizes: seq<int>, n: nat)
    requires n < |sizes|
    ensures Total(sizes[..n + 1]) == Total(sizes[..n]) + sizes[n]
  {
    assert sizes[..n + 1] == sizes[..n] + [sizes[n]];
    SumConcat(sizes[..n], [sizes[n]], Self);
    assert SumBy([sizes[n]], Self) == sizes[n] + SumBy([sizes[n]][1..], Self);
  }

  lemma {:induction false} PrefixOfEqual(sizes: seq<int>, from: nat, to: nat, size: int)
    requires from <= to <= |sizes| && forall j :: from <= j < to ==> sizes[j] == size
    ensures Total(sizes[..to]) == Total(sizes[..from]) + (to - from) * size
  {
    if from == to {
    } else {
      PrefixOfEqual(sizes, from, to - 1, size);
      PrefixNext(sizes, to - 1);
      OneMore(to - 1 - from, size);
    }
  }

  lemma WholeSum(sizes: seq<int>)
    ensures Total(sizes[..|sizes|]) == Total(sizes)
  {
    assert sizes[..|sizes|] == sizes;
  }

  lemma {:induction false} EvenOffsets(c: Config, stage: nat, rank: nat)
    requires Divides(c) && Even(c) && 1 < c.stages && stage < VirtualStages(c) && rank < c.stages
    ensures LayerOffset(rank, StageArgument(c, stage), c) == Success(ChunkStart(c, stage, rank))
  {
    var sizes, vp := ChunkSizes(c), VirtualStages(c);
    PrefixOfEqual(sizes, 0, rank, c.numLayers / c.stages / vp);
    QuotientIs(c.numLayers, vp, Total(sizes), 0);
  }

  /** The size of a middle chunk, when there are middle stages. */
  function MiddleSize(c: Config): int
    requires 0 < VirtualStages(c)
  {
    if MiddleStages(c) == 0 then 0 else FloorDiv(MiddleLayers(c), VirtualStages(c)) / MiddleStages(c)
  }

  lemma UnevenPrefix(c: Config, rank: nat)
    requires Divides(c) && !Even(c) && 1 <= rank < c.stages
    ensures Total(ChunkSizes(c)[..rank]) ==
      if c.first.Some? then c.first.value / VirtualStages(c) + (rank - 1) * MiddleSize(c) else rank * MiddleSize(c)
  {
    var sizes := ChunkSizes(c);
    PrefixNext(sizes, 0);
    if c.first.Some? {
      PrefixOfEqual(sizes, 1, rank, MiddleSize(c));
    } else {
      PrefixOfEqual(sizes, 0, rank, MiddleSize(c));
    }
  }

  lemma Spread3(a: int, b: int, c: int, k: int)
    ensures (a + b + c) * k == a * k + b * k + c * k
  {
  }

  lemma UnevenSum(c: Config)
    requires Divides(c) && !Even(c)
    ensures
      var vp := VirtualStages(c);
      && Total(ChunkSizes(c)) == OrZero(c.first) / vp + MiddleStages(c) * MiddleSize(c) + OrZero(c.last) / vp
      && FloorDiv(MiddleLayers(c), vp) == MiddleStages(c) * MiddleSize(c)
  {
    var sizes, vp, last := ChunkSizes(c), VirtualStages(c), c.stages - 1;
    UnevenPrefix(c, last);
    PrefixNext(sizes, last);
    WholeSum(sizes);
    OneMore(last - 1, MiddleSize(c));
    OneMore(last, MiddleSize(c));
    Remainder(OrZero(c.first), vp);
    Remainder(OrZero(c.last), vp);
    var middle := MiddleStages(c) * MiddleSize(c);
    Spread3(OrZero(c.first) / vp, middle, OrZero(c.last) / vp, vp);
    QuotientIs(MiddleLayers(c), vp, middle, 0);
  }

  lemma NoLayers()
    ensures Total([]) == 0
  {
  }

  lemma MiddleShare(c: Config)
    requires 0 < VirtualStages(c) && 1 < c.stages
    ensures MiddleStages(c) != 0 ==> FloorDiv(MiddleStages(c) * MiddleSize(c), MiddleStages(c)) == MiddleSize(c)
  {
    if MiddleStages(c) != 0 {
      QuotientIs(MiddleStages(c) * MiddleSize(c), MiddleStages(c), MiddleSize(c), 0);
    }
  }

  lemma InterleavedOffsets(c: Config, stage: nat, rank: nat)
    requires Divides(c) && !Even(c) && c.virtual.Some? && stage < VirtualStages(c) && rank < c.stages
    ensures
      var offset := LayerOffset(rank, Some(stage), c);
      if rank == 0 then offset == Success(ChunkStart(c, stage, 0))
      else if MiddleStages(c) == 0 then offset.Failure?
      else offset == Success(ChunkStart(c, stage, rank) - if c.first.None? then MiddleSize(c) else 0)
  {
    hide ChunkSizes, Divides, Total, FloorDiv;
    UnevenSum(c);
    NoLayers();
    MiddleShare(c);
    if rank > 0 {
      UnevenPrefix(c, rank);
      OneMore(rank - 1, MiddleSize(c));
    }
  }

  lemma UninterleavedOffsets(c: Config, rank: nat)
    requires Divides(c) && !Even(c) && c.virtual.None? && rank < c.stages
    ensures LayerOffset(rank, None, c) == Success(ChunkStart(c, 0, rank))
  {
    hide ChunkSizes, Divides, Total;
    UnevenSum(c);
    NoLayers();
    if rank > 0 {
      UnevenPrefix(c, rank);
      OneMore(rank - 1, MiddleSize(c));
    }
    MiddleShare(c);
  }

  /** What the offset of a rank but the first is missing when there is no first-stage count. */
  lemma {:induction false} UnevenOffsets(c: Config, stage: nat, rank: nat)
    requires Divides(c) && !Even(c) && stage < VirtualStages(c) && rank < c.stages
    ensures
      var offset := LayerOffset(rank, StageArgument(c, stage), c);
      if rank == 0 then offset == Success(ChunkStart(c, stage, 0))
      else if c.virtual.None? then offset == Success(ChunkStart(c, stage, rank))
      else if MiddleStages(c) == 0 then offset.Failure?
      else offset == Success(ChunkStart(c, stage, rank) - if c.first.None? then MiddleSize(c) else 0)
  {
    if c.virtual.Some? {
      InterleavedOffsets(c, stage, rank);
    } else {
      UninterleavedOffsets(c, rank);
    }
  }

  lemma ZeroFactor(a: int, b: nat)
    requires a * b == 0 && 0 < b
    ensures a == 0
  {
    if a > 0 { TimesMonotone(1, a, b); } else if a < 0 { TimesMonotone(a, -1, b); }
  }

  lemma SingleRank(c: Config)
    requires Divides(c) && c.stages == 1
    ensures OffsetsRight(c) <==> Supported(c)
  {
    var sizes, vp := ChunkSizes(c), VirtualStages(c);
    assert sizes[..0] == [];
    forall stage: nat, rank: nat | stage < vp && rank < 1
      ensures ChunkStart(c, stage, rank) == stage * Total(sizes)
    {
    }
    if c.numLayers == 0 {
      ZeroFactor(Total(sizes), vp);
    }
    if OffsetsRight(c) && vp > 1 {
      assert LayerOffset(0, StageArgument(c, 1), c) == Success(ChunkStart(c, 1, 0));
      assert Total(sizes) == 0;
    }
  }

  /** Layouts whose counts divide get the right offsets exactly when they are supported. */
  lemma {:induction false} OffsetsRightExactly(c: Config)
    requires Divides(c)
    ensures OffsetsRight(c) <==> Supported(c)
  {
    if c.stages == 1 {
      SingleRank(c);
    } else if Even(c) {
      forall stage: nat, rank: nat | stage < VirtualStages(c) && rank < c.stages
        ensures LayerOffset(rank, StageArgument(c, stage), c) == Success(ChunkStart(c, stage, rank))
      {
        EvenOffsets(c, stage, rank);
      }
    } else {
      forall stage: nat, rank: nat | stage < VirtualStages(c) && rank < c.stages
        ensures Supported(c) ==> LayerOffset(rank, StageArgument(c, stage), c) == Success(ChunkStart(c, stage, rank))
      {
        UnevenOffsets(c, stage, rank);
      }
      UnevenOffsets(c, 0, 1);
      if OffsetsRight(c) {
        assert LayerOffset(1, StageArgument(c, 0), c) == Success(ChunkStart(c, 0, 1));
      }
    }
  }

  /** An uneven interleaved layout without a first-stage count gives two ranks the same layers. */
  lemma {:induction false} RanksCollide(c: Config)
    requires Divides(c) && 1 < c.stages && c.virtual.Some? && c.first.None? && c.last.Some?
    requires 0 < c.numLayers - c.last.value
    ensures !OffsetsRight(c)
    ensures LayerOffset(0, Some(0), c) == LayerOffset(1, Some(0), c)
    ensures 0 < ChunkSize(c, 0)
  {
    UnevenSum(c);
    OffsetsRightExactly(c);
    var m := MiddleSize(c);
    QuotientIs(MiddleLayers(c), VirtualStages(c), MiddleStages(c) * m, 0) by {
      Remainder(OrZero(c.last), VirtualStages(c));
      Spread3(0, MiddleStages(c) * m, OrZero(c.last) / VirtualStages(c), VirtualStages(c));
    }
    if m <= 0 {
      TimesMonotone(m, 0, MiddleStages(c));
      TimesMonotone(MiddleStages(c) * m, 0, VirtualStages(c));
    }
  }

  /** Eight layers on two ranks with two virtual stages, four of the layers on the last rank. */
  lemma {:induction false} CollisionOfEight()
    ensures
      var c := Config(8, 2, Some(2), None, Some(4));
      && Divides(c) && ChunkSize(c, 0) == ChunkSize(c, 1) == 2 && ChunkStart(c, 0, 1) == 2
      && LayerOffset(0, Some(0), c) == LayerOffset(1, Some(0), c) == Success(0)
  {
    var sizes := ChunkSizes(Config(8, 2, Some(2), None, Some(4)));
    assert sizes[..0] == [];
    PrefixNext(sizes, 0);
    PrefixNext(sizes, 1);
    WholeSum(sizes);
  }

  // ---------------------------------------------------------------- every layer once

  /** A layer as the ranks see it. */
  datatype Place = Place(stage: nat, rank: nat, local: nat)

  predicate IsPlace(p: Place, c: Config)
    requires Divides(c)
  {
    p.stage < VirtualStages(c) && p.rank < c.stages && p.local < ChunkSize(c, p.rank)
  }

  /** The rank whose chunk holds position `g` of a virtual stage. */
  function RankOf(sizes: seq<int>, g: int): (rank: nat)
    requires 0 <= g < Total(sizes)
    ensures rank < |sizes| && Total(sizes[..rank]) <= g < Total(sizes[..rank]) + sizes[rank]
  {
    var front := sizes[..|sizes| - 1];
    PrefixNext(sizes, |front|);
    WholeSum(sizes);
    if g >= Total(front) then |front|
    else
      var rank := RankOf(front, g);
      assert front[..rank] == sizes[..rank];
      rank
  }

  lemma TotalPositive(total: int, vp: nat, layer: nat)
    requires layer < total * vp
    ensures 0 < total
  {
    if total <= 0 { TimesMonotone(total, 0, vp); }
  }

  lemma StageBelow(stage: int, total: nat, vp: nat, layer: nat)
    requires 0 < total && stage * total <= layer < total * vp && layer < stage * total + total
    ensures 0 <= stage < vp
  {
    if stage >= vp {
      TimesMonotone(vp, stage, total);
    } else if stage < 0 {
      TimesMonotone(stage, -1, total);
    }
  }

  function PlaceOf(c: Config, layer: nat): (p: Place)
    requires Divides(c) && layer < c.numLayers
    ensures IsPlace(p, c) && ChunkStart(c, p.stage, p.rank) + p.local == layer
  {
    var sizes, total, vp := ChunkSizes(c), Total(ChunkSizes(c)), VirtualStages(c);
    TotalPositive(total, vp, layer);
    Remainder(layer, total);
    var stage, g := layer / total, layer % total;
    StageBelow(stage, total, vp, layer);
    var rank := RankOf(sizes, g);
    Place(stage, rank, g - Total(sizes[..rank]))
  }

  lemma {:induction false} ChunksOrdered(sizes: seq<int>, p: nat, q: nat)
    requires p < q <= |sizes| && forall i :: 0 <= i < |sizes| ==> 0 <= sizes[i]
    ensures Total(sizes[..p]) + sizes[p] <= Total(sizes[..q])
  {
    PrefixNext(sizes, q - 1);
    if p == q - 1 {
    } else {
      ChunksOrdered(sizes, p, q - 1);
    }
  }

  lemma NaturalQuotient(n: nat, k: nat)
    requires 0 < k
    ensures 0 <= n / k
  {
  }

  lemma SizeNatural(c: Config, rank: nat)
    requires Divides(c) && rank < c.stages
    ensures 0 <= ChunkSize(c, rank)
  {
    var vp := VirtualStages(c);
    if Even(c) {
      NaturalQuotient(c.numLayers, c.stages);
      NaturalQuotient(c.numLayers / c.stages, vp);
    } else {
      NaturalQuotient(OrZero(c.first), vp);
      NaturalQuotient(OrZero(c.last), vp);
      NaturalQuotient(MiddleLayers(c), vp);
      if MiddleStages(c) != 0 {
        NaturalQuotient(FloorDiv(MiddleLayers(c), vp), MiddleStages(c));
      }
    }
  }

  lemma TotalOfNone(sizes: seq<int>)
    ensures Total(sizes[..0]) == 0
  {
    assert sizes[..0] == [];
  }

  /** Two places never get the same number, and every place gets the number of a layer. */
  lemma RankOfIs(sizes: seq<int>, rank: nat, g: int)
    requires rank < |sizes| && forall i :: 0 <= i < |sizes| ==> 0 <= sizes[i]
    requires Total(sizes[..rank]) <= g < Total(sizes[..rank]) + sizes[rank]
    ensures 0 <= g < Total(sizes) && RankOf(sizes, g) == rank
  {
    hide RankOf, Total;
    TotalOfNone(sizes);
    ChunksOrdered(sizes, rank, |sizes|);
    WholeSum(sizes);
    if rank > 0 { ChunksOrdered(sizes, 0, rank); }
    var other := RankOf(sizes, g);
    if other < rank {
      ChunksOrdered(sizes, other, rank);
    } else if rank < other {
      ChunksOrdered(sizes, rank, other);
    }
  }

  lemma PlacesDiffer(c: Config, p: Place)
    requires Divides(c) && IsPlace(p, c)
    ensures 0 <= ChunkStart(c, p.stage, p.rank) + p.local < c.numLayers
    ensures PlaceOf(c, ChunkStart(c, p.stage, p.rank) + p.local) == p
  {
    hide RankOf, Total;
    var sizes, total, vp := ChunkSizes(c), Total(ChunkSizes(c)), VirtualStages(c);
    forall i | 0 <= i < c.stages
      ensures 0 <= sizes[i]
    {
      SizeNatural(c, i);
    }
    var g := Total(sizes[..p.rank]) + p.local;
    RankOfIs(sizes, p.rank, g);
    TimesMonotone(p.stage + 1, vp, total);
    TimesMonotone(0, p.stage, total);
    OneMore(p.stage, total);
    QuotientIs(p.stage * total + g, total, p.stage, g);
  }

  /**
   In a supported layout whose counts divide, offset plus local number is a bijection between the
   places and the layers 0 .. numLayers - 1.
   */
  lemma {:induction false} LayersBijection(c: Config)
    requires Divides(c) && Supported(c)
    ensures forall p: Place :: IsPlace(p, c) ==>
      var offset := LayerOffset(p.rank, StageArgument(c, p.stage), c);
      offset.Success? && 0 <= offset.value + p.local < c.numLayers && PlaceOf(c, offset.value + p.local) == p
    ensures forall layer: nat :: layer < c.numLayers ==>
      var p := PlaceOf(c, layer);
      IsPlace(p, c) && LayerOffset(p.rank, StageArgument(c, p.stage), c) == Success(layer - p.local)
  {
    OffsetsRightExactly(c);
    forall p: Place | IsPlace(p, c)
      ensures
        var offset := LayerOffset(p.rank, StageArgument(c, p.stage), c);
        offset.Success? && 0 <= offset.value + p.local < c.numLayers && PlaceOf(c, offset.value + p.local) == p
    {
      PlacesDiffer(c, p);
    }
  }

  /** The calls that raise: no virtual stage where one is needed, and the two divisors that can be zero. */
  lemma {:induction false} OffsetRefused(rank: nat, vpStage: Option<nat>, c: Config)
    ensures LayerOffset(rank, vpStage, c) == Failure(StageMissing) <==> 1 < c.stages && c.virtual.Some? && vpStage.None?
    ensures LayerOffset(rank, vpStage, c) == Failure(DivisionByZero) <==>
      1 < c.stages && c.virtual.Some? && vpStage.Some? &&
      (c.virtual.value == 0 || (0 < rank && c.stages == 2 && c.first.Some? && c.last.Some?))
  {
  }

  /** `q` is `n` divided by `k`, rounded down. */
  predicate Floors(q: int, n: int, k: nat) {
    q * k <= n < q * k + k
  }

  lemma FloorIs(q: int, n: int, k: nat)
    requires Floors(q, n, k)
    ensures 0 < k && FloorDiv(n, k) == n / k == q
  {
    QuotientIs(n, k, q, n - q * k);
  }

  lemma NotMore(a: int, q: int, s: nat)
    requires a * s < q * s + s
    ensures a <= q
  {
    if q < a {
      OneMore(q, s);
      TimesMonotone(q + 1, a, s);
    }
  }

  lemma Rearranged(b: int, s: nat, vp: nat)
    ensures b * (s * vp) == (b * vp) * s && (b * vp + vp) * s == b * (s * vp) + s * vp
  {
  }

  lemma ShareOfShare(n: int, s: nat, vp: nat, b: int)
    requires 0 < s && Floors(b, n, s * vp)
    ensures Floors(b, n / s, vp)
  {
    Remainder(n, s);
    var q := n / s;
    Rearranged(b, s, vp);
    NotMore(b * vp, q, s);
    if q >= b * vp + vp {
      TimesMonotone(b * vp + vp, q, s);
      assert false;
    }
  }

  /** Without uneven ends, for layers that need not divide: a virtual stage is a share, and a rank a share of a share. */
  lemma {:induction false} EvenShares(c: Config, rank: nat, stage: nat, a: nat, b: nat)
    requires 1 < c.stages && Even(c) && 0 < VirtualStages(c)
    requires Floors(a, c.numLayers, VirtualStages(c)) && Floors(b, c.numLayers, c.stages * VirtualStages(c))
    ensures LayerOffset(rank, StageArgument(c, stage), c)
         == Success((if c.virtual.Some? then stage * a else 0) + rank * b)
  {
    FloorIs(a, c.numLayers, VirtualStages(c));
    ShareOfShare(c.numLayers, c.stages, VirtualStages(c), b);
    FloorIs(b, c.numLayers / c.stages, VirtualStages(c));
  }

  /**
   With uneven ends: the stages in front count their first, middle and last chunks, and the ranks in front
   of the same stage the first chunk and `b` layers for every rank but the first.
   */
  lemma {:induction false} UnevenShares(c: Config, rank: nat, stage: nat, first: nat, middle: int, last: nat, b: int)
    requires 1 < c.stages && !Even(c) && c.virtual.Some? && 0 < c.virtual.value
    requires Floors(first, OrZero(c.first), c.virtual.value) && Floors(last, OrZero(c.last), c.virtual.value)
    requires Floors(middle, MiddleLayers(c), c.virtual.value)
    requires 0 < rank ==> 0 < MiddleStages(c) && Floors(b, middle, MiddleStages(c))
    ensures LayerOffset(rank, Some(stage), c)
         == Success(stage * (first + middle + last) + if rank == 0 then 0 else first + (rank - 1) * b)
  {
    FloorIs(first, OrZero(c.first), c.virtual.value);
    FloorIs(last, OrZero(c.last), c.virtual.value);
    FloorIs(middle, MiddleLayers(c), c.virtual.value);
    if 0 < rank {
      FloorIs(b, middle, MiddleStages(c));
    }
  }
}
