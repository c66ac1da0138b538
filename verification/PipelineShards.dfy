/**
 The search for the pipeline sharding of a checkpoint that is to be merged, and the numbering of its
 layers (model_merger/megatron_model_merger.py).
 */
module PipelineShards {
  import opened Wrappers
  import opened Arithmetic
  import opened Permutations
  import opened LayerOffsets

  datatype ShardError = TooFewLayers | NoStages | NoStrategy

  /** A sharding with its distance from an even one. */
  datatype Strategy = Strategy(shards: seq<int>, diff: int)

  function Repeat(n: int, count: nat): (r: seq<int>)
    ensures |r| == count && forall i :: 0 <= i < count ==> r[i] == n
  {
    seq(count, i => n)
  }

  function FirstLayers(layers: int, stages: int, middle: int): int {
    (layers - middle * (stages - 2)) / 2
  }

  function LastLayers(layers: int, stages: int, middle: int): int {
    layers - middle * (stages - 2) - FirstLayers(layers, stages, middle)
  }

  function Abs(n: int): int {
    if n < 0 then -n else n
  }

  /** `middle` layers on every rank but the first and the last, which share the rest. */
  function StrategyFor(layers: int, stages: int, middle: int): Strategy
    requires 2 <= stages
  {
    var first := FirstLayers(layers, stages, middle);
    Strategy([first] + Repeat(middle, stages - 2) + [LastLayers(layers, stages, middle)], Abs(first - middle))
  }

  predicate Fits(layers: int, stages: int, middle: int) {
    && 0 < FirstLayers(layers, stages, middle) <= middle
    && 0 < LastLayers(layers, stages, middle) <= middle
  }

  function Strategies(layers: int, stages: int, n: nat): seq<Strategy>
    requires 2 <= stages
  {
    if n == 0 then []
    else
      Strategies(layers, stages, n - 1) +
      if Fits(layers, stages, n - 1) then [StrategyFor(layers, stages, n - 1)] else []
  }

  predicate MoreEven(a: Strategy, b: Strategy) {
    a.diff < b.diff
  }

  /** What the search finds: as even a sharding as there is, if there is any. */
  function Shards(layers: int, stages: int): Result<seq<int>, ShardError> {
    if layers < stages then Failure(TooFewLayers)
    else if stages < 1 then Failure(NoStages)
    else if stages == 1 then Success([layers])
    else if stages == 2 then Success([layers / 2, layers - layers / 2])
    else
      var middle := CeilDiv(layers, stages);
      if middle * (stages - 2) <= layers - 2 then Success(StrategyFor(layers, stages, middle).shards)
      else Failure(NoStrategy)
  }

  // ---------------------------------------------------------------- the search

  /** The larger the middle shards, the less even the sharding. */
  lemma DiffGrows(layers: int, stages: int, a: int, b: int)
    requires 3 <= stages && a < b && Fits(layers, stages, a) && Fits(layers, stages, b)
    ensures StrategyFor(layers, stages, a).diff < StrategyFor(layers, stages, b).diff
  {
    TimesMonotone(a, b, stages - 2);
  }

  lemma {:induction false} StrategiesAre(layers: int, stages: int, n: nat)
    requires 3 <= stages
    ensures forall s <- Strategies(layers, stages, n) ::
      exists m :: 0 <= m < n && Fits(layers, stages, m) && s == StrategyFor(layers, stages, m)
    ensures forall m :: 0 <= m < n && Fits(layers, stages, m) ==>
      StrategyFor(layers, stages, m) in Strategies(layers, stages, n)
  {
    hide Fits, StrategyFor;
    if n == 0 {
    } else {
      StrategiesAre(layers, stages, n - 1);
    }
  }

  function Evenness(s: Strategy): int {
    -s.diff
  }

  lemma HeadIsEvenest(all: seq<Strategy>)
    ensures SortBy(all, MoreEven) == [] <==> all == []
    ensures all != [] ==>
      SortBy(all, MoreEven)[0] in all && forall s <- all :: SortBy(all, MoreEven)[0].diff <= s.diff
  {
    var found := SortBy(all, MoreEven);
    SortPermutes(all, MoreEven);
    SortSorts(all, MoreEven, Evenness);
    hide SortBy;
    if all != [] {
      assert found[0] in multiset(all);
      forall s <- all
        ensures found[0].diff <= s.diff
      {
        assert s in multiset(found);
        var i :| 0 <= i < |found| && found[i] == s;
        assert Evenness(found[0]) >= Evenness(found[i]);
      }
    }
  }

  lemma FitsExactly(layers: int, stages: int, middle: int)
    requires 3 <= stages
    ensures Fits(layers, stages, middle) <==> middle * (stages - 2) <= layers - 2 && layers <= middle * stages
  {
    var rest := layers - middle * (stages - 2);
    assert middle * stages == middle * (stages - 2) + 2 * middle;
    assert FirstLayers(layers, stages, middle) == rest / 2;
  }

  lemma MiddleBelow(layers: int, stages: int, middle: int)
    requires 3 <= stages <= layers && middle * (stages - 2) <= layers - 2 && layers <= middle * stages
    ensures 0 <= middle < layers
  {
    if layers <= middle {
      TimesMonotone(1, stages - 2, middle);
    }
  }

  /** No smaller middle shards fit than the mean, rounded up; if they do not fit, none do. */
  lemma LeastFits(layers: int, stages: int, m: int)
    requires 3 <= stages <= layers
    ensures
      var middle := CeilDiv(layers, stages);
      && (Fits(layers, stages, middle) <==> middle * (stages - 2) <= layers - 2)
      && (Fits(layers, stages, middle) ==> 0 <= middle < layers)
      && (Fits(layers, stages, m) ==> middle <= m && Fits(layers, stages, middle))
  {
    var middle := CeilDiv(layers, stages);
    hide CeilDiv, Fits;
    CeilDivIsLeast(layers, stages, middle);
    FitsExactly(layers, stages, middle);
    if Fits(layers, stages, middle) { MiddleBelow(layers, stages, middle); }
    if Fits(layers, stages, m) {
      CeilDivIsLeast(layers, stages, m);
      FitsExactly(layers, stages, m);
      TimesMonotone(middle, m, stages - 2);
    }
  }

  lemma NotBehind(layers: int, stages: int, a: int, b: int)
    requires 3 <= stages && a <= b && Fits(layers, stages, a) && Fits(layers, stages, b)
    requires StrategyFor(layers, stages, b).diff <= StrategyFor(layers, stages, a).diff
    ensures a == b
  {
    hide Fits, StrategyFor;
    if a < b {
      DiffGrows(layers, stages, a, b);
    }
  }

  lemma {:induction false} BestStrategy(layers: int, stages: int)
    requires 3 <= stages <= layers
    ensures
      var found, middle := SortBy(Strategies(layers, stages, layers), MoreEven), CeilDiv(layers, stages);
      if middle * (stages - 2) <= layers - 2 then found != [] && found[0] == StrategyFor(layers, stages, middle)
      else found == []
  {
    var all, middle := Strategies(layers, stages, layers), CeilDiv(layers, stages);
    hide SortBy, Strategies, CeilDiv, StrategyFor, Fits;
    HeadIsEvenest(all);
    StrategiesAre(layers, stages, layers);
    LeastFits(layers, stages, middle);
    if all != [] {
      var head := SortBy(all, MoreEven)[0];
      var m :| 0 <= m < layers && Fits(layers, stages, m) && head == StrategyFor(layers, stages, m);
      LeastFits(layers, stages, m);
      NotBehind(layers, stages, middle, m);
    }
  }

  /** `get_dynamic_pipeline_shards`: collects all strategies and takes the first of the sorted list. */
  method GetDynamicPipelineShards(layers: int, stages: int) returns (r: Result<seq<int>, ShardError>)
    ensures r == Shards(layers, stages)
  {
    if layers < stages { return Failure(TooFewLayers); }
    if stages < 1 { return Failure(NoStages); }
    if stages == 1 { return Success([layers]); }
    if stages == 2 { return Success([layers / 2, layers - layers / 2]); }
    var middleSize := stages - 2;
    var strategies := [];
    for middle := 0 to layers
      invariant strategies == Strategies(layers, stages, middle)
    {
      var firstLast := layers - middle * middleSize;
      var first := firstLast / 2;
      var last := firstLast - firstLast / 2;
      if 0 < first <= middle && 0 < last <= middle {
        strategies := strategies + [Strategy([first] + Repeat(middle, middleSize) + [last], Abs(first - middle))];
      }
    }
    BestStrategy(layers, stages);
    SortPermutes(strategies, MoreEven);
    if strategies == [] { return Failure(NoStrategy); }
    return Success(SortBy(strategies, MoreEven)[0].shards);
  }

  // ---------------------------------------------------------------- what the sharding is good for

  lemma WidePrefix(first: int, middle: int, count: nat, last: int, rank: nat)
    requires 1 <= rank <= count + 1
    ensures
      var shards := [first] + Repeat(middle, count) + [last];
      Total(shards[..rank]) == first + (rank - 1) * middle && Total(shards) == first + count * middle + last
  {
    var shards := [first] + Repeat(middle, count) + [last];
    assert shards[..0] == [];
    PrefixNext(shards, 0);
    PrefixOfEqual(shards, 1, rank, middle);
    PrefixOfEqual(shards, 1, count + 1, middle);
    PrefixNext(shards, count + 1);
    WholeSum(shards);
  }

  lemma OneSum(n: int)
    ensures Total([n]) == n
  {
    assert SumBy([n], Self) == n + SumBy([n][1..], Self);
  }

  lemma FirstAndLast(layers: int, stages: int, middle: int)
    ensures FirstLayers(layers, stages, middle) + (stages - 2) * middle + LastLayers(layers, stages, middle) == layers
  {
  }

  /** The shards are positive, as many as there are ranks, and make up the model; the middle ones are the largest. */
  lemma {:induction false} ShardsAddUp(layers: int, stages: int)
    requires Shards(layers, stages).Success?
    ensures
      var shards := Shards(layers, stages).value;
      && |shards| == stages && Total(shards) == layers && 1 <= stages <= layers
      && (forall i :: 0 <= i < stages ==> 0 < shards[i])
      && (3 <= stages ==> forall i :: 0 <= i < stages ==> shards[i] <= CeilDiv(layers, stages))
  {
    hide CeilDiv, Total, FirstLayers, LastLayers;
    if stages == 1 {
      OneSum(layers);
    } else if stages == 2 {
      WidePrefix(layers / 2, 0, 0, layers - layers / 2, 1);
      assert [layers / 2] + Repeat(0, 0) + [layers - layers / 2] == [layers / 2, layers - layers / 2];
    } else {
      var middle := CeilDiv(layers, stages);
      LeastFits(layers, stages, middle);
      FirstAndLast(layers, stages, middle);
      WidePrefix(FirstLayers(layers, stages, middle), middle, stages - 2, LastLayers(layers, stages, middle), 1);
    }
  }

  /** The layout that the merger configures from its shards. */
  function MergerConfig(layers: nat, shards: seq<int>): Config
    requires shards != [] && forall i :: 0 <= i < |shards| ==> 0 < shards[i]
  {
    Config(layers, |shards|, None,
      if |shards| > 1 then Some(shards[0]) else None,
      if |shards| > 2 then Some(shards[|shards| - 1]) else None)
  }

  lemma WideOffset(layers: nat, first: int, middle: nat, last: int, stages: nat, rank: nat)
    requires 3 <= stages && 1 <= rank < stages && 0 < first && 0 < middle && 0 < last
    requires layers == first + (stages - 2) * middle + last
    ensures
      var shards := [first] + Repeat(middle, stages - 2) + [last];
      && (forall i :: 0 <= i < |shards| ==> 0 < shards[i])
      && LayerOffset(rank, None, MergerConfig(layers, shards)) == Success(Total(shards[..rank]))
  {
    hide Total;
    WidePrefix(first, middle, stages - 2, last, rank);
    QuotientIs((stages - 2) * middle, stages - 2, middle, 0);
  }

  lemma FirstOffset(layers: nat, shards: seq<int>)
    requires shards != [] && forall i :: 0 <= i < |shards| ==> 0 < shards[i]
    ensures LayerOffset(0, None, MergerConfig(layers, shards)) == Success(0) && Total(shards[..0]) == 0
  {
  }

  lemma SecondOffset(layers: nat, shards: seq<int>)
    requires |shards| == 2 && 0 < shards[0] && 0 < shards[1] && shards[0] + shards[1] == layers
    ensures LayerOffset(1, None, MergerConfig(layers, shards)) == Success(Total(shards[..1]))
  {
    PrefixNext(shards, 0);
    assert shards[..0] == [];
  }

  /** The cumulated shards are the layer offsets of that layout, rank by rank. */
  lemma {:induction false} ShardsAreOffsets(layers: nat, stages: int, rank: nat)
    requires Shards(layers, stages).Success? && rank < stages
    ensures
      var shards := Shards(layers, stages).value;
      && shards != [] && (forall i :: 0 <= i < |shards| ==> 0 < shards[i]) && rank < |shards|
      && LayerOffset(rank, None, MergerConfig(layers, shards)) == Success(Total(shards[..rank]))
  {
    hide CeilDiv, Total, LayerOffset, MergerConfig, FirstLayers, LastLayers;
    ShardsAddUp(layers, stages);
    var shards := Shards(layers, stages).value;
    if rank == 0 {
      FirstOffset(layers, shards);
    } else if stages == 2 {
      SecondOffset(layers, shards);
    } else {
      var middle := CeilDiv(layers, stages);
      LeastFits(layers, stages, middle);
      FirstAndLast(layers, stages, middle);
      WideOffset(layers, FirstLayers(layers, stages, middle), middle, LastLayers(layers, stages, middle), stages, rank);
    }
  }

  /** The condition is not empty: five layers have no sharding on four ranks. */
  lemma {:induction false} NoShardingOfFive()
    ensures Shards(5, 4) == Failure(NoStrategy)
  {
  }

  /**
   The first and the last rank share evenly what the ranks between them leave, the last one getting the odd
   layer; the ranks between them get the rounded-up mean.
   */
  lemma {:induction false} EndsShare(layers: int, stages: int)
    requires Shards(layers, stages).Success? && 2 <= stages
    ensures
      var shards := Shards(layers, stages).value;
      && |shards| == stages && shards[0] <= shards[stages - 1] <= shards[0] + 1
      && forall i :: 0 < i < stages - 1 ==> shards[i] == CeilDiv(layers, stages)
  {
    hide CeilDiv;
  }

  /** The middle ranks get `middle` layers each, and the two at the ends no more than that and at least one. */
  ghost predicate IsSharding(layers: int, stages: int, first: int, middle: int, last: int) {
    0 < first <= middle && 0 < last <= middle && first + (stages - 2) * middle + last == layers
  }

  lemma ShardingFits(layers: int, stages: int, first: int, middle: int, last: int)
    requires 3 <= stages && IsSharding(layers, stages, first, middle, last)
    ensures Fits(layers, stages, middle)
  {
    FitsExactly(layers, stages, middle);
    assert middle * stages == (stages - 2) * middle + 2 * middle;
  }

  /** The call is refused exactly for too few layers, no stages, or when there is no sharding of that form. */
  lemma {:induction false} ShardsRefused(layers: int, stages: int)
    ensures Shards(layers, stages) == Failure(TooFewLayers) <==> layers < stages
    ensures Shards(layers, stages) == Failure(NoStages) <==> stages <= layers && stages < 1
    ensures Shards(layers, stages) == Failure(NoStrategy) <==>
      3 <= stages <= layers && forall first, middle, last :: !IsSharding(layers, stages, first, middle, last)
  {
    if 3 <= stages <= layers {
      var m := CeilDiv(layers, stages);
      hide CeilDiv;
      forall first, middle, last | IsSharding(layers, stages, first, middle, last)
        ensures m * (stages - 2) <= layers - 2
      {
        ShardingFits(layers, stages, first, middle, last);
        LeastFits(layers, stages, middle);
      }
      LeastFits(layers, stages, m);
      FirstAndLast(layers, stages, m);
      assert Fits(layers, stages, m) ==>
        IsSharding(layers, stages, FirstLayers(layers, stages, m), m, LastLayers(layers, stages, m));
    }
  }

  // ---------------------------------------------------------------- renumbering

  function Highest(locals: seq<nat>): nat {
    if locals == [] then 0
    else
      var h := Highest(locals[..|locals| - 1]);
      if locals[|locals| - 1] > h then locals[|locals| - 1] else h
  }

  /** The cumulated layer count after the state dicts of the virtual stages before `n`. */
  function Cumulated(start: int, locals: seq<seq<nat>>, n: nat): int
    requires n <= |locals|
  {
    if n == 0 then start else Cumulated(start, locals, n - 1) + Highest(locals[n - 1]) + 1
  }

  function Shifted(offset: int): nat -> int {
    local => local + offset
  }

  /** The numbers that the layers of the first `n` state dicts get. */
  function Renumbered(start: int, locals: seq<seq<nat>>, n: nat): seq<seq<int>>
    requires n <= |locals|
  {
    if n == 0 then []
    else Renumbered(start, locals, n - 1) + [Map(locals[n - 1], Shifted(Cumulated(start, locals, n - 1)))]
  }

  /** The loop over the keys of one state dict. */
  method RenumberOne(locals: seq<nat>, layersCum: int) returns (numbers: seq<int>, layersHandled: nat)
    ensures numbers == Map(locals, Shifted(layersCum)) && layersHandled == Highest(locals)
  {
    layersHandled, numbers := 0, [];
    for k := 0 to |locals|
      invariant layersHandled == Highest(locals[..k])
      invariant numbers == Map(locals[..k], Shifted(layersCum))
    {
      assert locals[..k + 1][..k] == locals[..k];
      if locals[k] > layersHandled { layersHandled := locals[k]; }
      numbers := numbers + [locals[k] + layersCum];
    }
    assert locals[..|locals|] == locals;
  }

  /** The layer numbers of `_merge_state_dicts`: the offset grows from one state dict to the next. */
  method Renumber(start: int, locals: seq<seq<nat>>) returns (globals: seq<seq<int>>)
    ensures globals == Renumbered(start, locals, |locals|)
  {
    globals := [];
    var layersCum := start;
    for n := 0 to |locals|
      invariant layersCum == Cumulated(start, locals, n) && globals == Renumbered(start, locals, n)
    {
      var numbers, layersHandled := RenumberOne(locals[n], layersCum);
      globals := globals + [numbers];
      layersCum := layersCum + layersHandled + 1;
    }
  }

  /** The state dict has the keys of the layers 0 .. count - 1, each at least once, in any order. */
  ghost predicate Holds(locals: seq<nat>, count: nat) {
    forall x: nat :: x in locals <==> x < count
  }

  lemma {:induction false} HighestBounds(locals: seq<nat>)
    ensures forall x <- locals :: x <= Highest(locals)
    ensures locals != [] ==> Highest(locals) in locals
  {
    if locals == [] {
    } else {
      var front, last := locals[..|locals| - 1], locals[|locals| - 1];
      HighestBounds(front);
      assert Highest(locals) == if last > Highest(front) then last else Highest(front);
      hide Highest;
      assert forall x :: x in locals <==> x in front || x == last by {
        assert locals == front + [last];
      }
    }
  }

  /**
   The next state dict starts where the last one ended, exactly when no state dict before it is without
   layers: such a one still counts for one layer.
   */
  lemma {:induction false} CumulatedLayers(start: int, locals: seq<seq<nat>>, counts: seq<int>, n: nat)
    requires |counts| == |locals| && n <= |locals|
    requires forall i :: 0 <= i < |counts| ==> 0 <= counts[i] && Holds(locals[i], counts[i])
    ensures Cumulated(start, locals, n) >= start + Total(counts[..n])
    ensures Cumulated(start, locals, n) == start + Total(counts[..n]) <==> forall i :: 0 <= i < n ==> 0 < counts[i]
  {
    if n > 0 {
      var last := locals[n - 1];
      CumulatedLayers(start, locals, counts, n - 1);
      PrefixNext(counts, n - 1);
      HighestBounds(last);
      assert Holds(last, counts[n - 1]);
      if counts[n - 1] > 0 {
        assert counts[n - 1] - 1 in last;
      }
    } else {
      assert counts[..0] == [];
    }
  }

  lemma HighestOfTwo()
    ensures Highest([0, 1]) == 1
  {
    HighestBounds([0, 1]);
    assert [0, 1][1] in [0, 1];
  }

  /** The empty state dict in the middle counts for one layer: the third one starts at 3 instead of 2. */
  lemma {:induction false} EmptyStateDict()
    ensures Renumbered(0, [[0, 1], [], [0, 1]], 3) == [[0, 1], [], [3, 4]]
  {
    var locals: seq<seq<nat>> := [[0, 1], [], [0, 1]];
    HighestOfTwo();
    assert Highest([]) == 0;
    assert Cumulated(0, locals, 1) == 2 && Cumulated(0, locals, 2) == 3;
    assert Map(locals[0], Shifted(0)) == [0, 1] && Map(locals[1], Shifted(2)) == [] && Map(locals[2], Shifted(3)) == [3, 4];
    assert Renumbered(0, locals, 1) == [[0, 1]] && Renumbered(0, locals, 2) == [[0, 1], []];
  }
}
