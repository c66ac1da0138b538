/** The guarantees of the chain transport over whole runs. */
module NixlChainTheorems {
  import opened Wrappers
  import opened WeightChunks
  import opened BucketPacking
  import opened DoubleBuffer
  import opened NixlChain
  import opened NixlChainSafety

  // ---------------------------------------------------------------- delivery

  lemma {:induction false} RankSafe(cfg: Config, r: nat, rk: Rank)
    requires cfg.Valid() && AtRank(cfg)(r, rk)
    ensures !rk.phase.Failed?
    ensures 0 < r ==> rk.yielded <= UnpackAll(cfg.buckets)
    ensures 0 < r && rk.phase.Done? ==> rk.yielded == UnpackAll(cfg.buckets)
  {
    hide UnpackAll, Buffers;
    if 0 < r {
      DeliveredPrefix(cfg, DoneBuckets(rk), DoneChunks(rk));
    }
  }

  /**
   In every reachable state no assert has fired, every receiver has yielded a prefix of rank 0's
   chunks with rank 0's bytes, and a receiver that is done has yielded all of them.
   */
  lemma {:induction false} ChainSafety(cfg: Config, run: seq<Action>, r: nat)
    requires cfg.Valid() && IsRun(cfg, Init(cfg), run) && r < |After(cfg, Init(cfg), run)|
    ensures
      var rk := After(cfg, Init(cfg), run)[r];
      && !rk.phase.Failed?
      && (0 < r ==> rk.yielded <= UnpackAll(cfg.buckets))
      && (0 < r && rk.phase.Done? ==> rk.yielded == UnpackAll(cfg.buckets))
  {
    hide Inv, AtRank, After, IsRun, Init, UnpackAll;
    var s := After(cfg, Init(cfg), run);
    InitInv(cfg);
    RunInv(cfg, Init(cfg), run);
    InvRank(cfg, s, r);
    RankSafe(cfg, r, s[r]);
  }

  /**
   For weights with distinct names, every receiver that reaches the end of any run hands over exactly
   the weights that were sent, up to those without bytes, if the packing places them well, and raises
   otherwise.
   */
  lemma {:induction false} ChainDeliversWeights(cfg: Config, weights: seq<Weight>, run: seq<Action>, r: nat, memory: Memory)
    requires 0 < cfg.size && DistinctNames(weights) && (forall w <- weights :: w.Valid()) && 2 <= cfg.ranks
    requires Pack(EMPTY, SplitAll(weights, cfg.size), cfg.size) == Success(cfg.buckets)
    requires IsRun(cfg, Init(cfg), run) && 0 < r < |After(cfg, Init(cfg), run)|
    requires After(cfg, Init(cfg), run)[r].phase.Done?
    ensures MergeAll(After(cfg, Init(cfg), run)[r].yielded, cfg.size, memory) ==
      if WellPlaced(weights, cfg.size) then Success(NonEmpty(weights)) else Failure(MisalignedView)
  {
    PipelineRoundTrip(weights, cfg.size, memory);
    PackedIsValid(cfg, weights, memory);
    ChainSafety(cfg, run, r);
  }

  // ---------------------------------------------------------------- buffer ownership

  /** Somebody still needs what buffer `b` of rank `r` holds. */
  ghost predicate InUse(cfg: Config, s: State, r: nat, b: nat)
    requires r < |s|
  {
    || (s[r].readable.Some? && s[r].readable.value.buf == b)
    || (s[r].phase.Yield? && s[r].send == b)
    || (exists m <- s[r].outbox :: m.src == b)
    || (r + 1 < |s| && s[r + 1].read.Some? && !s[r + 1].read.value.done && s[r + 1].read.value.src == b)
  }

  /** A running transfer reads the buffer of the operation that is not yet awaited. */
  lemma {:induction false} TransferSource(cfg: Config, r: nat, a: Rank, b: Rank)
    requires AtRank(cfg)(r, a) && AtRank(cfg)(r + 1, b) && AtLink(cfg)(r, a, b) && r + 1 < cfg.ranks
    requires b.read.Some? && !b.read.value.done
    ensures a.readable.Some? && a.readable.value.buf == b.read.value.src
  {
    hide Buffers;
    SourceHolds(cfg, r, a, b);
  }

  /** A message in flight refers to that buffer, too. */
  lemma {:induction false} MessageSource(cfg: Config, r: nat, a: Rank, b: Rank)
    requires AtRank(cfg)(r, a) && AtLink(cfg)(r, a, b) && r + 1 < cfg.ranks && a.outbox != []
    ensures |a.outbox| == 1 && a.readable.Some? && a.readable.value.buf == a.outbox[0].src
  {
    hide Buffers, Delivered;
  }

  lemma {:induction false} LastSendsNothing(cfg: Config, rk: Rank)
    requires 0 < cfg.ranks && AtRank(cfg)(cfg.ranks - 1, rk)
    ensures rk.outbox == []
  {
    hide Buffers, Delivered;
  }

  lemma {:induction false} InUseMeans(cfg: Config, s: State, r: nat, b: nat)
    requires Inv(cfg, s) && r < |s| && InUse(cfg, s, r, b)
    ensures (s[r].readable.Some? && s[r].readable.value.buf == b) || (s[r].phase.Yield? && s[r].send == b)
  {
    hide RankInv, LinkInv;
    InvRank(cfg, s, r);
    if r + 1 < |s| {
      InvRank(cfg, s, r + 1);
      InvLink(cfg, s, r);
      if s[r].outbox != [] { MessageSource(cfg, r, s[r], s[r + 1]); }
      if s[r + 1].read.Some? && !s[r + 1].read.value.done { TransferSource(cfg, r, s[r], s[r + 1]); }
    } else {
      LastSendsNothing(cfg, s[r]);
    }
  }

  /** The buffer that one action writes, if any. */
  function Written(s: State, a: Action): Option<(nat, nat)>
    requires a.rank < |s|
  {
    var rk := s[a.rank];
    if a.Advance? && rk.phase.Fill? then Some((a.rank, rk.send))
    else if a.CopyByte? && rk.read.Some? then Some((a.rank, rk.read.value.dst))
    else None
  }

  /** No other buffer changes. */
  lemma {:induction false} OnlyWritten(cfg: Config, s: State, a: Action, r: nat, b: nat)
    requires Enabled(cfg, s, a) && r < |s| && b < |s[r].bufs| && Next(cfg, s, a)[r].bufs != s[r].bufs
    requires Next(cfg, s, a)[r].bufs[b] != s[r].bufs[b]
    ensures Written(s, a) == Some((r, b))
  {
  }

  lemma {:induction false} WriterFree(cfg: Config, r: nat, rk: Rank)
    requires cfg.Valid() && AtRank(cfg)(r, rk)
    ensures rk.phase.Fill? ==> rk.readable.None? || rk.readable.value.buf != rk.send
    ensures rk.read.Some? ==> rk.read.value.dst != rk.send && (rk.readable.Some? ==> rk.readable.value.buf != rk.read.value.dst)
  {
  }

  /** No step of any reachable state writes into a buffer that is being read by the next rank or yielded from. */
  lemma {:induction false} NoOverwrite(cfg: Config, run: seq<Action>, a: Action)
    requires cfg.Valid() && IsRun(cfg, Init(cfg), run) && Enabled(cfg, After(cfg, Init(cfg), run), a)
    ensures
      var s := After(cfg, Init(cfg), run);
      Written(s, a).Some? ==> !InUse(cfg, s, Written(s, a).value.0, Written(s, a).value.1)
  {
    var s := After(cfg, Init(cfg), run);
    InitInv(cfg);
    RunInv(cfg, Init(cfg), run);
    if Written(s, a).Some? && InUse(cfg, s, a.rank, Written(s, a).value.1) {
      InUseMeans(cfg, s, a.rank, Written(s, a).value.1);
      InvRank(cfg, s, a.rank);
      WriterFree(cfg, a.rank, s[a.rank]);
    }
  }

  // ---------------------------------------------------------------- progress

  /** A rank that waits for an acknowledgement. */
  predicate Waits(rk: Rank) {
    rk.phase.AwaitAck? && !AckReady(rk)
  }

  /** A rank can only stand still at three points, or while its transfer runs. */
  lemma {:induction false} RankMoves(cfg: Config, r: nat, rk: Rank)
    requires AtRank(cfg)(r, rk)
    ensures Shape(cfg, rk)
    ensures
      || rk.phase.Done? || Waits(rk) || rk.phase.AwaitMetadata? || LocalReady(cfg, r, rk)
      || (0 < r && rk.read.Some? && !rk.read.value.done)
  {
  }

  lemma {:induction false} OnlyReceiversWait(cfg: Config, rk: Rank)
    requires AtRank(cfg)(0, rk)
    ensures !rk.phase.AwaitMetadata?
  {
  }

  /** A rank of a stuck chain is done, waits for an acknowledgement, or waits for metadata; no transfer runs. */
  lemma {:induction false} StuckRank(cfg: Config, s: State, r: nat)
    requires cfg.Valid() && Inv(cfg, s) && r < |s| && forall a :: !Enabled(cfg, s, a)
    ensures s[r].phase.Done? || Waits(s[r]) || (0 < r && s[r].phase.AwaitMetadata? && s[r - 1].outbox == [])
    ensures 0 < r && s[r].read.Some? ==> s[r].read.value.done
  {
    hide RankInv, LinkInv, LocalReady;
    var rk := s[r];
    InvRank(cfg, s, r);
    RankMoves(cfg, r, rk);
    assert !Enabled(cfg, s, Advance(r));
    if 0 < r {
      InvRank(cfg, s, r - 1);
      RankMoves(cfg, r - 1, s[r - 1]);
      assert !Enabled(cfg, s, Receive(r)) && !Enabled(cfg, s, CopyByte(r)) && !Enabled(cfg, s, FinishRead(r));
    } else {
      OnlyReceiversWait(cfg, rk);
    }
  }

  /** What is in flight from a rank that waits for its acknowledgement. */
  lemma {:induction false} WaitsForNext(cfg: Config, r: nat, a: Rank, b: Rank)
    requires AtRank(cfg)(r, a) && AtRank(cfg)(r + 1, b) && AtLink(cfg)(r, a, b) && r + 1 < cfg.ranks && Waits(a)
    ensures !b.phase.Done? && (a.outbox != [] || (b.read.Some? && !b.read.value.done) || b.phase.BeginRead?)
  {
  }

  lemma {:induction false} WaitsNotLast(cfg: Config, rk: Rank)
    requires 0 < cfg.ranks && AtRank(cfg)(cfg.ranks - 1, rk)
    ensures !Waits(rk)
  {
  }

  /** A rank that waits for an acknowledgement has a successor that waits for one. */
  lemma {:induction false} WaitsPassOn(cfg: Config, s: State, r: nat)
    requires cfg.Valid() && Inv(cfg, s) && r < |s| && Waits(s[r]) && forall a :: !Enabled(cfg, s, a)
    ensures r + 1 < |s| && Waits(s[r + 1])
  {
    hide RankInv, LinkInv, Shape;
    InvRank(cfg, s, r);
    if r + 1 == |s| {
      WaitsNotLast(cfg, s[r]);
    } else {
      InvRank(cfg, s, r + 1);
      InvLink(cfg, s, r);
      StuckRank(cfg, s, r + 1);
      WaitsForNext(cfg, r, s[r], s[r + 1]);
    }
  }

  lemma {:induction false} NobodyWaits(cfg: Config, s: State, r: nat)
    requires cfg.Valid() && Inv(cfg, s) && r < |s| && forall a :: !Enabled(cfg, s, a)
    ensures !Waits(s[r])
    decreases |s| - r
  {
    hide RankInv, LinkInv, Shape;
    if Waits(s[r]) {
      WaitsPassOn(cfg, s, r);
      NobodyWaits(cfg, s, r + 1);
    }
  }

  /** A receiver cannot miss metadata that a finished rank has sent. */
  lemma {:induction false} DoneSentAll(cfg: Config, r: nat, a: Rank, b: Rank)
    requires AtRank(cfg)(r, a) && AtRank(cfg)(r + 1, b) && AtLink(cfg)(r, a, b) && r + 1 < cfg.ranks
    requires a.phase.Done? && a.outbox == []
    ensures !b.phase.AwaitMetadata?
  {
  }

  lemma {:induction false} StuckIsDone(cfg: Config, s: State, r: nat)
    requires cfg.Valid() && Inv(cfg, s) && r < |s| && forall a :: !Enabled(cfg, s, a)
    ensures s[r].phase.Done?
  {
    hide RankInv, LinkInv, Shape;
    StuckRank(cfg, s, r);
    NobodyWaits(cfg, s, r);
    if r == 0 {
    } else {
      StuckIsDone(cfg, s, r - 1);
      InvRank(cfg, s, r - 1);
      InvRank(cfg, s, r);
      InvLink(cfg, s, r - 1);
      if s[r - 1].outbox == [] { DoneSentAll(cfg, r - 1, s[r - 1], s[r]); }
    }
  }

  /** As long as some rank is not done, something can happen. */
  lemma {:induction false} ChainProgress(cfg: Config, run: seq<Action>)
    requires cfg.Valid() && IsRun(cfg, Init(cfg), run) && !AllDone(After(cfg, Init(cfg), run))
    ensures exists a :: Enabled(cfg, After(cfg, Init(cfg), run), a)
  {
    var s := After(cfg, Init(cfg), run);
    InitInv(cfg);
    RunInv(cfg, Init(cfg), run);
    if forall a :: !Enabled(cfg, s, a) {
      var r :| 0 <= r < |s| && !s[r].phase.Done?;
      StuckIsDone(cfg, s, r);
    }
  }

  // ---------------------------------------------------------------- the end of a run

  /** Nothing is published, held or under way, and the queues to the next rank are empty. */
  predicate Clean(rk: Rank) {
    rk.readable.None? && rk.read.None? && rk.next.None? && rk.outbox == [] && rk.notifs == []
  }

  lemma {:induction false} DoneHoldsNothing(cfg: Config, r: nat, rk: Rank)
    requires cfg.Valid() && AtRank(cfg)(r, rk) && rk.phase.Done?
    ensures rk.readable.None? && rk.read.None? && rk.next.None? && rk.rounds == |cfg.buckets|
    ensures r + 1 == cfg.ranks ==> Clean(rk)
  {
    hide Buffers, Delivered;
  }

  lemma {:induction false} DoneQueuesEmpty(cfg: Config, r: nat, a: Rank, b: Rank)
    requires cfg.Valid() && AtRank(cfg)(r, a) && AtRank(cfg)(r + 1, b) && AtLink(cfg)(r, a, b)
    requires r + 1 < cfg.ranks && a.phase.Done? && b.phase.Done?
    ensures a.outbox == [] && a.notifs == []
  {
    hide Buffers, Delivered;
    DoneHoldsNothing(cfg, r, a);
    DoneHoldsNothing(cfg, r + 1, b);
  }

  lemma {:induction false} EndsClean(cfg: Config, s: State, r: nat)
    requires cfg.Valid() && Inv(cfg, s) && AllDone(s) && r < |s|
    ensures Clean(s[r])
  {
    InvRank(cfg, s, r);
    DoneHoldsNothing(cfg, r, s[r]);
    if r + 1 < |s| {
      InvRank(cfg, s, r + 1);
      InvLink(cfg, s, r);
      DoneQueuesEmpty(cfg, r, s[r], s[r + 1]);
    }
    hide AtRank, AtLink;
  }

  /**
   When every rank is done, no message and no notification is left over: the agents' queues, which outlive
   the run, are as they were before it.
   */
  lemma {:induction false} ChainEndsClean(cfg: Config, run: seq<Action>, r: nat)
    requires cfg.Valid() && IsRun(cfg, Init(cfg), run) && AllDone(After(cfg, Init(cfg), run))
    requires r < |After(cfg, Init(cfg), run)|
    ensures Clean(After(cfg, Init(cfg), run)[r])
  {
    var s := After(cfg, Init(cfg), run);
    InitInv(cfg);
    RunInv(cfg, Init(cfg), run);
    EndsClean(cfg, s, r);
  }

  // ---------------------------------------------------------------- termination

  /** More than the steps of one round. */
  function RoundCost(cfg: Config): nat {
    2 * cfg.size + MetaCount(cfg.buckets) + 10
  }

  /** Steps left in the current round of a rank: its own statements and those of the transfer into it. */
  function StepsLeft(cfg: Config, r: nat, rk: Rank): int {
    (match rk.phase
     case Fill(pos) => cfg.size + 3 - pos
     case Publish => if r == 0 then 1 else MetaCount(cfg.buckets) + 6
     case AwaitMetadata => MetaCount(cfg.buckets) + 5
     case BeginRead => MetaCount(cfg.buckets) + 4
     case Yield(pos) => MetaCount(cfg.buckets) + 3 - pos
     case AwaitAck => 2
     case AwaitRead => 1
     case _ => 0)
    + (if rk.read.Some? then cfg.size - rk.read.value.copied + (if rk.read.value.done then 0 else 1)
       else if 0 < r && (rk.phase.Publish? || rk.phase.AwaitMetadata? || rk.phase.BeginRead?) then cfg.size + 1 else 0)
  }

  function RankWork(cfg: Config, r: nat, rk: Rank): int {
    RoundsCost(|cfg.buckets| - rk.rounds, RoundCost(cfg)) + StepsLeft(cfg, r, rk)
  }

  lemma {:induction false} StepsLeftBounds(cfg: Config, r: nat, rk: Rank)
    requires cfg.Valid() && PlaceInv(cfg, r, rk)
    ensures 0 <= StepsLeft(cfg, r, rk) < RoundCost(cfg)
  {
    if rk.phase.Yield? {
      MetaCountBounds(cfg.buckets, rk.rounds - 1);
    }
  }

  /** A swap ends a round. */
  lemma {:induction false} SwapWorks(cfg: Config, r: nat, rk: Rank)
    requires cfg.Valid() && PlaceInv(cfg, r, rk) && Shape(cfg, rk) && LocalReady(cfg, r, rk)
    requires rk.phase.AwaitRead? || (rk.phase.Publish? && r == 0)
    ensures RankWork(cfg, r, LocalStep(cfg, r, rk)) < RankWork(cfg, r, rk)
  {
    assert RoundsCost(|cfg.buckets| - rk.rounds, RoundCost(cfg))
        == RoundsCost(|cfg.buckets| - (rk.rounds + 1), RoundCost(cfg)) + RoundCost(cfg);
  }

  lemma {:induction false} TrainerWorks(cfg: Config, rk: Rank)
    requires cfg.Valid() && Position(cfg, 0, rk) && Locals(cfg, 0, rk) && Shape(cfg, rk) && LocalReady(cfg, 0, rk)
    requires !rk.phase.Publish?
    ensures LocalStep(cfg, 0, rk).rounds == rk.rounds
    ensures StepsLeft(cfg, 0, LocalStep(cfg, 0, rk)) < StepsLeft(cfg, 0, rk)
  {
  }

  lemma {:induction false} ReceiverWorks(cfg: Config, r: nat, rk: Rank)
    requires cfg.Valid() && 0 < r && Position(cfg, r, rk) && Locals(cfg, r, rk) && Shape(cfg, rk) && LocalReady(cfg, r, rk)
    requires !rk.phase.AwaitRead?
    ensures LocalStep(cfg, r, rk).rounds == rk.rounds
    ensures StepsLeft(cfg, r, LocalStep(cfg, r, rk)) < StepsLeft(cfg, r, rk)
  {
    hide MetaCount, BufOf;
    if rk.phase.Yield? { MetaCountBounds(cfg.buckets, rk.rounds - 1); }
  }

  lemma {:induction false} StatementWorks(cfg: Config, r: nat, rk: Rank)
    requires AtRank(cfg)(r, rk) && Shape(cfg, rk) && LocalReady(cfg, r, rk)
    ensures RankWork(cfg, r, LocalStep(cfg, r, rk)) < RankWork(cfg, r, rk)
  {
    if rk.phase.AwaitRead? || (rk.phase.Publish? && r == 0) {
      SwapWorks(cfg, r, rk);
    } else {
      if r == 0 { TrainerWorks(cfg, rk); } else { ReceiverWorks(cfg, r, rk); }
    }
  }

  lemma {:induction false} TransferWorks(cfg: Config, r: nat, prev: Rank, rk: Rank, a: Action)
    requires PairEnabled(cfg, prev, rk, a)
    ensures
      var (prev', rk') := NextPair(cfg, prev, rk, a);
      RankWork(cfg, r, prev') == RankWork(cfg, r, prev) && RankWork(cfg, r + 1, rk') < RankWork(cfg, r + 1, rk)
  {
    hide RoundsCost, RoundCost, MetaCount;
  }

  /** The work left in the first `n` ranks. */
  function Work(cfg: Config, s: State, n: nat): int
    requires n <= |s|
  {
    if n == 0 then 0 else Work(cfg, s, n - 1) + RankWork(cfg, n - 1, s[n - 1])
  }

  lemma {:induction false} WorkUpdate(cfg: Config, s: State, r: nat, rk: Rank, n: nat)
    requires r < |s| && n <= |s|
    ensures Work(cfg, s[r := rk], n)
         == Work(cfg, s, n) + if r < n then RankWork(cfg, r, rk) - RankWork(cfg, r, s[r]) else 0
  {
    if n == 0 {
    } else {
      WorkUpdate(cfg, s, r, rk, n - 1);
    }
  }

  lemma {:induction false} RankWorkBounds(cfg: Config, r: nat, rk: Rank)
    requires AtRank(cfg)(r, rk)
    ensures 0 <= RankWork(cfg, r, rk) <= RoundsCost(|cfg.buckets| + 1, RoundCost(cfg))
  {
    StepsLeftBounds(cfg, r, rk);
    RoundsCostMonotone(|cfg.buckets| - rk.rounds, |cfg.buckets|, RoundCost(cfg));
  }

  lemma {:induction false} WorkBounds(cfg: Config, s: State, n: nat)
    requires Inv(cfg, s) && n <= |s|
    ensures 0 <= Work(cfg, s, n) <= RoundsCost(n, RoundsCost(|cfg.buckets| + 1, RoundCost(cfg)))
  {
    hide RankInv, LinkInv, RankWork;
    if n == 0 {
    } else {
      WorkBounds(cfg, s, n - 1);
      InvRank(cfg, s, n - 1);
      RankWorkBounds(cfg, n - 1, s[n - 1]);
    }
  }

  lemma {:induction false} PairWorks(cfg: Config, s: State, r: nat, a: Rank, b: Rank)
    requires r + 1 < |s| && RankWork(cfg, r, a) == RankWork(cfg, r, s[r])
    requires RankWork(cfg, r + 1, b) < RankWork(cfg, r + 1, s[r + 1])
    ensures Work(cfg, s[r := a][r + 1 := b], |s|) < Work(cfg, s, |s|)
  {
    WorkUpdate(cfg, s, r, a, |s|);
    WorkUpdate(cfg, s[r := a], r + 1, b, |s|);
  }

  lemma {:induction false} AdvanceWorks(cfg: Config, s: State, r: nat)
    requires Inv(cfg, s) && Enabled(cfg, s, Advance(r)) && AtRank(cfg)(r, s[r])
    ensures Work(cfg, Next(cfg, s, Advance(r)), |s|) < Work(cfg, s, |s|)
  {
    StatementWorks(cfg, r, s[r]);
    WorkUpdate(cfg, s, r, LocalStep(cfg, r, s[r]), |s|);
  }

  /** Every step does some of the work that is left. */
  lemma {:induction false} StepWorks(cfg: Config, s: State, a: Action)
    requires Inv(cfg, s) && Enabled(cfg, s, a)
    ensures Work(cfg, Next(cfg, s, a), |s|) < Work(cfg, s, |s|)
  {
    hide RankInv, LinkInv, Shape, RankWork;
    var r := a.rank;
    InvRank(cfg, s, r);
    if a.Advance? {
      AdvanceWorks(cfg, s, r);
    } else {
      var (prev, rk) := NextPair(cfg, s[r - 1], s[r], a);
      TransferWorks(cfg, r - 1, s[r - 1], s[r], a);
      PairWorks(cfg, s, r - 1, prev, rk);
    }
  }

  lemma {:induction false} RunWorks(cfg: Config, s: State, run: seq<Action>)
    requires Inv(cfg, s) && IsRun(cfg, s, run)
    ensures |run| <= Work(cfg, s, |s|)
    decreases |run|
  {
    if run == [] {
      WorkBounds(cfg, s, |s|);
    } else {
      NextInv(cfg, s, run[0]);
      StepWorks(cfg, s, run[0]);
      RunWorks(cfg, Next(cfg, s, run[0]), run[1..]);
    }
  }

  /** No run is longer than ranks * (buckets + 1) rounds; with ChainProgress, every run can only end with all ranks done. */
  lemma {:induction false} ChainTerminates(cfg: Config, run: seq<Action>)
    requires cfg.Valid() && IsRun(cfg, Init(cfg), run)
    ensures |run| <= cfg.ranks * ((|cfg.buckets| + 1) * RoundCost(cfg))
  {
    InitInv(cfg);
    RunWorks(cfg, Init(cfg), run);
    WorkBounds(cfg, Init(cfg), cfg.ranks);
    RoundsCostIsProduct(|cfg.buckets| + 1, RoundCost(cfg));
    RoundsCostIsProduct(cfg.ranks, (|cfg.buckets| + 1) * RoundCost(cfg));
  }
}
