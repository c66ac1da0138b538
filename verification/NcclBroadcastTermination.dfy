/** Every run of the broadcast transport ends: each step does some of the work that is left. */
module NcclBroadcastTermination {
  import opened DoubleBuffer
  import opened NcclBroadcast
  import opened NcclBroadcastSafety

  // ---------------------------------------------------------------- the work that is left

  /** Bytes that an operation still has to push. */
  function BytesLeft(size: nat, sent: seq<nat>): int {
    if sent == [] then 0 else size - sent[0] + BytesLeft(size, sent[1..])
  }

  lemma {:induction false} BytesLeftUpdate(size: nat, sent: seq<nat>, j: nat)
    requires j < |sent|
    ensures BytesLeft(size, sent[j := sent[j] + 1]) == BytesLeft(size, sent) - 1
  {
    if j > 0 {
      BytesLeftUpdate(size, sent[1..], j - 1);
      assert sent[j := sent[j] + 1][1..] == sent[1..][j - 1 := sent[j] + 1];
    } else {
      assert sent[0 := sent[0] + 1][1..] == sent[1..];
    }
  }

  lemma {:induction false} BytesLeftBounds(size: nat, sent: seq<nat>)
    requires forall j :: 0 <= j < |sent| ==> sent[j] <= size
    ensures 0 <= BytesLeft(size, sent) <= RoundsCost(|sent|, size)
  {
    if sent == [] {
    } else {
      BytesLeftBounds(size, sent[1..]);
    }
  }

  /** More than the steps of one round, of rank 0 or of a receiver. */
  function RoundCost(cfg: Config): nat
    requires 0 < cfg.ranks
  {
    cfg.size + MetaCount(cfg.buckets) + RoundsCost(cfg.ranks - 1, cfg.size) + 10
  }

  function RootWork(cfg: Config, root: Root): int
    requires 0 < cfg.ranks
  {
    RoundsCost(|cfg.buckets| - root.rounds, RoundCost(cfg))
    + (match root.phase
       case Fill(pos) => cfg.size + 3 - pos
       case AwaitPrevious => 2
       case Launch => 1
       case Finished => 0)
    + (if root.op.Some? then (if root.op.value.begun then 0 else 1) + BytesLeft(cfg.size, root.op.value.sent) else 0)
  }

  function ReceiverWork(cfg: Config, rv: Receiver): int
    requires 0 < cfg.ranks
  {
    RoundsCost(|cfg.buckets| - rv.rounds, RoundCost(cfg))
    + (match rv.phase
       case Start => cfg.size + MetaCount(cfg.buckets) + 5
       case Yield(pos) => MetaCount(cfg.buckets) + 2 - pos
       case AwaitOp => 1
       case _ => 0)
    + (if rv.op.Some? then (if rv.op.value.metadata.None? then 1 else 0) + cfg.size - rv.op.value.received else 0)
  }

  function ReceiversWork(cfg: Config, receivers: seq<Receiver>): int
    requires 0 < cfg.ranks
  {
    if receivers == [] then 0 else ReceiverWork(cfg, receivers[0]) + ReceiversWork(cfg, receivers[1..])
  }

  function Work(cfg: Config, s: State): int
    requires 0 < cfg.ranks
  {
    RootWork(cfg, s.root) + ReceiversWork(cfg, s.receivers)
  }

  // ---------------------------------------------------------------- bounds

  lemma {:induction false} RootWorkBounds(cfg: Config, root: Root)
    requires cfg.Valid() && RootInv(cfg, root)
    ensures 0 <= RootWork(cfg, root) <= RoundsCost(|cfg.buckets| + 1, RoundCost(cfg))
  {
    RoundsCostMonotone(|cfg.buckets| - root.rounds, |cfg.buckets|, RoundCost(cfg));
    if root.op.Some? { BytesLeftBounds(cfg.size, root.op.value.sent); }
  }

  lemma {:induction false} ReceiverWorkBounds(cfg: Config, rv: Receiver)
    requires cfg.Valid() && PlaceInv(cfg, rv)
    ensures 0 <= ReceiverWork(cfg, rv) <= RoundsCost(|cfg.buckets| + 1, RoundCost(cfg))
  {
    RoundsCostMonotone(|cfg.buckets| - rv.rounds, |cfg.buckets|, RoundCost(cfg));
    if rv.phase.Yield? { MetaCountBounds(cfg.buckets, rv.rounds - 1); }
  }

  lemma {:induction false} ReceiversWorkBounds(cfg: Config, receivers: seq<Receiver>)
    requires cfg.Valid() && forall j :: 0 <= j < |receivers| ==> PlaceInv(cfg, receivers[j])
    ensures 0 <= ReceiversWork(cfg, receivers) <= RoundsCost(|receivers|, RoundsCost(|cfg.buckets| + 1, RoundCost(cfg)))
  {
    hide PlaceInv, ReceiverWork;
    if receivers == [] {
    } else {
      ReceiverWorkBounds(cfg, receivers[0]);
      ReceiversWorkBounds(cfg, receivers[1..]);
    }
  }

  // ---------------------------------------------------------------- steps

  lemma {:induction false} NextRound(cfg: Config, rounds: nat)
    requires 0 < cfg.ranks && rounds < |cfg.buckets|
    ensures RoundsCost(|cfg.buckets| - rounds, RoundCost(cfg))
         == RoundsCost(|cfg.buckets| - (rounds + 1), RoundCost(cfg)) + RoundCost(cfg)
  {
  }

  lemma {:induction false} RootStepWorks(cfg: Config, root: Root)
    requires cfg.Valid() && RootInv(cfg, root) && RootShape(cfg, root) && RootReady(cfg, root)
    ensures RootWork(cfg, StepRoot(cfg, root)) < RootWork(cfg, root)
  {
    if root.phase.Launch? {
      BytesLeftBounds(cfg.size, StepRoot(cfg, root).op.value.sent);
      NextRound(cfg, root.rounds);
    } else if root.phase.AwaitPrevious? && root.op.Some? {
      BytesLeftBounds(cfg.size, root.op.value.sent);
    }
  }

  lemma {:induction false} ReceiverStepWorks(cfg: Config, rv: Receiver)
    requires cfg.Valid() && PlaceInv(cfg, rv) && Shape(cfg, rv) && Ready(cfg, rv)
    ensures ReceiverWork(cfg, StepReceiver(cfg, rv)) < ReceiverWork(cfg, rv)
  {
    if rv.phase.AwaitOp? {
      NextRound(cfg, rv.rounds);
    } else if rv.phase.Yield? {
      MetaCountBounds(cfg.buckets, rv.rounds - 1);
    }
  }

  lemma {:induction false} UpdateWorks(cfg: Config, receivers: seq<Receiver>, j: nat, rv: Receiver)
    requires 0 < cfg.ranks && j < |receivers|
    ensures ReceiversWork(cfg, receivers[j := rv])
         == ReceiversWork(cfg, receivers) - ReceiverWork(cfg, receivers[j]) + ReceiverWork(cfg, rv)
  {
    hide ReceiverWork;
    if j > 0 {
      UpdateWorks(cfg, receivers[1..], j - 1, rv);
      assert receivers[j := rv][1..] == receivers[1..][j - 1 := rv];
    } else {
      assert receivers[0 := rv][1..] == receivers[1..];
    }
  }

  lemma {:induction false} BeginWorks(cfg: Config, receivers: seq<Receiver>, next: seq<Receiver>, metadata: Metadata)
    requires 0 < cfg.ranks && |next| == |receivers|
    requires forall j :: 0 <= j < |receivers| ==> next[j] == Begin(receivers[j], metadata)
    ensures ReceiversWork(cfg, next) == ReceiversWork(cfg, receivers)
  {
    if receivers == [] {
    } else {
      BeginWorks(cfg, receivers[1..], next[1..], metadata);
    }
  }

  lemma {:induction false} TakesWork(cfg: Config, rv: Receiver)
    requires 0 < cfg.ranks && rv.op.Some?
    ensures rv.op.value.metadata.None? && rv.metas != [] ==> ReceiverWork(cfg, TakeMeta(rv)) < ReceiverWork(cfg, rv)
    ensures Shape(cfg, rv) && rv.wires != [] && rv.op.value.received < |rv.wires[0]| && rv.op.value.received < cfg.size
        ==> ReceiverWork(cfg, Take(cfg, rv)) < ReceiverWork(cfg, rv)
  {
    hide RoundsCost, RoundCost;
  }

  lemma {:induction false} ReceiverMoves(cfg: Config, s: State, j: nat, rv: Receiver)
    requires 0 < cfg.ranks && j < |s.receivers| && ReceiverWork(cfg, rv) < ReceiverWork(cfg, s.receivers[j])
    ensures Work(cfg, s.(receivers := s.receivers[j := rv])) < Work(cfg, s)
  {
    hide ReceiverWork, RootWork;
    UpdateWorks(cfg, s.receivers, j, rv);
  }

  lemma {:induction false} BeginStepWorks(cfg: Config, s: State)
    requires Enabled(cfg, s, BeginBroadcast)
    ensures Work(cfg, Next(cfg, s, BeginBroadcast)) < Work(cfg, s)
  {
    hide RoundsCost, RoundCost, BytesLeft, ReceiversWork;
    BeginWorks(cfg, s.receivers, Next(cfg, s, BeginBroadcast).receivers, s.root.op.value.metadata);
  }

  lemma {:induction false} PushStepWorks(cfg: Config, s: State, j: nat)
    requires Enabled(cfg, s, PushByte(j))
    ensures Work(cfg, Next(cfg, s, PushByte(j))) < Work(cfg, s)
  {
    hide RoundsCost, RoundCost, BytesLeft, ReceiversWork;
    BytesLeftUpdate(cfg.size, s.root.op.value.sent, j);
    UpdateWorks(cfg, s.receivers, j, Next(cfg, s, PushByte(j)).receivers[j]);
  }

  /** Every step does some of the work that is left. */
  lemma {:induction false} StepWorks(cfg: Config, s: State, a: Action)
    requires cfg.Valid() && Inv(cfg, s) && Enabled(cfg, s, a)
    ensures Work(cfg, Next(cfg, s, a)) < Work(cfg, s)
  {
    hide RootInv, RootShape, StepRoot, StepReceiver, RootWork, ReceiverWork, ReceiversWork, Take, TakeMeta, PlaceInv;
    match a
    case RootStep => RootStepWorks(cfg, s.root);
    case BeginBroadcast => BeginStepWorks(cfg, s);
    case PushByte(j) => PushStepWorks(cfg, s, j);
    case ReceiverStep(j) =>
      assert Link(cfg, s.root, j, s.receivers[j]);
      ReceiverStepWorks(cfg, s.receivers[j]);
      ReceiverMoves(cfg, s, j, StepReceiver(cfg, s.receivers[j]));
    case TakeMetadata(j) =>
      TakesWork(cfg, s.receivers[j]);
      ReceiverMoves(cfg, s, j, TakeMeta(s.receivers[j]));
    case TakeByte(j) =>
      TakesWork(cfg, s.receivers[j]);
      ReceiverMoves(cfg, s, j, Take(cfg, s.receivers[j]));
  }

  lemma {:induction false} WorkBounds(cfg: Config, s: State)
    requires cfg.Valid() && Inv(cfg, s)
    ensures 0 <= Work(cfg, s) <= RoundsCost(cfg.ranks, RoundsCost(|cfg.buckets| + 1, RoundCost(cfg)))
  {
    hide RootInv, RootWork, ReceiversWork, PlaceInv;
    RootWorkBounds(cfg, s.root);
    forall j | 0 <= j < |s.receivers|
      ensures PlaceInv(cfg, s.receivers[j])
    {
      assert Link(cfg, s.root, j, s.receivers[j]);
    }
    ReceiversWorkBounds(cfg, s.receivers);
  }

  lemma {:induction false} RunWorks(cfg: Config, s: State, run: seq<Action>)
    requires cfg.Valid() && Inv(cfg, s) && IsRun(cfg, s, run)
    ensures |run| <= Work(cfg, s)
    decreases |run|
  {
    hide Inv, Work;
    if run == [] {
      WorkBounds(cfg, s);
    } else {
      NextInv(cfg, s, run[0]);
      StepWorks(cfg, s, run[0]);
      RunWorks(cfg, Next(cfg, s, run[0]), run[1..]);
    }
  }

  /** No run is longer than this; with `BroadcastProgress`, every run that is driven on ends with all ranks done. */
  lemma {:induction false} BroadcastTerminates(cfg: Config, run: seq<Action>)
    requires cfg.Valid() && IsRun(cfg, Init(cfg), run)
    ensures |run| <= cfg.ranks * ((|cfg.buckets| + 1) * RoundCost(cfg))
  {
    InitInv(cfg);
    RunWorks(cfg, Init(cfg), run);
    WorkBounds(cfg, Init(cfg));
    RoundsCostIsProduct(|cfg.buckets| + 1, RoundCost(cfg));
    RoundsCostIsProduct(cfg.ranks, (|cfg.buckets| + 1) * RoundCost(cfg));
  }
}
