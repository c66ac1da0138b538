/** What every reachable state of the broadcast transport satisfies, for every number of receivers and every schedule. */
module NcclBroadcastSafety {
  import opened Wrappers
  import opened WeightChunks
  import opened BucketPacking
  import opened DoubleBuffer
  import opened NcclBroadcast

  // ---------------------------------------------------------------- invariants

  ghost predicate RootInv(cfg: Config, root: Root)
    requires cfg.Valid()
  {
    var m := |cfg.buckets|;
    && root.rounds <= m && root.send == root.rounds % 2
    && (match root.phase
        case Fill(pos) => root.rounds < m && pos <= |cfg.buckets[root.rounds].data|
        case AwaitPrevious => true
        case Launch => root.rounds < m
        case Finished => root.rounds == m)
    && (root.op.Some? <==> 0 < root.rounds && (root.phase.Fill? || root.phase.AwaitPrevious?))
    && (root.op.Some? ==>
          var op := root.op.value;
          && op.buf == 1 - root.send && op.metadata == cfg.Meta(root.rounds - 1) && |op.sent| == cfg.ranks - 1
          && forall j :: 0 <= j < |op.sent| ==> op.sent[j] <= (if op.begun then cfg.size else 0))
    && |root.bufs| == 2 && |root.bufs[0]| == |root.bufs[1]| == cfg.size
    && (root.phase.Fill? ==> Holds(root.bufs[root.send], cfg.buckets[root.rounds].data, root.phase.pos))
    && (!root.phase.Fill? && root.rounds < m ==> Holds(root.bufs[root.send], cfg.buckets[root.rounds].data, cfg.size))
    && (0 < root.rounds ==> Holds(root.bufs[1 - root.send], cfg.buckets[root.rounds - 1].data, cfg.size))
  }

  /** How many buckets a receiver has handed over completely, and how many chunks of the next one. */
  function DoneBuckets(rv: Receiver): nat {
    if rv.rounds == 0 then 0 else if rv.phase.AwaitOp? || rv.phase.Done? then rv.rounds else rv.rounds - 1
  }

  function DoneChunks(rv: Receiver): nat {
    if rv.phase.Yield? then rv.phase.pos else 0
  }

  ghost predicate PlaceInv(cfg: Config, rv: Receiver)
    requires cfg.Valid()
  {
    var m := |cfg.buckets|;
    && rv.rounds <= m && rv.send == rv.rounds % 2
    && (match rv.phase
        case Start => rv.rounds < m
        case Yield(pos) => 0 < rv.rounds && pos <= |cfg.buckets[rv.rounds - 1].metas|
        case AwaitOp => rv.rounds < m
        case Done => rv.rounds == m
        case Failed => false)
    && (rv.op.Some? <==> rv.phase.AwaitOp? || (rv.phase.Yield? && rv.rounds < m))
    && |rv.bufs| == 2 && |rv.bufs[0]| == |rv.bufs[1]| == cfg.size
    && (rv.op.Some? ==>
          var op := rv.op.value;
          && op.buf == 1 - rv.send && op.received <= cfg.size
          && (if op.metadata.Some? then op.metadata.value == cfg.Meta(rv.rounds) else op.received == 0)
          && Holds(rv.bufs[op.buf], cfg.buckets[rv.rounds].data, op.received))
    && (0 < rv.rounds ==>
          && rv.metadata == cfg.Meta(rv.rounds - 1)
          && Holds(rv.bufs[rv.send], cfg.buckets[rv.rounds - 1].data, cfg.size))
  }

  ghost predicate ReceiverInv(cfg: Config, rv: Receiver)
    requires cfg.Valid()
  {
    PlaceInv(cfg, rv) && rv.yielded == Delivered(cfg, DoneBuckets(rv), DoneChunks(rv))
  }

  /** How many broadcasts have put their metadata on the channels. */
  function Begun(root: Root): int {
    root.rounds - if root.op.Some? && !root.op.value.begun then 1 else 0
  }

  /** How many bytes of the last begun broadcast are on the way to receiver `j` or there. */
  function SentTo(cfg: Config, root: Root, j: nat): nat {
    if root.op.Some? && root.op.value.begun && j < |root.op.value.sent| then root.op.value.sent[j] else cfg.size
  }

  function MetasTaken(rv: Receiver): nat {
    rv.rounds + if rv.op.Some? && rv.op.value.metadata.Some? then 1 else 0
  }

  ghost predicate MetasInv(cfg: Config, root: Root, rv: Receiver) {
    && MetasTaken(rv) <= Begun(root) <= |cfg.buckets| && |rv.metas| == Begun(root) - MetasTaken(rv)
    && forall x :: 0 <= x < |rv.metas| ==> rv.metas[x] == cfg.Meta(MetasTaken(rv) + x)
  }

  /** The wires of a receiver are the broadcasts it has not finished, all complete but the last. */
  ghost predicate WiresInv(cfg: Config, root: Root, j: nat, rv: Receiver) {
    && Begun(root) <= |cfg.buckets| && |rv.wires| == Begun(root) - rv.rounds
    && (forall x :: 0 <= x < |rv.wires| ==>
          && |rv.wires[x]| == (if x == |rv.wires| - 1 then SentTo(cfg, root, j) else cfg.size)
          && Holds(rv.wires[x], cfg.buckets[rv.rounds + x].data, |rv.wires[x]|))
    && SentTo(cfg, root, j) <= cfg.size && (rv.wires == [] ==> SentTo(cfg, root, j) == cfg.size)
    && (rv.op.Some? ==> rv.op.value.received <= if rv.wires == [] then 0 else |rv.wires[0]|)
  }

  ghost predicate Link(cfg: Config, root: Root, j: nat, rv: Receiver)
    requires cfg.Valid()
  {
    ReceiverInv(cfg, rv) && MetasInv(cfg, root, rv) && WiresInv(cfg, root, j, rv)
  }

  ghost predicate Inv(cfg: Config, s: State)
    requires cfg.Valid()
  {
    && RootInv(cfg, s.root) && |s.receivers| == cfg.ranks - 1
    && forall j :: 0 <= j < |s.receivers| ==> Link(cfg, s.root, j, s.receivers[j])
  }

  lemma {:induction false} InitInv(cfg: Config)
    requires cfg.Valid()
    ensures Inv(cfg, Init(cfg))
  {
  }

  // ---------------------------------------------------------------- steps of rank 0

  lemma {:induction false} RootKeeps(cfg: Config, root: Root)
    requires cfg.Valid() && RootInv(cfg, root) && RootShape(cfg, root) && RootReady(cfg, root)
    ensures RootInv(cfg, StepRoot(cfg, root)) && Begun(StepRoot(cfg, root)) == Begun(root)
    ensures forall j :: 0 <= j < cfg.ranks - 1 ==> SentTo(cfg, StepRoot(cfg, root), j) == SentTo(cfg, root, j)
  {
    assert (root.rounds + 1) % 2 == 1 - root.rounds % 2;
  }

  lemma {:induction false} BeginLinks(cfg: Config, root: Root, j: nat, rv: Receiver)
    requires cfg.Valid() && RootInv(cfg, root) && j < cfg.ranks - 1 && root.op.Some? && !root.op.value.begun
    requires MetasInv(cfg, root, rv) && WiresInv(cfg, root, j, rv)
    ensures
      var root', rv' := root.(op := Some(root.op.value.(begun := true))), Begin(rv, root.op.value.metadata);
      MetasInv(cfg, root', rv') && WiresInv(cfg, root', j, rv')
  {
  }

  lemma {:induction false} BeginKeeps(cfg: Config, root: Root, j: nat, rv: Receiver)
    requires cfg.Valid() && RootInv(cfg, root) && Link(cfg, root, j, rv) && j < cfg.ranks - 1
    requires root.op.Some? && !root.op.value.begun
    ensures Link(cfg, root.(op := Some(root.op.value.(begun := true))), j, Begin(rv, root.op.value.metadata))
  {
    hide RootInv, MetasInv, WiresInv, Delivered;
    BeginLinks(cfg, root, j, rv);
  }

  lemma {:induction false} PushKeeps(cfg: Config, root: Root, j: nat, rv: Receiver)
    requires cfg.Valid() && RootInv(cfg, root) && RootShape(cfg, root) && j < cfg.ranks - 1
    requires PlaceInv(cfg, rv) && MetasInv(cfg, root, rv) && WiresInv(cfg, root, j, rv)
    requires root.op.Some? && root.op.value.begun && root.op.value.sent[j] < cfg.size && rv.wires != []
    ensures
      var op := root.op.value;
      var root' := root.(op := Some(op.(sent := op.sent[j := op.sent[j] + 1])));
      var rv' := Push(rv, root.bufs[op.buf][op.sent[j]]);
      MetasInv(cfg, root', rv') && WiresInv(cfg, root', j, rv')
  {
    hide PlaceInv;
    var last := |rv.wires| - 1;
    assert rv.rounds + last == root.rounds - 1;
    assert |rv.wires[last]| == root.op.value.sent[j];
  }

  // ---------------------------------------------------------------- steps of a receiver

  lemma {:induction false} YieldKeeps(cfg: Config, rv: Receiver)
    requires cfg.Valid() && PlaceInv(cfg, rv) && Shape(cfg, rv) && rv.phase.Yield?
    ensures
      var b, pos, rv' := cfg.buckets[rv.rounds - 1], rv.phase.pos, StepReceiver(cfg, rv);
      && PlaceInv(cfg, rv')
      && rv'.rounds == rv.rounds
      && (if pos < |b.metas|
          then rv'.phase == Yield(pos + 1) && rv'.yielded == rv.yielded + Unpack(b, pos + 1)[pos..]
          else !rv'.phase.Yield? && DoneBuckets(rv') == rv.rounds && rv'.yielded == rv.yielded)
  {
    if rv.phase.pos < |cfg.buckets[rv.rounds - 1].metas| {
      SameSlice(rv.bufs[rv.send], cfg.buckets[rv.rounds - 1], rv.phase.pos, cfg.size);
    }
  }

  lemma {:induction false} StartPlace(cfg: Config, rv: Receiver)
    requires cfg.Valid() && PlaceInv(cfg, rv) && Shape(cfg, rv) && rv.phase.Start?
    ensures
      var rv' := StepReceiver(cfg, rv);
      && PlaceInv(cfg, rv') && rv'.yielded == rv.yielded
      && DoneBuckets(rv') == DoneBuckets(rv) && DoneChunks(rv') == DoneChunks(rv)
  {
  }

  lemma {:induction false} AwaitOpPlace(cfg: Config, rv: Receiver)
    requires cfg.Valid() && PlaceInv(cfg, rv) && Shape(cfg, rv) && rv.phase.AwaitOp? && Ready(cfg, rv)
    ensures
      var rv' := StepReceiver(cfg, rv);
      && PlaceInv(cfg, rv') && rv'.yielded == rv.yielded
      && DoneBuckets(rv') == DoneBuckets(rv) && DoneChunks(rv') == DoneChunks(rv)
  {
    assert (rv.rounds + 1) % 2 == 1 - rv.rounds % 2;
  }

  lemma {:induction false} StepMetas(cfg: Config, root: Root, rv: Receiver)
    requires cfg.Valid() && PlaceInv(cfg, rv) && MetasInv(cfg, root, rv) && Shape(cfg, rv) && Ready(cfg, rv)
    ensures MetasInv(cfg, root, StepReceiver(cfg, rv))
  {
  }

  lemma {:induction false} StepWires(cfg: Config, root: Root, j: nat, rv: Receiver)
    requires cfg.Valid() && PlaceInv(cfg, rv) && MetasInv(cfg, root, rv) && WiresInv(cfg, root, j, rv)
    requires Shape(cfg, rv) && Ready(cfg, rv)
    ensures WiresInv(cfg, root, j, StepReceiver(cfg, rv))
  {
    hide Holds;
    if rv.phase.AwaitOp? {
      var rv' := StepReceiver(cfg, rv);
      assert |rv'.wires| == |rv.wires| - 1 && forall x :: 0 <= x < |rv'.wires| ==> rv'.wires[x] == rv.wires[x + 1];
    }
  }

  lemma {:induction false} OneYielded(cfg: Config, rv: Receiver)
    requires cfg.Valid() && PlaceInv(cfg, rv) && Shape(cfg, rv) && rv.phase.Yield?
    requires rv.yielded == Delivered(cfg, DoneBuckets(rv), DoneChunks(rv))
    ensures
      var rv' := StepReceiver(cfg, rv);
      && PlaceInv(cfg, rv')
      && rv'.yielded == Delivered(cfg, DoneBuckets(rv'), DoneChunks(rv'))
  {
    hide Shape, Holds, UnpackAll, Unpack;
    YieldKeeps(cfg, rv);
    DeliveredNext(cfg, rv.rounds - 1, rv.phase.pos);
  }

  lemma {:induction false} NothingYielded(cfg: Config, rv: Receiver)
    requires cfg.Valid() && PlaceInv(cfg, rv) && Shape(cfg, rv) && Ready(cfg, rv) && !rv.phase.Yield?
    ensures
      var rv' := StepReceiver(cfg, rv);
      && PlaceInv(cfg, rv') && rv'.yielded == rv.yielded
      && DoneBuckets(rv') == DoneBuckets(rv) && DoneChunks(rv') == DoneChunks(rv)
  {
    if rv.phase.Start? { StartPlace(cfg, rv); } else { AwaitOpPlace(cfg, rv); }
  }

  /** The receiver's own statement keeps its place and what it has yielded. */
  lemma {:induction false} StepReceiverInv(cfg: Config, rv: Receiver)
    requires cfg.Valid() && ReceiverInv(cfg, rv) && Shape(cfg, rv) && Ready(cfg, rv)
    ensures ReceiverInv(cfg, StepReceiver(cfg, rv))
  {
    hide StepReceiver, PlaceInv, Shape, Delivered;
    if rv.phase.Yield? { OneYielded(cfg, rv); } else { NothingYielded(cfg, rv); }
  }

  lemma {:induction false} StepKeeps(cfg: Config, root: Root, j: nat, rv: Receiver)
    requires cfg.Valid() && Link(cfg, root, j, rv) && Shape(cfg, rv) && Ready(cfg, rv)
    ensures Link(cfg, root, j, StepReceiver(cfg, rv))
  {
    hide MetasInv, WiresInv, PlaceInv, Delivered;
    StepReceiverInv(cfg, rv);
    StepMetas(cfg, root, rv);
    StepWires(cfg, root, j, rv);
  }

  lemma {:induction false} TakeMetaKeeps(cfg: Config, root: Root, j: nat, rv: Receiver)
    requires cfg.Valid() && Link(cfg, root, j, rv) && rv.op.Some? && rv.op.value.metadata.None? && rv.metas != []
    ensures Link(cfg, root, j, TakeMeta(rv))
  {
    hide Delivered;
  }

  lemma {:induction false} TakeKeeps(cfg: Config, root: Root, j: nat, rv: Receiver)
    requires cfg.Valid() && Link(cfg, root, j, rv) && Shape(cfg, rv) && rv.op.Some? && rv.op.value.metadata.Some?
    requires rv.wires != [] && rv.op.value.received < |rv.wires[0]| && rv.op.value.received < cfg.size
    ensures Link(cfg, root, j, Take(cfg, rv))
  {
    hide Delivered;
  }

  // ---------------------------------------------------------------- every step, every run

  /** A receiver's link only depends on how far the broadcasts have come. */
  lemma {:induction false} LinkSame(cfg: Config, root: Root, root': Root, j: nat, rv: Receiver)
    requires cfg.Valid() && Link(cfg, root, j, rv)
    requires Begun(root') == Begun(root) && SentTo(cfg, root', j) == SentTo(cfg, root, j)
    ensures Link(cfg, root', j, rv)
  {
    hide ReceiverInv;
  }

  lemma {:induction false} PushStepKeeps(cfg: Config, s: State, j: nat)
    requires cfg.Valid() && Inv(cfg, s) && Enabled(cfg, s, PushByte(j))
    ensures
      var s' := Next(cfg, s, PushByte(j));
      RootInv(cfg, s'.root) && Link(cfg, s'.root, j, s'.receivers[j])
  {
    hide MetasInv, WiresInv, Delivered;
    PushKeeps(cfg, s.root, j, s.receivers[j]);
  }

  lemma {:induction false} NextInv(cfg: Config, s: State, a: Action)
    requires cfg.Valid() && Inv(cfg, s) && Enabled(cfg, s, a)
    ensures Inv(cfg, Next(cfg, s, a))
  {
    hide ReceiverInv, MetasInv, WiresInv;
    var s' := Next(cfg, s, a);
    match a {
      case RootStep => RootKeeps(cfg, s.root);
      case BeginBroadcast =>
      case PushByte(j) => PushStepKeeps(cfg, s, j);
      case ReceiverStep(j) => StepKeeps(cfg, s.root, j, s.receivers[j]);
      case TakeMetadata(j) => TakeMetaKeeps(cfg, s.root, j, s.receivers[j]);
      case TakeByte(j) => TakeKeeps(cfg, s.root, j, s.receivers[j]);
    }
    forall i | 0 <= i < |s'.receivers|
      ensures Link(cfg, s'.root, i, s'.receivers[i])
    {
      if a.RootStep? || (a.PushByte? && i != a.to) { LinkSame(cfg, s.root, s'.root, i, s.receivers[i]); }
      if a.BeginBroadcast? { BeginKeeps(cfg, s.root, i, s.receivers[i]); }
    }
  }

  lemma {:induction false} RunInv(cfg: Config, s: State, run: seq<Action>)
    requires cfg.Valid() && Inv(cfg, s) && IsRun(cfg, s, run)
    ensures Inv(cfg, After(cfg, s, run))
    decreases |run|
  {
    if run == [] {
    } else {
      NextInv(cfg, s, run[0]);
      RunInv(cfg, Next(cfg, s, run[0]), run[1..]);
    }
  }

  // ---------------------------------------------------------------- theorems

  /**
   In every reachable state every receiver has yielded a prefix of rank 0's chunks with rank 0's
   bytes and metadata, and one that is done has yielded all of them; no slice leaves its buffer.
   */
  lemma {:induction false} BroadcastSafety(cfg: Config, run: seq<Action>, j: nat)
    requires cfg.Valid() && IsRun(cfg, Init(cfg), run) && j < |After(cfg, Init(cfg), run).receivers|
    ensures
      var rv := After(cfg, Init(cfg), run).receivers[j];
      && !rv.phase.Failed? && rv.yielded <= UnpackAll(cfg.buckets)
      && (rv.phase.Done? ==> rv.yielded == UnpackAll(cfg.buckets))
  {
    InitInv(cfg);
    RunInv(cfg, Init(cfg), run);
    var rv := After(cfg, Init(cfg), run).receivers[j];
    assert Link(cfg, After(cfg, Init(cfg), run).root, j, rv);
    DeliveredPrefix(cfg, DoneBuckets(rv), DoneChunks(rv));
  }

  /**
   For weights with distinct names, every receiver that reaches the end of any run hands over exactly
   the weights that were sent, up to those without bytes.
   */
  lemma {:induction false} BroadcastDeliversWeights(cfg: Config, weights: seq<Weight>, run: seq<Action>, j: nat, memory: Memory)
    requires 0 < cfg.size && DistinctNames(weights) && (forall w <- weights :: w.Valid()) && 2 <= cfg.ranks
    requires Pack(EMPTY, SplitAll(weights, cfg.size), cfg.size) == Success(cfg.buckets)
    requires IsRun(cfg, Init(cfg), run) && j < |After(cfg, Init(cfg), run).receivers|
    requires After(cfg, Init(cfg), run).receivers[j].phase.Done?
    ensures MergeAll(After(cfg, Init(cfg), run).receivers[j].yielded, cfg.size, memory) ==
      if WellPlaced(weights, cfg.size) then Success(NonEmpty(weights)) else Failure(MisalignedView)
  {
    hide SplitAll, Pack, UnpackAll, MergeAll, Next, Enabled, NonEmpty, WellPlaced;
    PipelineRoundTrip(weights, cfg.size, memory);
    PackedIsValid(cfg, weights, memory);
    BroadcastSafety(cfg, run, j);
  }

  lemma {:induction false} RootWrites(cfg: Config, s: State, a: Action)
    requires RootShape(cfg, s.root) && Enabled(cfg, s, a) && s.root.op.Some? && s.root.op.value.buf != s.root.send
    ensures Next(cfg, s, a).root.bufs[s.root.op.value.buf] == s.root.bufs[s.root.op.value.buf]
  {
  }

  lemma {:induction false} ReceiverWrites(cfg: Config, s: State, a: Action, j: nat)
    requires Enabled(cfg, s, a) && j < |s.receivers| && Shape(cfg, s.receivers[j])
    requires s.receivers[j].op.Some? ==> s.receivers[j].op.value.buf != s.receivers[j].send
    ensures
      var rv, s' := s.receivers[j], Next(cfg, s, a);
      |s'.receivers| == |s.receivers| && |s'.receivers[j].bufs| == 2 && s'.receivers[j].bufs[rv.send] == rv.bufs[rv.send]
  {
  }

  /** Rank 0 never writes the buffer of an outstanding broadcast. */
  lemma {:induction false} RootOwnership(cfg: Config, run: seq<Action>, a: Action)
    requires cfg.Valid() && IsRun(cfg, Init(cfg), run) && Enabled(cfg, After(cfg, Init(cfg), run), a)
    ensures
      var s, s' := After(cfg, Init(cfg), run), Next(cfg, After(cfg, Init(cfg), run), a);
      s.root.op.Some? ==>
        var b := s.root.op.value.buf;
        b < |s.root.bufs| && b < |s'.root.bufs| && b != s.root.send && s'.root.bufs[b] == s.root.bufs[b]
  {
    InitInv(cfg);
    RunInv(cfg, Init(cfg), run);
    var s := After(cfg, Init(cfg), run);
    if s.root.op.Some? { RootWrites(cfg, s, a); }
  }

  /** No receiver receives into the buffer that it yields from, and no step changes that buffer. */
  lemma {:induction false} ReceiverOwnership(cfg: Config, run: seq<Action>, a: Action, j: nat)
    requires cfg.Valid() && IsRun(cfg, Init(cfg), run) && Enabled(cfg, After(cfg, Init(cfg), run), a)
    requires j < |After(cfg, Init(cfg), run).receivers|
    ensures
      var s, s' := After(cfg, Init(cfg), run), Next(cfg, After(cfg, Init(cfg), run), a);
      && |s'.receivers| == |s.receivers| && s.receivers[j].send < |s.receivers[j].bufs| == |s'.receivers[j].bufs|
      && s'.receivers[j].bufs[s.receivers[j].send] == s.receivers[j].bufs[s.receivers[j].send]
      && (s.receivers[j].op.Some? ==> s.receivers[j].op.value.buf != s.receivers[j].send)
  {
    InitInv(cfg);
    RunInv(cfg, Init(cfg), run);
    var s := After(cfg, Init(cfg), run);
    assert Link(cfg, s.root, j, s.receivers[j]);
    ReceiverWrites(cfg, s, a, j);
  }

  lemma {:induction false} RootProgress(cfg: Config, s: State)
    requires cfg.Valid() && Inv(cfg, s) && !s.root.phase.Finished?
    ensures exists a :: Enabled(cfg, s, a)
  {
    if RootReady(cfg, s.root) {
      assert Enabled(cfg, s, RootStep);
    } else if !s.root.op.value.begun {
      assert Enabled(cfg, s, BeginBroadcast);
    } else {
      var j :| 0 <= j < |s.root.op.value.sent| && s.root.op.value.sent[j] != cfg.size;
      assert Link(cfg, s.root, j, s.receivers[j]);
      assert Enabled(cfg, s, PushByte(j));
    }
  }

  lemma {:induction false} ReceiverProgress(cfg: Config, s: State, j: nat)
    requires cfg.Valid() && Inv(cfg, s) && s.root.phase.Finished? && j < |s.receivers| && !s.receivers[j].phase.Done?
    ensures exists a :: Enabled(cfg, s, a)
  {
    var rv := s.receivers[j];
    assert Link(cfg, s.root, j, rv);
    if Ready(cfg, rv) {
      assert Enabled(cfg, s, ReceiverStep(j));
    } else if rv.op.value.metadata.None? {
      assert Enabled(cfg, s, TakeMetadata(j));
    } else {
      assert Enabled(cfg, s, TakeByte(j));
    }
  }

  /** As long as rank 0 or some receiver is not done, something can happen. */
  lemma {:induction false} BroadcastProgress(cfg: Config, run: seq<Action>)
    requires cfg.Valid() && IsRun(cfg, Init(cfg), run)
    requires
      var s := After(cfg, Init(cfg), run);
      !s.root.phase.Finished? || exists j :: 0 <= j < |s.receivers| && !s.receivers[j].phase.Done?
    ensures exists a :: Enabled(cfg, After(cfg, Init(cfg), run), a)
  {
    var s := After(cfg, Init(cfg), run);
    InitInv(cfg);
    RunInv(cfg, Init(cfg), run);
    if !s.root.phase.Finished? {
      RootProgress(cfg, s);
    } else {
      var j :| 0 <= j < |s.receivers| && !s.receivers[j].phase.Done?;
      ReceiverProgress(cfg, s, j);
    }
  }

  // ---------------------------------------------------------------- the end of a run

  /** When rank 0 and the receivers are done, no operation is outstanding and nothing is left in the channels. */
  lemma {:induction false} BroadcastEndsClean(cfg: Config, run: seq<Action>, j: nat)
    requires cfg.Valid() && IsRun(cfg, Init(cfg), run) && j < |After(cfg, Init(cfg), run).receivers|
    requires
      var s := After(cfg, Init(cfg), run);
      s.root.phase.Finished? && s.receivers[j].phase.Done?
    ensures
      var s := After(cfg, Init(cfg), run);
      && s.root.op.None? && s.receivers[j].op.None?
      && s.receivers[j].metas == [] && s.receivers[j].wires == []
  {
    var s := After(cfg, Init(cfg), run);
    InitInv(cfg);
    RunInv(cfg, Init(cfg), run);
    assert Link(cfg, s.root, j, s.receivers[j]);
    hide Holds, Delivered;
  }
}
