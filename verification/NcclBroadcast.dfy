/**
 The broadcast transport (checkpoint_engine/nccl_checkpoint_engine.py) as a state machine. Rank 0
 fills one buffer while a background operation broadcasts the other; every receiver hands over one
 buffer while a background operation receives into the other. Operations pair up in the order in
 which they are launched, metadata and bytes travel through FIFO channels, and every byte of every
 channel moves in a step of its own, so a receiver may lag behind rank 0 by any number of bytes.
 */
module NcclBroadcast {
  import opened Wrappers
  import opened WeightChunks
  import opened BucketPacking
  import opened DoubleBuffer

  /** Rank 0's `BroadcastOperation`: `begun` once the metadata is out, `sent` bytes to each receiver. */
  datatype Broadcast = Broadcast(buf: nat, metadata: Metadata, begun: bool, sent: seq<nat>)

  datatype RootPhase = Fill(pos: nat) | AwaitPrevious | Launch | Finished

  datatype Root = Root(phase: RootPhase, bufs: seq<seq<Byte>>, send: nat, rounds: nat, op: Option<Broadcast>)

  /** A receiver's `BroadcastOperation`. */
  datatype Reception = Reception(buf: nat, metadata: Option<Metadata>, received: nat)

  datatype Phase = Start | Yield(pos: nat) | AwaitOp | Done | Failed

  /** A receiver and the two channels that lead to it; `wires` holds the bytes of one operation each. */
  datatype Receiver = Receiver(
    phase: Phase, bufs: seq<seq<Byte>>, send: nat, rounds: nat, metadata: Metadata, op: Option<Reception>,
    metas: seq<Metadata>, wires: seq<seq<Byte>>, yielded: seq<Chunk>)

  datatype State = State(root: Root, receivers: seq<Receiver>)

  datatype Action =
    | RootStep | BeginBroadcast | PushByte(to: nat)
    | ReceiverStep(at: nat) | TakeMetadata(at: nat) | TakeByte(at: nat)

  ghost predicate RootShape(cfg: Config, root: Root) {
    && |root.bufs| == 2 && |root.bufs[0]| == |root.bufs[1]| == cfg.size && root.send < 2
    && (root.phase.Fill? || root.phase.Launch? ==> root.rounds < |cfg.buckets|)
    && (root.phase.Fill? ==> |cfg.buckets[root.rounds].data| <= cfg.size)
    && (root.op.Some? ==> root.op.value.buf < 2)
  }

  ghost predicate Shape(cfg: Config, rv: Receiver) {
    && |rv.bufs| == 2 && |rv.bufs[0]| == |rv.bufs[1]| == cfg.size && rv.send < 2
    && (rv.op.Some? ==> rv.op.value.buf < 2 && rv.op.value.received <= cfg.size)
  }

  // ---------------------------------------------------------------- rank 0

  predicate Complete(cfg: Config, op: Broadcast) {
    op.begun && forall j :: 0 <= j < |op.sent| ==> op.sent[j] == cfg.size
  }

  predicate RootReady(cfg: Config, root: Root) {
    root.phase.Fill? || root.phase.Launch? || (root.phase.AwaitPrevious? && (root.op.None? || Complete(cfg, root.op.value)))
  }

  function StepRoot(cfg: Config, root: Root): Root
    requires RootShape(cfg, root) && RootReady(cfg, root) && 0 < cfg.ranks
  {
    match root.phase
    case Fill(pos) =>
      var data := cfg.buckets[root.rounds].data;
      if pos < |data| then root.(bufs := WriteByte(root.bufs, root.send, pos, data[pos]), phase := Fill(pos + 1))
      else root.(phase := AwaitPrevious)
    case AwaitPrevious => root.(op := None, phase := if root.rounds < |cfg.buckets| then Launch else Finished)
    case Launch =>
      var op := Broadcast(root.send, cfg.Meta(root.rounds), false, seq(cfg.ranks - 1, _ => 0));
      root.(op := Some(op), send := 1 - root.send, rounds := root.rounds + 1,
            phase := if root.rounds + 1 < |cfg.buckets| then Fill(0) else AwaitPrevious)
  }

  // ---------------------------------------------------------------- receivers

  predicate Ready(cfg: Config, rv: Receiver) {
    || rv.phase.Start? || rv.phase.Yield?
    || (rv.phase.AwaitOp? && rv.op.Some? && rv.op.value.metadata.Some? && rv.op.value.received == cfg.size)
  }

  function StepReceiver(cfg: Config, rv: Receiver): Receiver
    requires Shape(cfg, rv) && Ready(cfg, rv)
  {
    match rv.phase
    case Start =>
      rv.(op := Some(Reception(1 - rv.send, None, 0)), phase := if rv.rounds == 0 then AwaitOp else Yield(0))
    case Yield(pos) =>
      if |rv.metadata.metas| <= pos then rv.(phase := if rv.metadata.isLast then Done else AwaitOp)
      else
        var m := rv.metadata.metas[pos];
        if m.offset.None? || cfg.size < m.offset.value + m.chunkSize then rv.(phase := Failed)
        else rv.(yielded := rv.yielded + [ReadChunk(rv.bufs[rv.send], m)], phase := Yield(pos + 1))
    case AwaitOp =>
      var metadata := rv.op.value.metadata.value;
      rv.(metadata := metadata, op := None, wires := if rv.wires == [] then [] else rv.wires[1..],
          send := 1 - rv.send, rounds := rv.rounds + 1, phase := if metadata.isLast then Yield(0) else Start)
  }

  // ---------------------------------------------------------------- the group

  ghost predicate Enabled(cfg: Config, s: State, a: Action) {
    && RootShape(cfg, s.root) && 0 < cfg.ranks
    && match a
       case RootStep => RootReady(cfg, s.root)
       case BeginBroadcast => s.root.op.Some? && !s.root.op.value.begun
       case PushByte(j) =>
         && j < |s.receivers| && s.root.op.Some? && s.root.op.value.begun && j < |s.root.op.value.sent|
         && s.root.op.value.sent[j] < cfg.size && s.receivers[j].wires != []
       case ReceiverStep(j) => j < |s.receivers| && Shape(cfg, s.receivers[j]) && Ready(cfg, s.receivers[j])
       case TakeMetadata(j) =>
         && j < |s.receivers| && s.receivers[j].op.Some? && s.receivers[j].op.value.metadata.None?
         && s.receivers[j].metas != []
       case TakeByte(j) =>
         && j < |s.receivers| && Shape(cfg, s.receivers[j]) && s.receivers[j].op.Some?
         && s.receivers[j].op.value.metadata.Some? && s.receivers[j].wires != []
         && s.receivers[j].op.value.received < |s.receivers[j].wires[0]| && s.receivers[j].op.value.received < cfg.size
  }

  function Begin(rv: Receiver, metadata: Metadata): Receiver {
    rv.(metas := rv.metas + [metadata], wires := rv.wires + [[]])
  }

  function Push(rv: Receiver, b: Byte): Receiver
    requires rv.wires != []
  {
    var last := |rv.wires| - 1;
    rv.(wires := rv.wires[last := rv.wires[last] + [b]])
  }

  function TakeMeta(rv: Receiver): Receiver
    requires rv.op.Some? && rv.metas != []
  {
    rv.(op := Some(rv.op.value.(metadata := Some(rv.metas[0]))), metas := rv.metas[1..])
  }

  function Take(cfg: Config, rv: Receiver): Receiver
    requires Shape(cfg, rv) && rv.op.Some? && rv.wires != [] && rv.op.value.received < |rv.wires[0]|
    requires rv.op.value.received < cfg.size
  {
    var op := rv.op.value;
    rv.(bufs := WriteByte(rv.bufs, op.buf, op.received, rv.wires[0][op.received]),
        op := Some(op.(received := op.received + 1)))
  }

  function Next(cfg: Config, s: State, a: Action): State
    requires Enabled(cfg, s, a)
  {
    match a
    case RootStep => s.(root := StepRoot(cfg, s.root))
    case BeginBroadcast =>
      var op := s.root.op.value;
      State(s.root.(op := Some(op.(begun := true))),
            seq(|s.receivers|, j requires 0 <= j < |s.receivers| => Begin(s.receivers[j], op.metadata)))
    case PushByte(j) =>
      var op := s.root.op.value;
      State(s.root.(op := Some(op.(sent := op.sent[j := op.sent[j] + 1]))),
            s.receivers[j := Push(s.receivers[j], s.root.bufs[op.buf][op.sent[j]])])
    case ReceiverStep(j) => s.(receivers := s.receivers[j := StepReceiver(cfg, s.receivers[j])])
    case TakeMetadata(j) => s.(receivers := s.receivers[j := TakeMeta(s.receivers[j])])
    case TakeByte(j) => s.(receivers := s.receivers[j := Take(cfg, s.receivers[j])])
  }

  function InitReceiver(cfg: Config): Receiver {
    Receiver(Start, [Zeros(cfg.size), Zeros(cfg.size)], 0, 0, Metadata([], false), None, [], [], [])
  }

  function Init(cfg: Config): State
    requires 0 < cfg.ranks
  {
    State(Root(Fill(0), [Zeros(cfg.size), Zeros(cfg.size)], 0, 0, None), seq(cfg.ranks - 1, _ => InitReceiver(cfg)))
  }

  ghost predicate IsRun(cfg: Config, s: State, run: seq<Action>)
    decreases |run|
  {
    run == [] || (Enabled(cfg, s, run[0]) && IsRun(cfg, Next(cfg, s, run[0]), run[1..]))
  }

  ghost function After(cfg: Config, s: State, run: seq<Action>): State
    requires IsRun(cfg, s, run)
    decreases |run|
  {
    if run == [] then s else After(cfg, Next(cfg, s, run[0]), run[1..])
  }
}
