/**
 The chain transport (checkpoint_engine/nixl_checkpoint_engine.py) as a state machine. Rank 0 fills
 buckets; every other rank reads each bucket out of the memory of the rank before it and publishes
 its own copy to the rank after it. A read is not atomic: the transfer engine copies one byte at a
 time while both ranks go on running.
 */
module NixlChain {
  import opened Wrappers
  import opened WeightChunks
  import opened BucketPacking
  import opened DoubleBuffer

  /** `notify_key`, the descriptor of the readable buffer, and the bucket's metadata. */
  datatype Message = Message(key: nat, src: nat, metadata: Metadata)

  /** A `ReadableOperation` whose completion has not been awaited. */
  datatype Readable = Readable(key: nat, buf: nat)

  /** A `ReadOperation` after `begin_read`. */
  datatype Transfer = Transfer(key: nat, src: nat, dst: nat, copied: nat, done: bool)

  datatype Phase =
    | Fill(pos: nat)      // rank 0 copies chunks into send_buf
    | Publish
    | AwaitMetadata
    | BeginRead
    | Yield(pos: nat)     // chunks of send_buf are handed to the consumer
    | AwaitAck
    | AwaitRead
    | Done
    | Failed              // an assert has fired

  /**
   The locals of one rank. `rounds` counts the buffer swaps, `published` the operations created so
   far and stands for the fresh key of the next one. `outbox` and `notifs` are the two queues
   between this rank and the next: metadata not yet read, and read notifications not yet awaited.
   */
  datatype Rank = Rank(
    phase: Phase, bufs: seq<seq<Byte>>, send: nat, rounds: nat, published: nat, metadata: Metadata,
    next: Option<Message>, readable: Option<Readable>, read: Option<Transfer>,
    outbox: seq<Message>, notifs: seq<nat>, yielded: seq<Chunk>)

  type State = seq<Rank>

  /** The well-formedness that Python's references give for free. */
  ghost predicate Shape(cfg: Config, rk: Rank) {
    && |rk.bufs| == 2 && |rk.bufs[0]| == |rk.bufs[1]| == cfg.size && rk.send < 2
    && (rk.phase.Fill? || rk.phase.Publish? ==> rk.rounds <= |cfg.buckets|)
    && (rk.phase.Fill? ==> rk.rounds < |cfg.buckets| && |cfg.buckets[rk.rounds].data| <= cfg.size)
    && (rk.phase.BeginRead? || rk.phase.AwaitRead? ==> rk.next.Some?)
    && (rk.next.Some? ==> rk.next.value.src < 2)
    && (rk.read.Some? ==> rk.read.value.src < 2 && rk.read.value.dst < 2 && rk.read.value.copied <= cfg.size)
  }

  function Swap(rk: Rank): Rank
    requires rk.send < 2
  {
    rk.(send := 1 - rk.send, rounds := rk.rounds + 1)
  }

  /** Creating a `ReadableOperation` on `send_buf` sends the metadata to the next rank. */
  function CreateReadable(rk: Rank, metadata: Metadata): Rank {
    rk.(readable := Some(Readable(rk.published, rk.send)),
        outbox := rk.outbox + [Message(rk.published, rk.send, metadata)],
        published := rk.published + 1)
  }

  // ---------------------------------------------------------------- one statement of one rank

  function StepFill(cfg: Config, rk: Rank): Rank
    requires Shape(cfg, rk) && rk.phase.Fill?
  {
    var data, pos := cfg.buckets[rk.rounds].data, rk.phase.pos;
    if pos < |data| then rk.(bufs := WriteByte(rk.bufs, rk.send, pos, data[pos]), phase := Fill(pos + 1))
    else rk.(phase := AwaitAck)
  }

  function StepPublish(cfg: Config, r: nat, rk: Rank): Rank
    requires Shape(cfg, rk) && rk.phase.Publish? && (r == 0 ==> rk.rounds < |cfg.buckets|)
  {
    if r == 0 then
      var sent := Swap(CreateReadable(rk, cfg.Meta(rk.rounds)));
      sent.(phase := if sent.rounds < |cfg.buckets| then Fill(0) else AwaitAck)
    else
      var sent := if r + 1 < cfg.ranks then CreateReadable(rk, rk.metadata) else rk;
      sent.(phase := if rk.metadata.isLast then Yield(0) else AwaitMetadata)
  }

  function StepBeginRead(cfg: Config, rk: Rank): Rank
    requires Shape(cfg, rk) && rk.phase.BeginRead?
  {
    var m := rk.next.value;
    rk.(read := Some(Transfer(m.key, m.src, 1 - rk.send, 0, false)),
        phase := if rk.rounds == 0 then AwaitRead else Yield(0))
  }

  function StepYield(cfg: Config, rk: Rank): Rank
    requires Shape(cfg, rk) && rk.phase.Yield?
  {
    var pos := rk.phase.pos;
    if |rk.metadata.metas| <= pos then rk.(phase := AwaitAck)
    else
      var m := rk.metadata.metas[pos];
      if m.offset.None? || cfg.size < m.offset.value + m.chunkSize then rk.(phase := Failed)
      else rk.(yielded := rk.yielded + [ReadChunk(rk.bufs[rk.send], m)], phase := Yield(pos + 1))
  }

  predicate AckReady(rk: Rank) {
    rk.readable.None? || rk.notifs != []
  }

  /** `wait_for_complete` of the outstanding `ReadableOperation`, with its assert on the key. */
  function StepAwaitAck(cfg: Config, r: nat, rk: Rank): Rank
    requires rk.phase.AwaitAck? && AckReady(rk)
  {
    if rk.readable.Some? && rk.notifs[0] != rk.readable.value.key then rk.(phase := Failed)
    else
      var acked := if rk.readable.None? then rk else rk.(readable := None, notifs := rk.notifs[1..]);
      acked.(phase := if r == 0 then (if rk.rounds < |cfg.buckets| then Publish else Done)
                      else if rk.metadata.isLast then Done else AwaitRead)
  }

  function StepAwaitRead(cfg: Config, rk: Rank): Rank
    requires Shape(cfg, rk) && rk.phase.AwaitRead?
  {
    Swap(rk.(metadata := rk.next.value.metadata, next := None, read := None, phase := Publish))
  }

  /** Whether the next statement of rank `r` that touches no other rank can run. */
  predicate LocalReady(cfg: Config, r: nat, rk: Rank) {
    match rk.phase
    case Fill(_) => true
    case Publish => r == 0 ==> rk.rounds < |cfg.buckets|
    case BeginRead => true
    case Yield(_) => true
    case AwaitAck => AckReady(rk)
    case AwaitRead => rk.read.Some? && rk.read.value.done
    case _ => false
  }

  function LocalStep(cfg: Config, r: nat, rk: Rank): Rank
    requires Shape(cfg, rk) && LocalReady(cfg, r, rk)
  {
    match rk.phase
    case Fill(_) => StepFill(cfg, rk)
    case Publish => StepPublish(cfg, r, rk)
    case BeginRead => StepBeginRead(cfg, rk)
    case Yield(_) => StepYield(cfg, rk)
    case AwaitAck => StepAwaitAck(cfg, r, rk)
    case AwaitRead => StepAwaitRead(cfg, rk)
  }

  // ---------------------------------------------------------------- the chain

  /** Everything that can happen next, in any order. */
  datatype Action =
    | Advance(rank: nat)      // the rank executes its next statement
    | Receive(rank: nat)      // the rank takes the metadata sent by the rank before it
    | CopyByte(rank: nat)     // the transfer into the rank moves one byte
    | FinishRead(rank: nat)   // the transfer into the rank ends and notifies the rank before it

  /** Whether `rk` can take a message from, or move bytes out of, the rank before it. */
  ghost predicate PairEnabled(cfg: Config, prev: Rank, rk: Rank, a: Action) {
    && Shape(cfg, prev) && Shape(cfg, rk)
    && match a
       case Advance(_) => false
       case Receive(_) => rk.phase.AwaitMetadata? && prev.outbox != []
       case CopyByte(_) => rk.read.Some? && !rk.read.value.done && rk.read.value.copied < cfg.size
       case FinishRead(_) => rk.read.Some? && !rk.read.value.done && rk.read.value.copied == cfg.size
  }

  ghost predicate Enabled(cfg: Config, s: State, a: Action) {
    && a.rank < |s|
    && if a.Advance? then Shape(cfg, s[a.rank]) && LocalReady(cfg, a.rank, s[a.rank])
       else 0 < a.rank && PairEnabled(cfg, s[a.rank - 1], s[a.rank], a)
  }

  function Copied(cfg: Config, rk: Rank, source: Rank): Rank
    requires Shape(cfg, rk) && Shape(cfg, source) && rk.read.Some? && rk.read.value.copied < cfg.size
  {
    var t := rk.read.value;
    rk.(bufs := WriteByte(rk.bufs, t.dst, t.copied, source.bufs[t.src][t.copied]),
        read := Some(t.(copied := t.copied + 1)))
  }

  function NextPair(cfg: Config, prev: Rank, rk: Rank, a: Action): (Rank, Rank)
    requires PairEnabled(cfg, prev, rk, a)
  {
    match a
    case Receive(_) =>
      (prev.(outbox := prev.outbox[1..]), rk.(next := Some(prev.outbox[0]), phase := BeginRead))
    case CopyByte(_) => (prev, Copied(cfg, rk, prev))
    case FinishRead(_) =>
      (prev.(notifs := prev.notifs + [rk.read.value.key]), rk.(read := Some(rk.read.value.(done := true))))
  }

  function Next(cfg: Config, s: State, a: Action): State
    requires Enabled(cfg, s, a)
  {
    var r := a.rank;
    if a.Advance? then s[r := LocalStep(cfg, r, s[r])]
    else
      var (prev, rk) := NextPair(cfg, s[r - 1], s[r], a);
      s[r - 1 := prev][r := rk]
  }

  function InitRank(cfg: Config, r: nat): Rank {
    Rank(if r == 0 then Fill(0) else AwaitMetadata, [Zeros(cfg.size), Zeros(cfg.size)], 0, 0, 0, Metadata([], false),
         None, None, None, [], [], [])
  }

  function Init(cfg: Config): (s: State)
    ensures |s| == cfg.ranks
  {
    seq(cfg.ranks, r requires 0 <= r < cfg.ranks => InitRank(cfg, r))
  }

  /** `run` can happen from `s`. */
  ghost predicate IsRun(cfg: Config, s: State, run: seq<Action>)
    decreases |run|
  {
    run == [] || (Enabled(cfg, s, run[0]) && IsRun(cfg, Next(cfg, s, run[0]), run[1..]))
  }

  ghost function After(cfg: Config, s: State, run: seq<Action>): State
    requires IsRun(cfg, s, run)
    decreases |run|
  {
    if run == [] then s else After(cfg, Next(cfg, s, run[0]), run[1..])
  }

  ghost predicate AllDone(s: State) {
    forall r :: 0 <= r < |s| ==> s[r].phase.Done?
  }
}
