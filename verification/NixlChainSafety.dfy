/** What every reachable state of the chain transport satisfies, for every number of ranks and every schedule. */
module NixlChainSafety {
  import opened Wrappers
  import opened BucketPacking
  import opened DoubleBuffer
  import opened NixlChain

  // ---------------------------------------------------------------- where a rank is

  /** The buffer in which rank `r` holds bucket `i`. */
  function BufOf(r: nat, i: nat): (b: nat)
    ensures b < 2
  {
    if r == 0 then i % 2 else (i + 1) % 2
  }

  /** How many messages a receiver has taken from the rank before it. */
  function Taken(cfg: Config, rk: Rank): nat {
    rk.rounds + if rk.next.Some? then 1 else 0
  }

  /** How many of its reads have finished. */
  function Finished(rk: Rank): nat {
    rk.rounds + if rk.read.Some? && rk.read.value.done then 1 else 0
  }

  /** How many of its publications rank `r` has awaited. */
  function Acked(rk: Rank): nat
    requires rk.readable.Some? ==> 0 < rk.published
  {
    rk.published - if rk.readable.Some? then 1 else 0
  }

  /** Control points that are consistent with the number of rounds. */
  ghost predicate Position(cfg: Config, r: nat, rk: Rank) {
    var m := |cfg.buckets|;
    && rk.rounds <= m
    && match rk.phase
       case Fill(pos) => r == 0 && rk.rounds < m && pos <= |cfg.buckets[rk.rounds].data|
       case Publish => if r == 0 then rk.rounds < m else 0 < rk.rounds
       case AwaitMetadata => 0 < r && rk.rounds < m
       case BeginRead => 0 < r && rk.rounds < m
       case Yield(pos) => 0 < r && 0 < rk.rounds && pos <= |cfg.buckets[rk.rounds - 1].metas|
       case AwaitAck => 0 < r ==> 0 < rk.rounds
       case AwaitRead => 0 < r && rk.rounds < m
       case Done => rk.rounds == m
       case Failed => false
  }

  /** How many publications rank `r` has made when it stands at its control point. */
  function PublishedAt(cfg: Config, r: nat, rk: Rank): int {
    if r + 1 == cfg.ranks then 0 else if 0 < r && rk.phase.Publish? then rk.rounds - 1 else rk.rounds
  }

  /** Whether rank `r` has an operation that it has not awaited. */
  predicate Outstanding(cfg: Config, r: nat, rk: Rank) {
    && r + 1 < cfg.ranks && 0 < rk.rounds
    && if r == 0 then rk.phase.Fill? || rk.phase.AwaitAck?
       else rk.phase.AwaitMetadata? || rk.phase.BeginRead? || rk.phase.Yield? || rk.phase.AwaitAck?
  }

  /** Whether the rank holds the next bucket's metadata, and whether its transfer has begun. */
  predicate HoldsNext(cfg: Config, rk: Rank) {
    || rk.phase.BeginRead? || rk.phase.AwaitRead?
    || ((rk.phase.Yield? || (rk.phase.AwaitAck? && 0 < rk.rounds)) && rk.rounds < |cfg.buckets|)
  }

  ghost predicate Locals(cfg: Config, r: nat, rk: Rank)
    requires Position(cfg, r, rk)
  {
    && rk.send == rk.rounds % 2
    && rk.published == PublishedAt(cfg, r, rk)
    && (r + 1 == cfg.ranks ==> rk.outbox == [] && rk.notifs == [])
    && rk.readable == (if Outstanding(cfg, r, rk) then Some(Readable(rk.published - 1, BufOf(r, rk.rounds - 1))) else None)
    && (0 < r && 0 < rk.rounds ==> rk.metadata == cfg.Meta(rk.rounds - 1))
    && rk.next == (if 0 < r && HoldsNext(cfg, rk)
                   then Some(Message(rk.rounds, BufOf(r - 1, rk.rounds), cfg.Meta(rk.rounds))) else None)
    && (rk.read.Some? <==> rk.next.Some? && !rk.phase.BeginRead?)
    && (rk.read.Some? ==>
          var t := rk.read.value;
          && t.key == rk.rounds && t.src == BufOf(r - 1, rk.rounds) && t.dst == 1 - rk.send
          && t.copied <= cfg.size && (t.done ==> t.copied == cfg.size))
  }

  ghost predicate Buffers(cfg: Config, r: nat, rk: Rank)
    requires Position(cfg, r, rk)
  {
    && |rk.bufs| == 2 && |rk.bufs[0]| == |rk.bufs[1]| == cfg.size && rk.send < 2
    && (r == 0 && rk.phase.Fill? ==> Holds(rk.bufs[rk.send], cfg.buckets[rk.rounds].data, rk.phase.pos))
    && (r == 0 && !rk.phase.Fill? && rk.rounds < |cfg.buckets| ==>
          Holds(rk.bufs[rk.send], cfg.buckets[rk.rounds].data, cfg.size))
    && (r == 0 && 0 < rk.rounds ==> Holds(rk.bufs[1 - rk.send], cfg.buckets[rk.rounds - 1].data, cfg.size))
    && (0 < r && 0 < rk.rounds ==> Holds(rk.bufs[rk.send], cfg.buckets[rk.rounds - 1].data, cfg.size))
    && (rk.read.Some? && rk.read.value.dst < 2 && rk.rounds < |cfg.buckets| ==>
          Holds(rk.bufs[rk.read.value.dst], cfg.buckets[rk.rounds].data, rk.read.value.copied))
  }

  /** How many buckets a receiver has handed over completely, and how many chunks of the next one. */
  function DoneBuckets(rk: Rank): nat {
    if rk.rounds == 0 then 0
    else if rk.phase.AwaitAck? || rk.phase.AwaitRead? || rk.phase.Done? then rk.rounds else rk.rounds - 1
  }

  function DoneChunks(rk: Rank): nat {
    if rk.phase.Yield? then rk.phase.pos else 0
  }

  /** Control point, locals and memory of a rank agree. */
  ghost predicate PlaceInv(cfg: Config, r: nat, rk: Rank)
    requires cfg.Valid()
  {
    Position(cfg, r, rk) && Locals(cfg, r, rk) && Buffers(cfg, r, rk)
  }

  /** Besides, a receiver has yielded exactly the chunks up to its control point. */
  ghost predicate RankInv(cfg: Config, r: nat, rk: Rank)
    requires cfg.Valid()
  {
    PlaceInv(cfg, r, rk) && (0 < r ==> rk.yielded == Delivered(cfg, DoneBuckets(rk), DoneChunks(rk)))
  }

  /** The two queues between a rank and the next one hold exactly what is in flight. */
  ghost predicate LinkInv(cfg: Config, r: nat, a: Rank, b: Rank) {
    && (a.readable.Some? ==> 0 < a.published)
    && Acked(a) <= Finished(b) <= Taken(cfg, b) <= a.published <= |cfg.buckets|
    && a.outbox == (if Taken(cfg, b) < a.published
                    then [Message(Taken(cfg, b), BufOf(r, Taken(cfg, b)), cfg.Meta(Taken(cfg, b)))] else [])
    && a.notifs == (if Acked(a) < Finished(b) then [Acked(a)] else [])
  }

  /** Every element satisfies `p`, every two neighbours satisfy `l`. */
  ghost predicate Chained<T(!new)>(s: seq<T>, p: (nat, T) -> bool, l: (nat, T, T) -> bool) {
    && (forall i :: 0 <= i < |s| ==> p(i, s[i]))
    && (forall i :: 0 <= i < |s| - 1 ==> l(i, s[i], s[i + 1]))
  }

  lemma {:induction false} ChainedUpdate<T(!new)>(s: seq<T>, r: nat, a: T, p: (nat, T) -> bool, l: (nat, T, T) -> bool)
    requires Chained(s, p, l) && r < |s| && p(r, a)
    requires 0 < r ==> l(r - 1, s[r - 1], a)
    requires r + 1 < |s| ==> l(r, a, s[r + 1])
    ensures Chained(s[r := a], p, l)
  {
  }

  lemma {:induction false} ChainedUpdatePair<T(!new)>(s: seq<T>, r: nat, a: T, b: T, p: (nat, T) -> bool, l: (nat, T, T) -> bool)
    requires Chained(s, p, l) && r + 1 < |s| && p(r, a) && p(r + 1, b) && l(r, a, b)
    requires 0 < r ==> l(r - 1, s[r - 1], a)
    requires r + 2 < |s| ==> l(r + 1, b, s[r + 2])
    ensures Chained(s[r := a][r + 1 := b], p, l)
  {
  }

  ghost function AtRank(cfg: Config): (nat, Rank) -> bool {
    (r: nat, rk: Rank) => cfg.Valid() && RankInv(cfg, r, rk)
  }

  ghost function AtLink(cfg: Config): (nat, Rank, Rank) -> bool {
    (r: nat, a: Rank, b: Rank) => LinkInv(cfg, r, a, b)
  }

  /** The inductive invariant of the chain. */
  ghost predicate Inv(cfg: Config, s: State) {
    |s| == cfg.ranks && Chained(s, AtRank(cfg), AtLink(cfg))
  }

  lemma {:induction false} InvRank(cfg: Config, s: State, r: nat)
    requires Inv(cfg, s) && r < |s|
    ensures AtRank(cfg)(r, s[r])
  {
  }

  lemma {:induction false} InvLink(cfg: Config, s: State, r: nat)
    requires Inv(cfg, s) && r + 1 < |s|
    ensures AtLink(cfg)(r, s[r], s[r + 1])
  {
  }

  // ---------------------------------------------------------------- one statement

  /** What a neighbour can see of a rank. */
  ghost predicate SameQueues(cfg: Config, rk: Rank, rk': Rank) {
    && rk'.outbox == rk.outbox && rk'.notifs == rk.notifs && rk'.published == rk.published
    && rk'.readable == rk.readable && Taken(cfg, rk') == Taken(cfg, rk) && Finished(rk') == Finished(rk)
  }

  lemma {:induction false} FillKeeps(cfg: Config, r: nat, rk: Rank)
    requires cfg.Valid() && PlaceInv(cfg, r, rk) && Shape(cfg, rk) && rk.phase.Fill?
    ensures PlaceInv(cfg, r, StepFill(cfg, rk)) && SameQueues(cfg, rk, StepFill(cfg, rk))
  {
  }

  lemma {:induction false} BeginReadKeeps(cfg: Config, r: nat, rk: Rank)
    requires cfg.Valid() && PlaceInv(cfg, r, rk) && Shape(cfg, rk) && rk.phase.BeginRead?
    ensures PlaceInv(cfg, r, StepBeginRead(cfg, rk)) && SameQueues(cfg, rk, StepBeginRead(cfg, rk))
  {
  }

  lemma {:induction false} YieldKeeps(cfg: Config, r: nat, rk: Rank)
    requires cfg.Valid() && PlaceInv(cfg, r, rk) && Shape(cfg, rk) && rk.phase.Yield?
    ensures
      var b, pos, rk' := cfg.buckets[rk.rounds - 1], rk.phase.pos, StepYield(cfg, rk);
      && PlaceInv(cfg, r, rk') && SameQueues(cfg, rk, rk') && rk'.rounds == rk.rounds
      && (if pos < |b.metas|
          then rk'.phase == Yield(pos + 1) && rk'.yielded == rk.yielded + Unpack(b, pos + 1)[pos..]
          else rk'.phase == AwaitAck && rk'.yielded == rk.yielded)
  {
    if rk.phase.pos < |cfg.buckets[rk.rounds - 1].metas| {
      SameSlice(rk.bufs[rk.send], cfg.buckets[rk.rounds - 1], rk.phase.pos, cfg.size);
    }
  }

  lemma {:induction false} AwaitReadKeeps(cfg: Config, r: nat, rk: Rank)
    requires cfg.Valid() && PlaceInv(cfg, r, rk) && Shape(cfg, rk) && rk.phase.AwaitRead?
    requires LocalReady(cfg, r, rk)
    ensures PlaceInv(cfg, r, StepAwaitRead(cfg, rk)) && SameQueues(cfg, rk, StepAwaitRead(cfg, rk))
  {
    assert (rk.rounds + 1) % 2 == 1 - rk.rounds % 2;
  }

  ghost predicate Published(cfg: Config, r: nat, rk: Rank, rk': Rank)
    requires rk.readable.Some? ==> 0 < rk.published
    requires rk'.readable.Some? ==> 0 < rk'.published
  {
    && Acked(rk') == Acked(rk) == rk.published && rk'.notifs == rk.notifs
    && if r + 1 < cfg.ranks
       then && rk.published < |cfg.buckets| && rk'.published == rk.published + 1
            && rk'.outbox == rk.outbox + [Message(rk.published, BufOf(r, rk.published), cfg.Meta(rk.published))]
       else rk'.outbox == rk.outbox && rk'.published == rk.published && rk'.readable == rk.readable
  }

  lemma {:induction false} FlushKeeps(cfg: Config, rk: Rank)
    requires cfg.Valid() && PlaceInv(cfg, 0, rk) && Shape(cfg, rk) && rk.phase.Publish?
    ensures PlaceInv(cfg, 0, StepPublish(cfg, 0, rk)) && Published(cfg, 0, rk, StepPublish(cfg, 0, rk))
  {
    assert (rk.rounds + 1) % 2 == 1 - rk.rounds % 2;
  }

  lemma {:induction false} ForwardKeeps(cfg: Config, r: nat, rk: Rank)
    requires cfg.Valid() && 0 < r < cfg.ranks && PlaceInv(cfg, r, rk) && Shape(cfg, rk) && rk.phase.Publish?
    ensures
      var rk' := StepPublish(cfg, r, rk);
      && PlaceInv(cfg, r, rk') && Published(cfg, r, rk, rk')
      && Taken(cfg, rk') == Taken(cfg, rk) && Finished(rk') == Finished(rk)
  {
  }

  ghost predicate AckTaken(cfg: Config, rk: Rank, rk': Rank) {
    && rk'.published == rk.published && rk'.outbox == rk.outbox && rk'.readable.None?
    && Taken(cfg, rk') == Taken(cfg, rk) && Finished(rk') == Finished(rk)
    && rk'.notifs == if rk.readable.Some? && rk.notifs != [] then rk.notifs[1..] else rk.notifs
  }

  /** The assert on the notification key holds: the only notification in the queue is the awaited one. */
  lemma {:induction false} AwaitAckKeeps(cfg: Config, r: nat, rk: Rank)
    requires cfg.Valid() && r < cfg.ranks && PlaceInv(cfg, r, rk) && Shape(cfg, rk) && rk.phase.AwaitAck?
    requires AckReady(rk) && (rk.readable.Some? ==> rk.notifs[0] == Acked(rk))
    ensures PlaceInv(cfg, r, StepAwaitAck(cfg, r, rk)) && AckTaken(cfg, rk, StepAwaitAck(cfg, r, rk))
  {
  }

  /** The link to the next rank after a statement of this one. */
  lemma {:induction false} LinkAhead(cfg: Config, r: nat, rk: Rank, b: Rank)
    requires cfg.Valid() && r + 1 < cfg.ranks && PlaceInv(cfg, r, rk) && LinkInv(cfg, r, rk, b)
    requires Shape(cfg, rk) && LocalReady(cfg, r, rk)
    ensures PlaceInv(cfg, r, LocalStep(cfg, r, rk)) && LinkInv(cfg, r, LocalStep(cfg, r, rk), b)
  {
    hide PlaceInv, StepFill, StepPublish, StepBeginRead, StepYield, StepAwaitAck, StepAwaitRead;
    match rk.phase
    case Fill(_) => FillKeeps(cfg, r, rk);
    case Publish => if r == 0 { FlushKeeps(cfg, rk); } else { ForwardKeeps(cfg, r, rk); }
    case BeginRead => BeginReadKeeps(cfg, r, rk);
    case Yield(_) => YieldKeeps(cfg, r, rk);
    case AwaitAck => AwaitAckKeeps(cfg, r, rk);
    case AwaitRead => AwaitReadKeeps(cfg, r, rk);
  }

  /** The link from the rank before it. */
  lemma {:induction false} LinkBehind(cfg: Config, r: nat, a: Rank, rk: Rank)
    requires cfg.Valid() && 0 < r < cfg.ranks && PlaceInv(cfg, r, rk) && LinkInv(cfg, r - 1, a, rk)
    requires Shape(cfg, rk) && LocalReady(cfg, r, rk)
    requires rk.phase.AwaitAck? && rk.readable.Some? ==> rk.notifs[0] == Acked(rk)
    ensures PlaceInv(cfg, r, LocalStep(cfg, r, rk)) && LinkInv(cfg, r - 1, a, LocalStep(cfg, r, rk))
  {
    match rk.phase
    case Publish => ForwardKeeps(cfg, r, rk);
    case BeginRead => BeginReadKeeps(cfg, r, rk);
    case Yield(_) => YieldKeeps(cfg, r, rk);
    case AwaitAck => AwaitAckKeeps(cfg, r, rk);
    case AwaitRead => AwaitReadKeeps(cfg, r, rk);
  }

  lemma {:induction false} NothingYielded(cfg: Config, r: nat, rk: Rank)
    requires cfg.Valid() && 0 < r < cfg.ranks && PlaceInv(cfg, r, rk) && Shape(cfg, rk) && LocalReady(cfg, r, rk)
    requires PlaceInv(cfg, r, LocalStep(cfg, r, rk)) && !rk.phase.Yield?
    ensures
      var rk' := LocalStep(cfg, r, rk);
      rk'.yielded == rk.yielded && DoneBuckets(rk') == DoneBuckets(rk) && DoneChunks(rk') == DoneChunks(rk)
  {
  }

  lemma {:induction false} YieldBounds(cfg: Config, r: nat, rk: Rank)
    requires cfg.Valid() && PlaceInv(cfg, r, rk) && rk.phase.Yield?
    ensures 0 < rk.rounds <= |cfg.buckets| && rk.phase.pos <= |cfg.buckets[rk.rounds - 1].metas|
  {
    hide Locals, Buffers;
  }

  lemma {:induction false} OneYielded(cfg: Config, r: nat, rk: Rank)
    requires cfg.Valid() && PlaceInv(cfg, r, rk) && Shape(cfg, rk) && rk.phase.Yield?
    requires rk.yielded == Delivered(cfg, rk.rounds - 1, rk.phase.pos)
    ensures
      var rk' := StepYield(cfg, rk);
      && DoneBuckets(rk') <= |cfg.buckets| && (rk'.phase.Yield? ==> rk'.phase.pos <= |cfg.buckets[rk.rounds - 1].metas|)
      && rk'.rounds == rk.rounds && (rk'.phase.Yield? || rk'.phase.AwaitAck?)
      && rk'.yielded == Delivered(cfg, DoneBuckets(rk'), DoneChunks(rk'))
  {
    hide PlaceInv, StepYield, Delivered, Unpack;
    YieldBounds(cfg, r, rk);
    YieldKeeps(cfg, r, rk);
    DeliveredNext(cfg, rk.rounds - 1, rk.phase.pos);
  }

  /** A receiver appends to what it yielded exactly when it hands over a chunk. */
  lemma {:induction false} YieldedAfter(cfg: Config, r: nat, rk: Rank)
    requires cfg.Valid() && 0 < r < cfg.ranks && RankInv(cfg, r, rk) && Shape(cfg, rk) && LocalReady(cfg, r, rk)
    requires PlaceInv(cfg, r, LocalStep(cfg, r, rk))
    ensures RankInv(cfg, r, LocalStep(cfg, r, rk))
  {
    if rk.phase.Yield? { OneYielded(cfg, r, rk); } else { NothingYielded(cfg, r, rk); }
  }

  // ---------------------------------------------------------------- one transfer

  /** While a rank reads, the rank before it has not awaited that bucket, and its buffer holds it. */
  lemma {:induction false} SourceHolds(cfg: Config, r: nat, prev: Rank, rk: Rank)
    requires cfg.Valid() && r + 1 < cfg.ranks && PlaceInv(cfg, r, prev) && PlaceInv(cfg, r + 1, rk)
    requires LinkInv(cfg, r, prev, rk) && rk.read.Some? && !rk.read.value.done
    ensures
      var t := rk.read.value;
      && prev.readable == Some(Readable(t.key, t.src)) && t.src < 2 && |prev.bufs| == 2
      && rk.rounds < |cfg.buckets| && Holds(prev.bufs[t.src], cfg.buckets[rk.rounds].data, cfg.size)
  {
    assert prev.published == rk.rounds + 1 == prev.rounds;
  }

  ghost predicate PairInv(cfg: Config, r: nat, prev: Rank, rk: Rank)
    requires cfg.Valid()
  {
    PlaceInv(cfg, r, prev) && PlaceInv(cfg, r + 1, rk) && LinkInv(cfg, r, prev, rk)
  }

  lemma {:induction false} CopyKeeps(cfg: Config, r: nat, prev: Rank, rk: Rank)
    requires cfg.Valid() && r + 1 < cfg.ranks && PairInv(cfg, r, prev, rk) && PairEnabled(cfg, prev, rk, CopyByte(r + 1))
    ensures PairInv(cfg, r, prev, Copied(cfg, rk, prev)) && SameQueues(cfg, rk, Copied(cfg, rk, prev))
  {
    SourceHolds(cfg, r, prev, rk);
  }

  /** The transfer is marked as done: the reader's own state stays in order. */
  lemma {:induction false} MarkDone(cfg: Config, r: nat, rk: Rank)
    requires cfg.Valid() && PlaceInv(cfg, r, rk) && rk.read.Some? && rk.read.value.copied == cfg.size
    ensures PlaceInv(cfg, r, rk.(read := Some(rk.read.value.(done := true))))
  {
  }

  /** A notification changes nothing that the place of its receiver speaks of. */
  lemma {:induction false} TakeNote(cfg: Config, r: nat, prev: Rank, note: nat)
    requires cfg.Valid() && r + 1 < cfg.ranks && PlaceInv(cfg, r, prev)
    ensures PlaceInv(cfg, r, prev.(notifs := prev.notifs + [note]))
  {
  }

  lemma {:induction false} FinishKeeps(cfg: Config, r: nat, prev: Rank, rk: Rank)
    requires cfg.Valid() && r + 1 < cfg.ranks && PairInv(cfg, r, prev, rk) && PairEnabled(cfg, prev, rk, FinishRead(r + 1))
    ensures
      var (prev', rk') := NextPair(cfg, prev, rk, FinishRead(r + 1));
      PairInv(cfg, r, prev', rk')
  {
    SourceHolds(cfg, r, prev, rk);
    MarkDone(cfg, r + 1, rk);
    TakeNote(cfg, r, prev, rk.read.value.key);
    hide Buffers;
  }

  /** A message that is taken changes nothing that the place of its sender speaks of. */
  lemma {:induction false} DropMessage(cfg: Config, r: nat, prev: Rank)
    requires cfg.Valid() && r + 1 < cfg.ranks && PlaceInv(cfg, r, prev) && prev.outbox != []
    ensures PlaceInv(cfg, r, prev.(outbox := prev.outbox[1..]))
  {
  }

  /** The metadata of the next bucket is taken: the reader begins to read. */
  lemma {:induction false} TakeMessage(cfg: Config, r: nat, rk: Rank)
    requires cfg.Valid() && 0 < r < cfg.ranks && PlaceInv(cfg, r, rk) && rk.phase.AwaitMetadata?
    ensures
      var message := Message(rk.rounds, BufOf(r - 1, rk.rounds), cfg.Meta(rk.rounds));
      PlaceInv(cfg, r, rk.(next := Some(message), phase := BeginRead))
  {
  }

  lemma {:induction false} ReceiveLink(cfg: Config, r: nat, prev: Rank, rk: Rank)
    requires cfg.Valid() && r + 1 < cfg.ranks && PairInv(cfg, r, prev, rk) && PairEnabled(cfg, prev, rk, Receive(r + 1))
    ensures
      var message := Message(rk.rounds, BufOf(r, rk.rounds), cfg.Meta(rk.rounds));
      && prev.outbox[0] == message
      && LinkInv(cfg, r, prev.(outbox := prev.outbox[1..]), rk.(next := Some(message), phase := BeginRead))
  {
    hide Buffers;
  }

  lemma {:induction false} ReceiveKeeps(cfg: Config, r: nat, prev: Rank, rk: Rank)
    requires cfg.Valid() && r + 1 < cfg.ranks && PairInv(cfg, r, prev, rk) && PairEnabled(cfg, prev, rk, Receive(r + 1))
    ensures
      var (prev', rk') := NextPair(cfg, prev, rk, Receive(r + 1));
      PairInv(cfg, r, prev', rk')
  {
    hide PlaceInv, LinkInv;
    DropMessage(cfg, r, prev);
    TakeMessage(cfg, r + 1, rk);
    ReceiveLink(cfg, r, prev, rk);
  }

  /** Nothing is yielded, and the outer neighbours see no difference. */
  lemma {:induction false} PairFrame(cfg: Config, prev: Rank, rk: Rank, a: Action)
    requires PairEnabled(cfg, prev, rk, a)
    ensures
      var (prev', rk') := NextPair(cfg, prev, rk, a);
      && Taken(cfg, prev') == Taken(cfg, prev) && Finished(prev') == Finished(prev)
      && rk'.outbox == rk.outbox && rk'.notifs == rk.notifs && rk'.published == rk.published && rk'.readable == rk.readable
      && prev'.yielded == prev.yielded && DoneBuckets(prev') == DoneBuckets(prev) && DoneChunks(prev') == DoneChunks(prev)
      && rk'.yielded == rk.yielded && DoneBuckets(rk') == DoneBuckets(rk) && DoneChunks(rk') == DoneChunks(rk)
  {
  }

  lemma {:induction false} PairKeeps(cfg: Config, r: nat, prev: Rank, rk: Rank, a: Action)
    requires cfg.Valid() && r + 1 < cfg.ranks && PairInv(cfg, r, prev, rk)
    requires PairEnabled(cfg, prev, rk, a) && a.rank == r + 1
    ensures
      var (prev', rk') := NextPair(cfg, prev, rk, a);
      PairInv(cfg, r, prev', rk')
  {
    match a
    case Receive(_) => ReceiveKeeps(cfg, r, prev, rk);
    case CopyByte(_) => CopyKeeps(cfg, r, prev, rk);
    case FinishRead(_) => FinishKeeps(cfg, r, prev, rk);
  }

  // ---------------------------------------------------------------- every step, every run

  lemma {:induction false} InitRankInv(cfg: Config, r: nat)
    requires cfg.Valid() && r < cfg.ranks
    ensures RankInv(cfg, r, InitRank(cfg, r))
  {
  }

  lemma {:induction false} InitLinkInv(cfg: Config, r: nat)
    requires cfg.Valid() && r + 1 < cfg.ranks
    ensures LinkInv(cfg, r, InitRank(cfg, r), InitRank(cfg, r + 1))
  {
  }

  lemma {:induction false} InitInv(cfg: Config)
    requires cfg.Valid()
    ensures Inv(cfg, Init(cfg))
  {
    hide RankInv, LinkInv, InitRank;
    forall r | 0 <= r < cfg.ranks
      ensures RankInv(cfg, r, InitRank(cfg, r))
    {
      InitRankInv(cfg, r);
    }
    forall r | 0 <= r < cfg.ranks - 1
      ensures LinkInv(cfg, r, InitRank(cfg, r), InitRank(cfg, r + 1))
    {
      InitLinkInv(cfg, r);
    }
  }

  lemma {:induction false} AdvanceAhead(cfg: Config, r: nat, rk: Rank, b: Rank)
    requires r + 1 < cfg.ranks && AtRank(cfg)(r, rk) && AtLink(cfg)(r, rk, b)
    requires Shape(cfg, rk) && LocalReady(cfg, r, rk)
    ensures AtLink(cfg)(r, LocalStep(cfg, r, rk), b)
    ensures r == 0 ==> AtRank(cfg)(r, LocalStep(cfg, r, rk))
  {
    LinkAhead(cfg, r, rk, b);
  }

  lemma {:induction false} AdvanceBehind(cfg: Config, r: nat, a: Rank, rk: Rank)
    requires r + 1 < cfg.ranks && AtRank(cfg)(r + 1, rk) && AtLink(cfg)(r, a, rk)
    requires Shape(cfg, rk) && LocalReady(cfg, r + 1, rk)
    requires rk.phase.AwaitAck? && rk.readable.Some? ==> 0 < rk.published && rk.notifs[0] == Acked(rk)
    ensures AtLink(cfg)(r, a, LocalStep(cfg, r + 1, rk)) && AtRank(cfg)(r + 1, LocalStep(cfg, r + 1, rk))
  {
    hide PlaceInv, LinkInv, LocalStep, LocalReady, Shape, Delivered;
    LinkBehind(cfg, r + 1, a, rk);
    YieldedAfter(cfg, r + 1, rk);
  }

  /** The head of the notification queue is the awaited one. */
  lemma {:induction false} HeadIsAwaited(cfg: Config, s: State, r: nat)
    requires Inv(cfg, s) && r < |s| && AckReady(s[r]) && s[r].readable.Some?
    ensures 0 < s[r].published && s[r].notifs[0] == Acked(s[r])
  {
    InvRank(cfg, s, r);
    if r + 1 < |s| { InvLink(cfg, s, r); }
  }

  lemma {:induction false} AdvanceKeeps(cfg: Config, s: State, r: nat)
    requires cfg.Valid() && Inv(cfg, s) && Enabled(cfg, s, Advance(r))
    ensures Inv(cfg, Next(cfg, s, Advance(r)))
  {
    hide RankInv, LinkInv, Shape;
    InvRank(cfg, s, r);
    if s[r].phase.AwaitAck? && s[r].readable.Some? { HeadIsAwaited(cfg, s, r); }
    if r + 1 < |s| {
      InvLink(cfg, s, r);
      AdvanceAhead(cfg, r, s[r], s[r + 1]);
    }
    if 0 < r {
      InvLink(cfg, s, r - 1);
      AdvanceBehind(cfg, r - 1, s[r - 1], s[r]);
    }
    ChainedUpdate(s, r, LocalStep(cfg, r, s[r]), AtRank(cfg), AtLink(cfg));
  }

  lemma {:induction false} PairRanks(cfg: Config, r: nat, prev: Rank, rk: Rank, a: Action)
    requires cfg.Valid() && r + 1 < cfg.ranks && AtRank(cfg)(r, prev) && AtRank(cfg)(r + 1, rk)
    requires AtLink(cfg)(r, prev, rk) && PairEnabled(cfg, prev, rk, a) && a.rank == r + 1
    ensures
      var (prev', rk') := NextPair(cfg, prev, rk, a);
      AtRank(cfg)(r, prev') && AtRank(cfg)(r + 1, rk') && AtLink(cfg)(r, prev', rk')
  {
    PairKeeps(cfg, r, prev, rk, a);
    PairFrame(cfg, prev, rk, a);
  }

  lemma {:induction false} PairBehind(cfg: Config, r: nat, x: Rank, prev: Rank, rk: Rank, a: Action)
    requires AtLink(cfg)(r, x, prev) && PairEnabled(cfg, prev, rk, a)
    ensures AtLink(cfg)(r, x, NextPair(cfg, prev, rk, a).0)
  {
  }

  lemma {:induction false} PairAhead(cfg: Config, r: nat, prev: Rank, rk: Rank, x: Rank, a: Action)
    requires AtLink(cfg)(r, rk, x) && PairEnabled(cfg, prev, rk, a)
    ensures AtLink(cfg)(r, NextPair(cfg, prev, rk, a).1, x)
  {
  }

  lemma {:induction false} ReceiverInner(cfg: Config, s: State, a: Action)
    requires cfg.Valid() && Inv(cfg, s) && Enabled(cfg, s, a) && !a.Advance?
    ensures
      var r, s' := a.rank, Next(cfg, s, a);
      AtRank(cfg)(r - 1, s'[r - 1]) && AtRank(cfg)(r, s'[r]) && AtLink(cfg)(r - 1, s'[r - 1], s'[r])
  {
    hide RankInv, LinkInv, Shape;
    InvRank(cfg, s, a.rank - 1);
    InvRank(cfg, s, a.rank);
    InvLink(cfg, s, a.rank - 1);
    PairRanks(cfg, a.rank - 1, s[a.rank - 1], s[a.rank], a);
  }

  lemma {:induction false} ReceiverOuter(cfg: Config, s: State, a: Action)
    requires cfg.Valid() && Inv(cfg, s) && Enabled(cfg, s, a) && !a.Advance?
    ensures
      var r, s' := a.rank, Next(cfg, s, a);
      && (1 < r ==> AtLink(cfg)(r - 2, s[r - 2], s'[r - 1]))
      && (r + 1 < |s| ==> AtLink(cfg)(r, s'[r], s[r + 1]))
  {
    hide RankInv, LinkInv, Shape;
    var r := a.rank;
    if 1 < r {
      InvLink(cfg, s, r - 2);
      PairBehind(cfg, r - 2, s[r - 2], s[r - 1], s[r], a);
    }
    if r + 1 < |s| {
      InvLink(cfg, s, r);
      PairAhead(cfg, r, s[r - 1], s[r], s[r + 1], a);
    }
  }

  lemma {:induction false} ReceiverKeeps(cfg: Config, s: State, a: Action)
    requires cfg.Valid() && Inv(cfg, s) && Enabled(cfg, s, a) && !a.Advance?
    ensures Inv(cfg, Next(cfg, s, a))
  {
    hide RankInv, LinkInv, Shape;
    var r, s' := a.rank, Next(cfg, s, a);
    ReceiverInner(cfg, s, a);
    ReceiverOuter(cfg, s, a);
    ChainedUpdatePair(s, r - 1, s'[r - 1], s'[r], AtRank(cfg), AtLink(cfg));
    assert s' == s[r - 1 := s'[r - 1]][r := s'[r]];
  }

  lemma {:induction false} NextInv(cfg: Config, s: State, a: Action)
    requires cfg.Valid() && Inv(cfg, s) && Enabled(cfg, s, a)
    ensures Inv(cfg, Next(cfg, s, a))
  {
    if a.Advance? { AdvanceKeeps(cfg, s, a.rank); } else { ReceiverKeeps(cfg, s, a); }
  }

  lemma {:induction false} RunInv(cfg: Config, s: State, run: seq<Action>)
    requires cfg.Valid() && Inv(cfg, s) && IsRun(cfg, s, run)
    ensures Inv(cfg, After(cfg, s, run))
    decreases |run|
  {
    if run == [] {
    } else {
      NextInv(cfg, s, run[0]);
      RunInv(cfg, Next(cfg, s, run[0]), run[1..]);
    }
  }
}
