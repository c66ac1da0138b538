/**
 The message and notification queues of one agent, and the wiring of the agents into a chain
 (checkpoint_engine/nixl_checkpoint_engine.py).
 */
module NixlAgents {
  import opened Wrappers
  import opened Permutations
  import opened PythonSlices

  // ---------------------------------------------------------------- topology

  /** What the workers of one group are initialised with. */
  datatype Wiring<M> = Wiring(ranks: seq<int>, prev: seq<Option<M>>, next: seq<Option<M>>)

  /** The keyword arguments of the rollout workers in `build_topology`. */
  function RolloutWiring<M>(rollout: nat, metadata: seq<M>): Wiring<M>
    requires metadata != []
  {
    Wiring(
      seq(rollout, i => i + 1),
      [Some(metadata[0])] + Map(Slice(metadata, 0 - rollout, -1), m => Some(m)),
      Map(Slice(metadata, 1 - rollout, |metadata|), m => Some(m)) + [None])
  }

  /** Those of the trainers: rank 0 is followed by the first rollout worker. */
  function ActorWiring<M>(actors: nat, rollout: nat, metadata: seq<M>): Wiring<M>
    requires 0 < actors && 0 < rollout <= |metadata|
  {
    Wiring(
      seq(actors, i => if i == 0 then 0 else -1),
      seq(actors, _ => None),
      seq(actors, i => if i == 0 then Some(metadata[|metadata| - rollout]) else None))
  }

  /** Every rollout worker has the worker before it and the one after it as its neighbours. */
  ghost predicate IsChain<M>(w: Wiring<M>, actors: nat, rollout: nat, metadata: seq<M>)
    requires |metadata| == actors + rollout && 0 < actors
  {
    && |w.ranks| == |w.prev| == |w.next| == rollout
    && forall i :: 0 <= i < rollout ==>
         && w.ranks[i] == i + 1
         && w.prev[i] == Some(if i == 0 then metadata[0] else metadata[actors + i - 1])
         && w.next[i] == if i == rollout - 1 then None else Some(metadata[actors + i + 1])
  }

  lemma {:induction false} OneIsNoChain<M>(metadata: seq<M>)
    requires |metadata| > 1
    ensures !IsChain(RolloutWiring(1, metadata), |metadata| - 1, 1, metadata)
  {
    assert |RolloutWiring(1, metadata).next| == |metadata| + 1;
  }

  lemma {:induction false} ManyAreChain<M>(actors: nat, rollout: nat, metadata: seq<M>)
    requires 0 < actors && 2 <= rollout && |metadata| == actors + rollout
    ensures IsChain(RolloutWiring(rollout, metadata), actors, rollout, metadata)
  {
    assert Slice(metadata, 0 - rollout, -1) == metadata[actors..|metadata| - 1];
    assert Slice(metadata, 1 - rollout, |metadata|) == metadata[actors + 1..];
    hide Slice;
  }

  /** The workers that take part: those whose rank is not negative. */
  function Taking(ranks: seq<int>): seq<int> {
    if ranks == [] then [] else (if ranks[0] < 0 then [] else [ranks[0]]) + Taking(ranks[1..])
  }

  lemma {:induction false} NoneTakes(ranks: seq<int>)
    requires forall i :: 0 <= i < |ranks| ==> ranks[i] < 0
    ensures Taking(ranks) == []
  {
    if ranks == [] {
    } else {
      NoneTakes(ranks[1..]);
    }
  }

  lemma {:induction false} AllTake(ranks: seq<int>)
    requires forall i :: 0 <= i < |ranks| ==> 0 <= ranks[i]
    ensures Taking(ranks) == ranks
  {
    if ranks == [] {
    } else {
      AllTake(ranks[1..]);
    }
  }

  lemma TrainerRanks<M>(actors: nat, rollout: nat, metadata: seq<M>)
    requires 0 < actors && 0 < rollout <= |metadata|
    ensures Taking(ActorWiring(actors, rollout, metadata).ranks) == [0]
  {
    var ranks := ActorWiring(actors, rollout, metadata).ranks;
    NoneTakes(ranks[1..]);
    assert Taking(ranks) == [0] + Taking(ranks[1..]);
  }

  /**
   Of the trainers only the first takes part: it is rank 0, with a successor and no predecessor. With the
   rollout workers the ranks are 0, 1, ..., each once.
   */
  lemma {:induction false} TrainersIdle<M>(actors: nat, rollout: nat, metadata: seq<M>)
    requires 0 < actors && 0 < rollout && |metadata| == actors + rollout
    ensures
      var w := ActorWiring(actors, rollout, metadata);
      && |w.ranks| == |w.prev| == |w.next| == actors
      && w.ranks[0] == 0 && w.prev[0].None? && w.next[0] == Some(metadata[actors])
      && forall i :: 0 < i < actors ==> w.ranks[i] < 0 && w.prev[i].None? && w.next[i].None?
    ensures
      Taking(ActorWiring(actors, rollout, metadata).ranks) + Taking(RolloutWiring(rollout, metadata).ranks)
      == seq(rollout + 1, i => i)
  {
    hide Taking;
    TrainerRanks(actors, rollout, metadata);
    AllTake(RolloutWiring(rollout, metadata).ranks);
  }

  /** The wiring is a chain exactly when there are at least two rollout workers. */
  lemma {:induction false} RolloutIsChain<M>(actors: nat, rollout: nat, metadata: seq<M>)
    requires 0 < actors && 0 < rollout && |metadata| == actors + rollout
    ensures IsChain(RolloutWiring(rollout, metadata), actors, rollout, metadata) <==> 2 <= rollout
    ensures
      var w := ActorWiring(actors, rollout, metadata);
      w.next[0] == Some(metadata[actors]) && forall i :: 0 <= i < actors ==> (w.ranks[i] == 0 <==> i == 0)
  {
    TrainersIdle(actors, rollout, metadata);
    if rollout == 1 {
      OneIsNoChain(metadata);
    } else {
      ManyAreChain(actors, rollout, metadata);
    }
    hide RolloutWiring, IsChain;
  }

  /** The asserts of `init_process_group`. */
  predicate Admitted<M>(rank: int, worldSize: nat, prev: Option<M>, next: Option<M>) {
    if rank < 0 then prev.None? && next.None?
    else if rank == 0 then prev.None? && next.Some?
    else if rank < worldSize - 1 then prev.Some? && next.Some?
    else rank == worldSize - 1 ==> prev.Some? && next.None?
  }

  /** Every worker of the group gets arguments that pass them. */
  ghost predicate AllAdmitted<M>(w: Wiring<M>, worldSize: nat) {
    && |w.ranks| <= |w.prev| && |w.ranks| <= |w.next|
    && forall i :: 0 <= i < |w.ranks| ==> Admitted(w.ranks[i], worldSize, w.prev[i], w.next[i])
  }

  /** The wiring passes the asserts of all workers exactly when there are at least two rollout workers. */
  lemma {:induction false} TopologyAdmitted<M>(actors: nat, rollout: nat, metadata: seq<M>)
    requires 0 < actors && 0 < rollout && |metadata| == actors + rollout
    ensures AllAdmitted(ActorWiring(actors, rollout, metadata), rollout + 1)
    ensures AllAdmitted(RolloutWiring(rollout, metadata), rollout + 1) <==> 2 <= rollout
  {
    if rollout == 1 {
      var w := RolloutWiring(1, metadata);
      assert w.ranks[0] == 1 && w.next[0] == Some(metadata[0]);
    } else {
      ManyAreChain(actors, rollout, metadata);
    }
    hide Slice;
  }

  // ---------------------------------------------------------------- queues

  type Name = string

  function QueueOf<E>(queues: map<Name, seq<E>>, from: Name): seq<E> {
    if from in queues then queues[from] else []
  }

  function Extend<E>(queues: map<Name, seq<E>>, from: Name, more: seq<E>): map<Name, seq<E>> {
    queues[from := QueueOf(queues, from) + more]
  }

  /** Everything that `from` sent in the given deliveries. */
  function From<E>(from: Name, deliveries: seq<(Name, seq<E>)>): seq<E> {
    if deliveries == [] then []
    else (if deliveries[0].0 == from then deliveries[0].1 else []) + From(from, deliveries[1..])
  }

  /** The messages of `from` that are on the way. */
  function FromSocket<E>(from: Name, arriving: seq<(Name, E)>): seq<E> {
    if arriving == [] then []
    else (if arriving[0].0 == from then [arriving[0].1] else []) + FromSocket(from, arriving[1..])
  }

  function FromPolls<E>(from: Name, polls: seq<seq<(Name, seq<E>)>>): seq<E> {
    if polls == [] then [] else From(from, polls[0]) + FromPolls(from, polls[1..])
  }

  /** The queues after one poll of the notifications. */
  function Absorb<E>(queues: map<Name, seq<E>>, batch: seq<(Name, seq<E>)>): map<Name, seq<E>>
    decreases |batch|
  {
    if batch == [] then queues else Absorb(Extend(queues, batch[0].0, batch[0].1), batch[1..])
  }

  lemma {:induction false} ExtendKeeps<E>(queues: map<Name, seq<E>>, sender: Name, more: seq<E>, other: Name)
    ensures QueueOf(Extend(queues, sender, more), other)
         == QueueOf(queues, other) + if other == sender then more else []
  {
  }

  lemma {:induction false} AbsorbFirst<E>(queues: map<Name, seq<E>>, batch: seq<(Name, seq<E>)>, from: Name)
    requires batch != []
    ensures Absorb(queues, batch) == Absorb(Extend(queues, batch[0].0, batch[0].1), batch[1..])
    ensures From(from, batch) == (if batch[0].0 == from then batch[0].1 else []) + From(from, batch[1..])
  {
  }

  lemma {:induction false} AbsorbNothing<E>(queues: map<Name, seq<E>>, from: Name)
    ensures Absorb(queues, []) == queues && From<E>(from, []) == []
  {
  }

  lemma {:induction false} AbsorbKeeps<E>(queues: map<Name, seq<E>>, batch: seq<(Name, seq<E>)>, from: Name)
    ensures QueueOf(Absorb(queues, batch), from) == QueueOf(queues, from) + From(from, batch)
    decreases |batch|
  {
    hide QueueOf, Extend, Absorb, From;
    if batch == [] {
      AbsorbNothing(queues, from);
    } else {
      AbsorbFirst(queues, batch, from);
      ExtendKeeps(queues, batch[0].0, batch[0].1, from);
      AbsorbKeeps(Extend(queues, batch[0].0, batch[0].1), batch[1..], from);
    }
  }

  /** The loop over a poll assigns every sender to the name that is waited for. */
  function LastSender<E>(remote: Name, batch: seq<(Name, seq<E>)>): Name {
    if batch == [] then remote else batch[|batch| - 1].0
  }

  /** The agent whose notification `get_notification` returns in the end. */
  function Answering<E>(remote: Name, queues: map<Name, seq<E>>, polls: seq<seq<(Name, seq<E>)>>): Name
    decreases |polls|
  {
    if QueueOf(queues, remote) != [] || polls == [] then remote
    else Answering(LastSender(remote, polls[0]), Absorb(queues, polls[0]), polls[1..])
  }

  /** With a single notifier the answer is that agent's. */
  lemma {:induction false} SingleNotifier<E>(remote: Name, queues: map<Name, seq<E>>, polls: seq<seq<(Name, seq<E>)>>)
    requires forall batch <- polls, item <- batch :: item.0 == remote
    ensures Answering(remote, queues, polls) == remote
    decreases |polls|
  {
    if polls == [] {
    } else {
      assert polls[0] in polls && forall batch <- polls[1..] :: batch in polls;
      SingleNotifier(remote, Absorb(queues, polls[0]), polls[1..]);
    }
  }

  lemma {:induction false} LastIsIn<E>(batch: seq<(Name, seq<E>)>)
    requires batch != [] && batch[|batch| - 1].1 != []
    ensures From(batch[|batch| - 1].0, batch) != []
  {
    if |batch| <= 1 {
    } else {
      LastIsIn(batch[1..]);
    }
  }

  /** A poll with notifications ends the wait; it is the awaited agent's turn exactly if it stands last. */
  lemma {:induction false} PollAnswers<E>(remote: Name, queues: map<Name, seq<E>>, polls: seq<seq<(Name, seq<E>)>>)
    requires QueueOf(queues, remote) == [] && polls != [] && polls[0] != [] && polls[0][|polls[0]| - 1].1 != []
    ensures Answering(remote, queues, polls) == remote <==> polls[0][|polls[0]| - 1].0 == remote
  {
    var batch, last := polls[0], LastSender(remote, polls[0]);
    AbsorbKeeps(queues, batch, last);
    LastIsIn(batch);
  }

  /** The number of polls before the first one that brings anything. */
  function EmptyPolls<E>(polls: seq<seq<(Name, seq<E>)>>): (k: nat)
    ensures k <= |polls| && (k < |polls| ==> polls[k] != []) && forall i :: 0 <= i < k ==> polls[i] == []
  {
    if polls == [] || polls[0] != [] then 0 else 1 + EmptyPolls(polls[1..])
  }

  /**
   The awaited agent is answered for exactly if something of it has arrived before, nothing arrives at
   all, or it stands last in the first poll with notifications. A delivered list is never empty.
   */
  lemma {:induction false} FirstPollAnswers<E>(remote: Name, queues: map<Name, seq<E>>, polls: seq<seq<(Name, seq<E>)>>)
    requires forall batch <- polls, item <- batch :: item.1 != []
    ensures
      var k := EmptyPolls(polls);
      Answering(remote, queues, polls) == remote <==>
      QueueOf(queues, remote) != [] || k == |polls| || polls[k][|polls[k]| - 1].0 == remote
    decreases |polls|
  {
    if QueueOf(queues, remote) != [] || polls == [] {
    } else if polls[0] == [] {
      assert forall batch <- polls[1..] :: batch in polls;
      FirstPollAnswers(remote, queues, polls[1..]);
    } else {
      var batch := polls[0];
      assert batch in polls && batch[|batch| - 1] in batch;
      PollAnswers(remote, queues, polls);
    }
  }

  /** Two notifiers in one poll: waiting for the first, the program takes the notification of the second. */
  lemma {:induction false} WrongNotifier()
    ensures Answering("next", map[], [[("next", [1]), ("other", [2])]]) == "other"
  {
    assert QueueOf(Absorb(map[], [("next", [1]), ("other", [2])]), "other") == [2] by {
      AbsorbKeeps(map[], [("next", [1]), ("other", [2])], "other");
      assert [("next", [1]), ("other", [2])][1..] == [("other", [2])];
    }
  }

  lemma {:induction false} TailFirst<E>(a: seq<E>, b: seq<E>)
    requires a != []
    ensures (a + b)[1..] == a[1..] + b
  {
  }

  /** The queues of one agent; `arriving` and `polls` are what the network will deliver. */
  class NixlAgent<E> {
    var messages: map<Name, seq<E>>
    var notifications: map<Name, seq<E>>
    var arriving: seq<(Name, E)>
    var polls: seq<seq<(Name, seq<E>)>>

    constructor (arriving: seq<(Name, E)>, polls: seq<seq<(Name, seq<E>)>>)
      ensures this.arriving == arriving && this.polls == polls && messages == map[] && notifications == map[]
    {
      this.arriving, this.polls, messages, notifications := arriving, polls, map[], map[];
    }

    /** The messages of `from` that have not been read, in the order of their sending. */
    function Unread(from: Name): seq<E>
      reads this
    {
      QueueOf(messages, from) + FromSocket(from, arriving)
    }

    /** The notifications of `from` that have not been awaited. */
    function Unawaited(from: Name): seq<E>
      reads this
    {
      QueueOf(notifications, from) + FromPolls(from, polls)
    }

    /** `read_message`: the next message of `from`, or nothing while it would go on waiting. */
    method ReadMessage(from: Name) returns (r: Option<E>)
      modifies this`messages, this`arriving
      ensures r == if old(Unread(from)) == [] then None else Some(old(Unread(from))[0])
      ensures Unread(from) == if old(Unread(from)) == [] then [] else old(Unread(from))[1..]
      ensures forall other :: other != from ==> Unread(other) == old(Unread(other))
    {
      while QueueOf(messages, from) == [] && arriving != []
        invariant forall other :: Unread(other) == old(Unread(other))
        decreases |arriving|
      {
        var (sender, message) := arriving[0];
        forall other
          ensures QueueOf(Extend(messages, sender, [message]), other) + FromSocket(other, arriving[1..]) == Unread(other)
        {
          ExtendKeeps(messages, sender, [message], other);
        }
        messages := Extend(messages, sender, [message]);
        arriving := arriving[1..];
      }
      if QueueOf(messages, from) == [] { return None; }
      var queue := messages[from];
      messages := messages[from := queue[1..]];
      TailFirst(queue, FromSocket(from, arriving));
      return Some(queue[0]);
    }

    /** The loop over one poll. */
    method AbsorbAll(remote: Name, batch: seq<(Name, seq<E>)>) returns (last: Name)
      modifies this`notifications
      ensures notifications == Absorb(old(notifications), batch) && last == LastSender(remote, batch)
    {
      last := remote;
      for i := 0 to |batch|
        invariant Absorb(notifications, batch[i..]) == Absorb(old(notifications), batch)
        invariant last == if i == 0 then remote else batch[i - 1].0
      {
        assert batch[i..][1..] == batch[i + 1..];
        last := batch[i].0;
        notifications := Extend(notifications, last, batch[i].1);
      }
    }

    /** The polls until the agent that is waited for, or the last one heard of, has a notification. */
    method PollFor(remote: Name) returns (from: Name)
      modifies this`notifications, this`polls
      ensures from == old(Answering(remote, notifications, polls))
      ensures QueueOf(notifications, from) == [] ==> polls == []
      ensures forall other :: Unawaited(other) == old(Unawaited(other))
    {
      from := remote;
      while QueueOf(notifications, from) == [] && polls != []
        invariant Answering(from, notifications, polls) == old(Answering(remote, notifications, polls))
        invariant forall other :: Unawaited(other) == old(Unawaited(other))
        decreases |polls|
      {
        hide Absorb, From, LastSender;
        forall other
          ensures QueueOf(Absorb(notifications, polls[0]), other) + FromPolls(other, polls[1..]) == Unawaited(other)
        {
          AbsorbKeeps(notifications, polls[0], other);
        }
        from := AbsorbAll(from, polls[0]);
        polls := polls[1..];
      }
    }

    /**
     `get_notification`: the next notification of the agent that answers, which need not be the one that
     was asked for.
     */
    method GetNotification(remote: Name) returns (r: Option<E>)
      modifies this`notifications, this`polls
      ensures
        var from := old(Answering(remote, notifications, polls));
        && r == (if old(Unawaited(from)) == [] then None else Some(old(Unawaited(from))[0]))
        && Unawaited(from) == (if old(Unawaited(from)) == [] then [] else old(Unawaited(from))[1..])
        && forall other :: other != from ==> Unawaited(other) == old(Unawaited(other))
    {
      var from := PollFor(remote);
      if QueueOf(notifications, from) == [] { return None; }
      var queue := notifications[from];
      notifications := notifications[from := queue[1..]];
      TailFirst(queue, FromPolls(from, polls));
      return Some(queue[0]);
    }
  }
}
