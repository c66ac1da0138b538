/** What becomes of tensors that share a key and differ, over whole training runs (utils/activation_offload.py). */
module OffloadSharing {
  import opened Wrappers
  import opened WeightChunks
  import opened OffloadHandler
  import opened OffloadRuns

  // ---------------------------------------------------------------- right fetches

  ghost predicate FetchedRight(t: Training, tag: Tag)
    requires tag in t.live
  {
    var r := Pop(t.h, Tagged(tag));
    r.Success? && SameTensor(r.value.1, t.live[tag])
  }

  /** The run raises nothing, and every fetched tensor is the saved one. */
  ghost predicate FetchesRight(t: Training, layers: nat, groups: nat, window: map<int, int>, run: seq<Event>)
    decreases |run|
  {
    run == [] ||
    (var next := Advance(t, layers, groups, window, run[0]);
     && next.Success?
     && (run[0].Get? ==> run[0].tag in t.live && FetchedRight(t, run[0].tag))
     && FetchesRight(next.value, layers, groups, window, run[1..]))
  }

  /** If the run raises nothing, it fetches everything. */
  ghost predicate Drains(t: Training, layers: nat, groups: nat, window: map<int, int>, run: seq<Event>) {
    var r := After(t, layers, groups, window, run);
    r.Success? ==> r.value.live == map[]
  }

  lemma FetchIsRight(t: Training, layers: nat, groups: nat, window: map<int, int>, tag: Tag)
    requires Schedule(window, layers, groups) && Inv(t, layers, groups, window) && Allowed(t, layers, false, Get(tag))
    ensures tag in t.live && FetchedRight(t, tag)
  {
    hide Inv, Schedule;
    GetKeeps(t, layers, groups, window, tag);
  }

  lemma {:induction false} AgreesIsRight(t: Training, layers: nat, groups: nat, window: map<int, int>, run: seq<Event>)
    requires Schedule(window, layers, groups) && Inv(t, layers, groups, window)
    requires IsRun(t, layers, groups, window, false, run) && RunAgrees(t, layers, groups, window, run)
    ensures FetchesRight(t, layers, groups, window, run)
    decreases |run|
  {
    hide Inv, Allowed, EventAgrees, Schedule, Advance;
    if run == [] {
    } else {
      EventKeeps(t, layers, groups, window, run[0]);
      AgreesIsRight(Advance(t, layers, groups, window, run[0]).value, layers, groups, window, run[1..]);
      if run[0].Get? {
        FetchIsRight(t, layers, groups, window, run[0].tag);
      }
    }
  }

  // ---------------------------------------------------------------- twins

  /** Two tags whose tensors share a copy, or the elements of one. */
  predicate Twins(state: map<Tag, Saved>, s: Tag, u: Tag) {
    && s.group == u.group && s in state && u in state
    && match (state[s], state[u])
       case (Offloaded(k, _), Offloaded(l, _)) => k == l
       case (OnDevice(a), OnDevice(b)) => a.key == b.key && a.data == b.data
       case _ => false
  }

  lemma OffloadKeepsTwins(h: HandlerState, group: int, s: Tag, u: Tag)
    requires Twins(h.tagToState, s, u) && BulkOffload(h, group).Success?
    ensures Twins(BulkOffload(h, group).value.tagToState, s, u)
  {
  }

  /** Two tensors with the same key that are moved to the host become twins, whatever they hold. */
  lemma OffloadMakesTwins(h: HandlerState, group: int, s: Tag, u: Tag)
    requires InGroup(h.tagToState, group, s) && InGroup(h.tagToState, group, u)
    requires h.tagToState[s].tensor.key == h.tagToState[u].tensor.key && BulkOffload(h, group).Success?
    ensures Twins(BulkOffload(h, group).value.tagToState, s, u)
  {
  }

  lemma ReloadKeepsTwins(h: HandlerState, groups: nat, group: int, s: Tag, u: Tag)
    requires Twins(h.tagToState, s, u) && BulkReload(h, groups, group).Success?
    ensures Twins(BulkReload(h, groups, group).value.tagToState, s, u)
  {
    var backup := h.groupMapping[group];
    assert s.group == group ==> Recoverable(h.tagToState[s], backup) && Recoverable(h.tagToState[u], backup);
  }

  lemma OffloadLeaves(h: HandlerState, group: int, tag: Tag)
    requires BulkOffload(h, group).Success? && tag in h.tagToState && tag.group != group
    ensures
      var r := BulkOffload(h, group).value;
      && r.currentGroup == h.currentGroup && r.offloadedCount == h.offloadedCount
      && tag in r.tagToState && r.tagToState[tag] == h.tagToState[tag]
  {
  }

  lemma ForwardKeepsTwins(h: HandlerState, groups: nat, window: map<int, int>, s: Tag, u: Tag)
    requires Twins(h.tagToState, s, u) && CommitForward(h, groups, window).Success?
    ensures Twins(CommitForward(h, groups, window).value.tagToState, s, u)
  {
    hide Twins, BulkOffload, ReleaseBuffers;
    if h.currentGroup == 0 { OffloadKeepsTwins(h, 0, s, u); }
    var h0 := (if h.currentGroup == 0 then BulkOffload(h, 0) else Success(h)).value;
    if window[h0.offloadedCount] == h0.currentGroup && h0.offloadedCount < groups - 1 {
      OffloadKeepsTwins(h0.(tagToBuf := ReleaseBuffers(h0.tagToBuf, h0.offloadedCount)), h0.offloadedCount + 1, s, u);
    }
  }

  /** A commit that moves the group to the host makes twins of two tensors with the same key. */
  lemma ForwardMakesTwins(h: HandlerState, groups: nat, window: map<int, int>, group: int, s: Tag, u: Tag)
    requires CommitForward(h, groups, window).Success? && Offloads(h, groups, window, group) && 0 <= h.offloadedCount
    requires InGroup(h.tagToState, group, s) && InGroup(h.tagToState, group, u)
    requires h.tagToState[s].tensor.key == h.tagToState[u].tensor.key
    ensures Twins(CommitForward(h, groups, window).value.tagToState, s, u)
  {
    hide Twins, BulkOffload, ReleaseBuffers;
    var h0 := (if h.currentGroup == 0 then BulkOffload(h, 0) else Success(h)).value;
    var h1 := h0.(tagToBuf := ReleaseBuffers(h0.tagToBuf, h0.offloadedCount));
    if h.currentGroup == 0 && group == 0 {
      OffloadMakesTwins(h, 0, s, u);
      if window[h0.offloadedCount] == h0.currentGroup && h0.offloadedCount < groups - 1 {
        OffloadKeepsTwins(h1, h0.offloadedCount + 1, s, u);
      }
    } else {
      if h.currentGroup == 0 {
        OffloadLeaves(h, 0, s);
        OffloadLeaves(h, 0, u);
      }
      OffloadMakesTwins(h1, group, s, u);
    }
  }

  lemma BackwardKeepsTwins(h: HandlerState, groups: nat, window: map<int, int>, s: Tag, u: Tag)
    requires Twins(h.tagToState, s, u) && CommitBackward(h, groups, window).Success?
    ensures Twins(CommitBackward(h, groups, window).value.tagToState, s, u)
  {
    hide Twins, BulkReload;
    var h0 := h.(currentGroup := h.currentGroup - 1);
    if window[h0.offloadedCount - 1] == h0.currentGroup {
      ReloadKeepsTwins(h0, groups, h0.offloadedCount - 1, s, u);
    }
  }

  /** Every event but the fetch of one of them leaves twins twins, and their saved tensors as they were. */
  lemma EventKeepsTwins(t: Training, layers: nat, groups: nat, window: map<int, int>, e: Event, s: Tag, u: Tag)
    requires Allowed(t, layers, false, e) && Advance(t, layers, groups, window, e).Success?
    requires Twins(t.h.tagToState, s, u) && s in t.live && u in t.live && e != Get(s) && e != Get(u)
    ensures
      var next := Advance(t, layers, groups, window, e).value;
      && Twins(next.h.tagToState, s, u) && s in next.live && u in next.live
      && next.live[s] == t.live[s] && next.live[u] == t.live[u]
  {
    hide CommitForward, CommitBackward, WithoutTag;
    match e
    case EndLayer => ForwardKeepsTwins(t.h, groups, window, s, u);
    case StartBackward => BackwardKeepsTwins(t.h, groups, window, s, u);
    case _ =>
  }

  // ---------------------------------------------------------------- twins that differ

  /** In the backward pass, what is kept for the tag is on the device and wrong. */
  predicate Wrong(t: Training, tag: Tag) {
    && !t.forward && tag in t.live && tag in t.h.tagToState && t.h.tagToState[tag].OnDevice?
    && t.h.tagToState[tag].tensor.data != t.live[tag].data
  }

  lemma ReloadLeaves(h: HandlerState, groups: nat, window: map<int, int>, tag: Tag)
    requires CommitBackward(h, groups, window).Success? && tag in h.tagToState && h.tagToState[tag].OnDevice?
    ensures
      var state := CommitBackward(h, groups, window).value.tagToState;
      tag in state && state[tag] == h.tagToState[tag]
  {
  }

  lemma EventKeepsWrong(t: Training, layers: nat, groups: nat, window: map<int, int>, e: Event, tag: Tag)
    requires Allowed(t, layers, false, e) && Advance(t, layers, groups, window, e).Success?
    requires Wrong(t, tag) && e != Get(tag)
    ensures Wrong(Advance(t, layers, groups, window, e).value, tag)
  {
    hide CommitForward, CommitBackward, WithoutTag;
    if e.StartBackward? {
      ReloadLeaves(t.h, groups, window, tag);
    }
  }

  lemma RightIsNotWrong(t: Training, layers: nat, groups: nat, window: map<int, int>, e: Event, tag: Tag)
    requires Wrong(t, tag) && (e.Get? ==> e.tag in t.live && FetchedRight(t, e.tag))
    ensures e != Get(tag)
  {
  }

  /** What is wrong is either fetched wrong or not fetched. */
  lemma {:induction false} WrongStays(
      t: Training, layers: nat, groups: nat, window: map<int, int>, run: seq<Event>, tag: Tag)
    requires IsRun(t, layers, groups, window, false, run) && FetchesRight(t, layers, groups, window, run) && Wrong(t, tag)
    ensures After(t, layers, groups, window, run).Success? && tag in After(t, layers, groups, window, run).value.live
    decreases |run|
  {
    if run == [] {
    } else {
      hide Advance, Allowed, Wrong;
      RightIsNotWrong(t, layers, groups, window, run[0], tag);
      EventKeepsWrong(t, layers, groups, window, run[0], tag);
      WrongStays(Advance(t, layers, groups, window, run[0]).value, layers, groups, window, run[1..], tag);
    }
  }

  lemma OtherIsWrong(t: Training, layers: nat, groups: nat, window: map<int, int>, s: Tag, u: Tag)
    requires Allowed(t, layers, false, Get(s)) && FetchedRight(t, s) && u in t.live && t.live[s].data != t.live[u].data
    requires Twins(t.h.tagToState, s, u) || Twins(t.h.tagToState, u, s)
    ensures Advance(t, layers, groups, window, Get(s)).Success?
    ensures Wrong(Advance(t, layers, groups, window, Get(s)).value, u)
  {
    hide WithoutTag;
  }

  /** Of twins that differ, one is fetched wrong or not fetched. */
  lemma {:induction false} TwinsStay(
      t: Training, layers: nat, groups: nat, window: map<int, int>, run: seq<Event>, s: Tag, u: Tag)
    requires IsRun(t, layers, groups, window, false, run) && FetchesRight(t, layers, groups, window, run)
    requires Twins(t.h.tagToState, s, u) && s in t.live && u in t.live && t.live[s].data != t.live[u].data
    ensures After(t, layers, groups, window, run).Success? && After(t, layers, groups, window, run).value.live != map[]
    decreases |run|
  {
    if run == [] {
    } else {
      var e := run[0];
      var next := Advance(t, layers, groups, window, e).value;
      if e == Get(s) {
        OtherIsWrong(t, layers, groups, window, s, u);
        WrongStays(next, layers, groups, window, run[1..], u);
      } else if e == Get(u) {
        OtherIsWrong(t, layers, groups, window, u, s);
        WrongStays(next, layers, groups, window, run[1..], s);
      } else {
        EventKeepsTwins(t, layers, groups, window, e, s, u);
        TwinsStay(next, layers, groups, window, run[1..], s, u);
      }
      hide Advance, Allowed, Twins, Wrong, FetchedRight;
    }
  }

  // ---------------------------------------------------------------- the exact condition

  lemma NotYetMoved(t: Training, layers: nat, groups: nat, window: map<int, int>, group: int, tag: Tag)
    requires Schedule(window, layers, groups) && Inv(t, layers, groups, window) && Allowed(t, layers, false, EndLayer)
    requires Offloads(t.h, groups, window, group) && tag in t.live && tag.group == group
    ensures 0 <= t.h.offloadedCount && InGroup(t.h.tagToState, group, tag) && t.h.tagToState[tag].tensor == t.live[tag]
  {
    hide Ordered;
    assert StandsFor(t.h.tagToState[tag], tag.group, t.live[tag], t.forward, t.h.groupMapping);
  }

  /** A commit that moves differing tensors with the same key to the host leaves twins that differ. */
  lemma DisagreementMakesTwins(t: Training, layers: nat, groups: nat, window: map<int, int>) returns (s: Tag, u: Tag)
    requires Schedule(window, layers, groups) && Inv(t, layers, groups, window) && Allowed(t, layers, false, EndLayer)
    requires !EventAgrees(t, groups, window, EndLayer) && Advance(t, layers, groups, window, EndLayer).Success?
    ensures
      var next := Advance(t, layers, groups, window, EndLayer).value;
      && Twins(next.h.tagToState, s, u) && s in next.live && u in next.live && next.live[s].data != next.live[u].data
  {
    var group :| Offloads(t.h, groups, window, group) && !GroupAgrees(t.live, group);
    s, u :| s in t.live && u in t.live && s.group == group == u.group && t.live[s].key == t.live[u].key
         && t.live[s].data != t.live[u].data;
    NotYetMoved(t, layers, groups, window, group, s);
    NotYetMoved(t, layers, groups, window, group, u);
    hide Inv, Schedule, CommitForward, GroupAgrees;
    ForwardMakesTwins(t.h, groups, window, group, s, u);
  }

  lemma OnlyCommitsDisagree(t: Training, groups: nat, window: map<int, int>, e: Event)
    requires !EventAgrees(t, groups, window, e)
    ensures e == EndLayer
  {
  }

  lemma {:induction false} RightAgrees(t: Training, layers: nat, groups: nat, window: map<int, int>, run: seq<Event>)
    requires Schedule(window, layers, groups) && Inv(t, layers, groups, window)
    requires IsRun(t, layers, groups, window, false, run) && Drains(t, layers, groups, window, run)
    requires FetchesRight(t, layers, groups, window, run)
    ensures RunAgrees(t, layers, groups, window, run)
    decreases |run|
  {
    hide Inv, Allowed, EventAgrees, Schedule, Advance, Twins;
    if run == [] {
    } else {
      var e := run[0];
      var next := Advance(t, layers, groups, window, e).value;
      if EventAgrees(t, groups, window, e) {
        EventKeeps(t, layers, groups, window, e);
        RightAgrees(next, layers, groups, window, run[1..]);
      } else {
        OnlyCommitsDisagree(t, groups, window, e);
        var s, u := DisagreementMakesTwins(t, layers, groups, window);
        TwinsStay(next, layers, groups, window, run[1..], s, u);
      }
    }
  }

  /**
   A run of any number of training steps that fetches everything it saves raises nothing and fetches every
   tensor as it was saved if and only if tensors with the same key agree wherever their group is moved to
   the host.
   */
  lemma {:induction false} TensorsComeBackExactly(layers: nat, groups: nat, run: seq<Event>)
    requires 0 < groups <= layers && IsRun(FIRST, layers, groups, WindowMap(layers, groups), false, run)
    requires Drains(FIRST, layers, groups, WindowMap(layers, groups), run)
    ensures
      FetchesRight(FIRST, layers, groups, WindowMap(layers, groups), run) <==>
      RunAgrees(FIRST, layers, groups, WindowMap(layers, groups), run)
  {
    var window := WindowMap(layers, groups);
    WindowMapIsSchedule(layers, groups);
    FirstInv(layers, groups, window);
    hide Inv, WindowMap;
    if RunAgrees(FIRST, layers, groups, window, run) {
      AgreesIsRight(FIRST, layers, groups, window, run);
    }
    if FetchesRight(FIRST, layers, groups, window, run) {
      RightAgrees(FIRST, layers, groups, window, run);
    }
  }

  // ---------------------------------------------------------------- two tensors in one layer

  /** A model of one layer saves two tensors and starts its backward pass. */
  function TwoTensors(a: Tensor, b: Tensor): seq<Event> {
    [Save(a), Save(b), EndLayer, StartBackward]
  }

  /** The handler when both tensors have been saved. */
  function TwoSaved(a: Tensor, b: Tensor): HandlerState {
    HandlerState(0, 2, map[Tag(0, 0) := OnDevice(a), Tag(0, 1) := OnDevice(b)], [Tag(0, 0), Tag(0, 1)],
                 map[Tag(0, 0) := Some(a), Tag(0, 1) := Some(b)], 0, map[])
  }

  /** The handler after the forward pass. */
  function TwoParked(a: Tensor, b: Tensor): HandlerState {
    HandlerState(1, 0, map[Tag(0, 0) := Offloaded(a.key, a.shape), Tag(0, 1) := Offloaded(b.key, b.shape)],
                 [Tag(0, 0), Tag(0, 1)], map[Tag(0, 0) := None, Tag(0, 1) := None], 1, map[0 := map[a.key := a.data]])
  }

  lemma BackupOfTwo(a: Tensor, b: Tensor)
    requires a.key == b.key
    ensures BackupOf(TwoSaved(a, b).tagToState, [Tag(0, 0), Tag(0, 1)], 0) == map[a.key := a.data]
  {
    var state := TwoSaved(a, b).tagToState;
    assert [Tag(0, 0), Tag(0, 1)][..1] == [Tag(0, 0)] && [Tag(0, 0)][..0] == [];
    assert BackupOf(state, [Tag(0, 0)], 0) == map[a.key := a.data];
  }

  lemma TwoCommitted(a: Tensor, b: Tensor)
    requires a.key == b.key
    ensures CommitForward(TwoSaved(a, b), 1, map[0 := 0]) == Success(TwoParked(a, b))
  {
    var h := TwoSaved(a, b);
    BackupOfTwo(a, b);
    assert MoveGroup(h.tagToState, 0) == TwoParked(a, b).tagToState;
    assert ReleaseBuffers(h.tagToBuf, 0) == TwoParked(a, b).tagToBuf;
  }

  /** The handler after the backward commit, if the copy can be viewed in both shapes. */
  lemma TwoReloaded(a: Tensor, b: Tensor)
    requires a.key == b.key && a.Valid()
    ensures
      var r := CommitBackward(TwoParked(a, b), 1, map[0 := 0]);
      if |a.data| != Numel(b.shape) then r == Failure(BadView)
      else
        && r.Success? && Tag(0, 1) in r.value.tagToState
        && r.value.tagToState[Tag(0, 1)] == OnDevice(Tensor(Reloaded(b.key), b.shape, a.data))
  {
    hide Numel;
    var h := TwoParked(a, b).(currentGroup := 0);
    var state, backup := h.tagToState, h.groupMapping[0];
    assert Recoverable(state[Tag(0, 0)], backup);
    assert Recoverable(state[Tag(0, 1)], backup) <==> |a.data| == Numel(b.shape);
    assert forall tag <- state.Keys :: tag == Tag(0, 0) || tag == Tag(0, 1);
  }

  lemma TwoSteps(a: Tensor, b: Tensor)
    requires a.key == b.key
    ensures WindowMap(1, 1) == map[0 := 0]
    ensures Push(INITIAL, 1, a, true).Success? && Push(Push(INITIAL, 1, a, true).value.0, 1, b, true).Success?
    ensures Push(Push(INITIAL, 1, a, true).value.0, 1, b, true).value.0 == TwoSaved(a, b)
  {
    assert Window(1, 1, 0) == 0;
  }

  lemma AfterNext(t: Training, layers: nat, groups: nat, window: map<int, int>, run: seq<Event>)
    requires run != [] && Advance(t, layers, groups, window, run[0]).Success?
    ensures
      After(t, layers, groups, window, run) ==
      After(Advance(t, layers, groups, window, run[0]).value, layers, groups, window, run[1..])
  {
  }

  lemma AfterOne(t: Training, layers: nat, groups: nat, window: map<int, int>, e: Event)
    ensures After(t, layers, groups, window, [e]) == Advance(t, layers, groups, window, e)
  {
    assert [e][1..] == [];
  }

  lemma ParkTwo(a: Tensor, b: Tensor)
    requires a.key == b.key
    ensures
      var live := map[Tag(0, 0) := a, Tag(0, 1) := b];
      After(FIRST, 1, 1, WindowMap(1, 1), TwoTensors(a, b)) ==
      Advance(Training(TwoParked(a, b), false, live), 1, 1, WindowMap(1, 1), StartBackward)
  {
    TwoSteps(a, b);
    TwoCommitted(a, b);
    hide CommitForward, CommitBackward, Push, WindowMap;
    var window := WindowMap(1, 1);
    var run := TwoTensors(a, b);
    var t1 := Advance(FIRST, 1, 1, window, Save(a)).value;
    var t2 := Advance(t1, 1, 1, window, Save(b)).value;
    var t3 := Advance(t2, 1, 1, window, EndLayer).value;
    assert t2.h == TwoSaved(a, b) && t3.h == TwoParked(a, b);
    assert run[1..] == [Save(b), EndLayer, StartBackward] && run[1..][1..] == [EndLayer, StartBackward];
    assert run[1..][1..][1..] == [StartBackward];
    AfterNext(FIRST, 1, 1, window, run);
    AfterNext(t1, 1, 1, window, run[1..]);
    AfterNext(t2, 1, 1, window, run[1..][1..]);
    AfterOne(t3, 1, 1, window, StartBackward);
    hide After;
  }

  /**
   Two tensors of one layer that share a key, such as a tensor and its transpose: the second one comes
   back right if and only if it has the elements of the first.
   */
  lemma {:induction false} SharedKey(a: Tensor, b: Tensor)
    requires a.key == b.key && a.Valid() && b.Valid()
    ensures
      var r := After(FIRST, 1, 1, WindowMap(1, 1), TwoTensors(a, b));
      (r.Success? && Pop(r.value.h, Tagged(Tag(0, 1))).Success?
       && SameTensor(Pop(r.value.h, Tagged(Tag(0, 1))).value.1, b)) <==> a.data == b.data
  {
    hide After, CommitBackward;
    ParkTwo(a, b);
    TwoSteps(a, b);
    TwoReloaded(a, b);
  }
}
