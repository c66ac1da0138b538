/**
 Whole training steps through the offload handler: every saved tensor comes back, nothing raises,
 the handler is as new afterwards, and the device never holds more than two layer groups.
 */
module OffloadRuns {
  import opened Wrappers
  import opened Arithmetic
  import opened WeightChunks
  import opened OffloadHandler

  // ---------------------------------------------------------------- the window schedule

  lemma WindowStep(layers: nat, groups: nat, i: nat)
    requires 0 < groups <= layers && i + 1 < groups
    ensures Window(layers, groups, i) < Window(layers, groups, i + 1)
  {
    var q := layers / groups;
    assert q >= 1 && q * (i + 2) == q * (i + 1) + q;
  }

  lemma {:induction false} WindowMonotone(layers: nat, groups: nat, i: nat, j: nat)
    requires 0 < groups <= layers && i < j < groups
    ensures Window(layers, groups, i) < Window(layers, groups, j)
  {
    WindowStep(layers, groups, j - 1);
    if i == j - 1 {
    } else {
      WindowMonotone(layers, groups, i, j - 1);
    }
  }

  lemma WindowAhead(layers: nat, groups: nat, i: nat)
    requires 0 < groups <= layers && i < groups
    ensures i <= Window(layers, groups, i) && (groups < layers ==> i + 1 <= Window(layers, groups, i))
  {
    var q, rest := layers / groups, layers % groups;
    assert layers == q * groups + rest;
    if q == 1 {
      assert q * (i + 1) == i + 1;
    } else {
      assert q * (i + 1) >= 2 * (i + 1);
    }
  }

  lemma LastWindow(layers: nat, groups: nat)
    requires 0 < groups <= layers
    ensures Window(layers, groups, groups - 1) == layers - 1
  {
    assert layers == (layers / groups) * groups + layers % groups;
  }

  /** How many layers lie between a window and the one before it, or the first layer. */
  function WindowSize(layers: nat, groups: nat, i: nat): int
    requires 0 < groups
  {
    Window(layers, groups, i) - if i == 0 then -1 else Window(layers, groups, i - 1)
  }

  lemma WindowSizeIs(layers: nat, groups: nat, i: nat)
    requires 0 < groups && i < groups
    ensures WindowSize(layers, groups, i) == layers / groups + if i < layers % groups then 1 else 0
  {
    OneMore(i, layers / groups);
  }

  /**
   The windows divide the layers evenly: they end at the last layer, no window is more than one layer longer
   than another, and the longer ones come first.
   */
  lemma {:induction false} WindowsEven(layers: nat, groups: nat, i: nat, j: nat)
    requires 0 < groups <= layers && i <= j < groups
    ensures Window(layers, groups, groups - 1) == layers - 1
    ensures WindowSize(layers, groups, j) <= WindowSize(layers, groups, i) <= WindowSize(layers, groups, j) + 1
  {
    LastWindow(layers, groups);
    WindowSizeIs(layers, groups, i);
    WindowSizeIs(layers, groups, j);
  }

  /** All that the runs need to know about the schedule. */
  ghost predicate Schedule(window: map<int, int>, layers: nat, groups: nat) {
    && 0 < groups <= layers
    && (forall i :: i in window <==> 0 <= i < groups)
    && (forall i, j :: 0 <= i < j < groups ==> window[i] < window[j])
    && (forall i :: 0 <= i < groups ==> i <= window[i] && (groups < layers ==> i + 1 <= window[i]))
    && window[groups - 1] == layers - 1
  }

  lemma {:induction false} WindowMapIsSchedule(layers: nat, groups: nat)
    requires 0 < groups <= layers
    ensures Schedule(WindowMap(layers, groups), layers, groups)
  {
    var w := WindowMap(layers, groups);
    forall i, j | 0 <= i < j < groups
      ensures w[i] < w[j]
    {
      WindowMonotone(layers, groups, i, j);
    }
    forall i | 0 <= i < groups
      ensures i <= w[i] && (groups < layers ==> i + 1 <= w[i])
    {
      WindowAhead(layers, groups, i);
    }
    LastWindow(layers, groups);
  }

  // ---------------------------------------------------------------- training steps

  datatype Event = Save(tensor: Tensor) | EndLayer | StartBackward | Get(tag: Tag) | NextIteration

  /** The handler, the direction of the pass, and the tensors that were saved and not yet fetched. */
  datatype Training = Training(h: HandlerState, forward: bool, live: map<Tag, Tensor>)

  const FIRST := Training(INITIAL, true, map[])

  /**
   The order in which autograd calls the hooks: `layers` layers, each saving tensors and then
   committing; in the backward pass every commit precedes the fetches of its layer. `strict` asks that
   a layer's tensors are all fetched before the next layer's commit.
   */
  ghost predicate Allowed(t: Training, layers: nat, strict: bool, e: Event) {
    match e
    case Save(tensor) => t.forward && t.h.currentGroup < layers && tensor.Valid()
    case EndLayer => t.forward && t.h.currentGroup < layers
    case StartBackward =>
      && !t.forward && 0 < t.h.currentGroup
      && (strict && t.h.currentGroup < layers ==> forall tag <- t.live.Keys :: tag.group < t.h.currentGroup)
    case Get(tag) => !t.forward && tag in t.live && t.h.currentGroup <= tag.group
    case NextIteration => !t.forward && t.h.currentGroup == 0 && t.live == map[]
  }

  /** The handler's part in an event. */
  ghost function Handle(h: HandlerState, groups: nat, window: map<int, int>, e: Event): Result<HandlerState, HandlerError> {
    match e
    case Save(tensor) => var (h', _) :- Push(h, groups, tensor, true); Success(h')
    case EndLayer => CommitForward(h, groups, window)
    case StartBackward => CommitBackward(h, groups, window)
    case Get(tag) => var (h', _) :- Pop(h, Tagged(tag)); Success(h')
    case NextIteration => Success(h)
  }

  ghost function Advance(t: Training, layers: nat, groups: nat, window: map<int, int>, e: Event)
    : Result<Training, HandlerError>
  {
    var h :- Handle(t.h, groups, window, e);
    match e
    case Save(tensor) => Success(t.(h := h, live := t.live[Tag(t.h.currentGroup, t.h.tensorCount) := tensor]))
    case EndLayer => Success(t.(h := h, forward := h.currentGroup < layers))
    case StartBackward => Success(t.(h := h))
    case Get(tag) => Success(t.(h := h, live := t.live - {tag}))
    case NextIteration => Success(t.(forward := true))
  }

  // ---------------------------------------------------------------- the invariant

  /** What is kept under a tag stands for the tensor that was saved. */
  ghost predicate StandsFor(saved: Saved, group: int, tensor: Tensor, forward: bool, mapping: map<int, Backup>) {
    match saved
    case OnDevice(kept) => SameTensor(kept, tensor) && (forward ==> kept == tensor)
    case Offloaded(key, shape) =>
      && key == tensor.key && shape == tensor.shape && group in mapping
      && key in mapping[group] && mapping[group][key] == tensor.data
  }

  /** Live tensors of the group with the same key have the same elements. */
  ghost predicate GroupAgrees(live: map<Tag, Tensor>, group: int) {
    forall s <- live.Keys, t <- live.Keys ::
      s.group == group == t.group && live[s].key == live[t].key ==> live[s].data == live[t].data
  }

  /** The groups that a forward commit moves to the host: group 0 at the first one, the next at a window. */
  predicate Offloads(h: HandlerState, groups: nat, window: map<int, int>, group: int) {
    || (h.currentGroup == 0 && group == 0)
    || (h.offloadedCount in window && window[h.offloadedCount] == h.currentGroup
        && h.offloadedCount < groups - 1 && group == h.offloadedCount + 1)
  }

  /** In the groups that the event moves to the host, tensors with the same key have the same elements. */
  ghost predicate EventAgrees(t: Training, groups: nat, window: map<int, int>, e: Event) {
    e.EndLayer? ==> forall group :: Offloads(t.h, groups, window, group) ==> GroupAgrees(t.live, group)
  }

  /** The tags are those of the live tensors, and each stands for its tensor. */
  ghost predicate TagsInv(t: Training, layers: nat) {
    && t.h.tagToState.Keys == t.live.Keys && t.h.tagToBuf.Keys <= t.live.Keys
    && Ordered(t.h.tagToState, t.h.tagOrder)
    && (forall tag <- t.live.Keys ::
          && 0 <= tag.group < layers && t.live[tag].Valid()
          && StandsFor(t.h.tagToState[tag], tag.group, t.live[tag], t.forward, t.h.groupMapping))
    && (t.forward ==> forall tag <- t.live.Keys ::
          tag.group <= t.h.currentGroup && (tag.group == t.h.currentGroup ==> tag.index < t.h.tensorCount))
  }

  /** What is not parked on the host is on the device. */
  ghost predicate RestOnDevice(h: HandlerState) {
    forall tag <- h.tagToState.Keys :: tag.group !in h.groupMapping ==> h.tagToState[tag].OnDevice?
  }

  /** The tensors of a parked group are all on the host. */
  ghost predicate Parked(h: HandlerState) {
    forall tag <- h.tagToState.Keys :: tag.group in h.groupMapping ==> h.tagToState[tag].Offloaded?
  }

  /** Forward: the groups up to the count are offloaded once the first commit is over. */
  ghost predicate ForwardInv(t: Training, layers: nat, groups: nat, window: map<int, int>)
    requires Schedule(window, layers, groups)
  {
    var c, n := t.h.currentGroup, t.h.offloadedCount;
    && 0 <= c < layers && 0 <= n < groups
    && c <= window[n] && (0 < n ==> window[n - 1] < c)
    && (forall g :: g in t.h.groupMapping <==> 0 < c && 0 <= g <= n)
    && RestOnDevice(t.h)
  }

  /** Backward: the groups whose window is still to come are offloaded. */
  ghost predicate BackwardInv(t: Training, layers: nat, groups: nat, window: map<int, int>)
    requires Schedule(window, layers, groups)
  {
    var c, n := t.h.currentGroup, t.h.offloadedCount;
    && 0 <= c <= layers && t.h.tensorCount == 0
    && (if c == 0 then n == 0 else 1 <= n <= groups && (n < groups ==> c <= window[n]) && (1 < n ==> window[n - 1] < c))
    && (forall g :: g in t.h.groupMapping <==> 0 <= g < groups && window[g] < c)
  }

  ghost predicate Inv(t: Training, layers: nat, groups: nat, window: map<int, int>)
    requires Schedule(window, layers, groups)
  {
    TagsInv(t, layers) && if t.forward then ForwardInv(t, layers, groups, window) else BackwardInv(t, layers, groups, window)
  }

  lemma FirstInv(layers: nat, groups: nat, window: map<int, int>)
    requires Schedule(window, layers, groups)
    ensures Inv(FIRST, layers, groups, window)
  {
  }

  lemma SaveTags(t: Training, layers: nat, groups: nat, tensor: Tensor)
    requires TagsInv(t, layers) && 0 <= t.h.currentGroup && Allowed(t, layers, false, Save(tensor))
    ensures
      var tag, r := Tag(t.h.currentGroup, t.h.tensorCount), Push(t.h, groups, tensor, true);
      tag !in t.live && r.Success? && TagsInv(t.(h := r.value.0, live := t.live[tag := tensor]), layers)
  {
    var tag := Tag(t.h.currentGroup, t.h.tensorCount);
    InsertOrdered(t.h.tagToState, t.h.tagOrder, tag, OnDevice(tensor));
    assert StandsFor(OnDevice(tensor), tag.group, tensor, t.forward, t.h.groupMapping);
    hide Ordered, StandsFor;
  }

  lemma SaveKeeps(t: Training, layers: nat, groups: nat, window: map<int, int>, tensor: Tensor)
    requires Schedule(window, layers, groups) && Inv(t, layers, groups, window) && Allowed(t, layers, false, Save(tensor))
    ensures Advance(t, layers, groups, window, Save(tensor)).Success?
    ensures Inv(Advance(t, layers, groups, window, Save(tensor)).value, layers, groups, window)
  {
    hide TagsInv;
    SaveTags(t, layers, groups, tensor);
  }

  /** A tensor whose layer's commit has come is on the device. */
  lemma FetchedOnDevice(t: Training, layers: nat, groups: nat, window: map<int, int>, tag: Tag)
    requires Schedule(window, layers, groups) && Inv(t, layers, groups, window) && Allowed(t, layers, false, Get(tag))
    ensures t.h.tagToState[tag].OnDevice? && SameTensor(t.h.tagToState[tag].tensor, t.live[tag])
  {
    assert StandsFor(t.h.tagToState[tag], tag.group, t.live[tag], t.forward, t.h.groupMapping);
  }

  lemma GetTags(t: Training, layers: nat, tag: Tag)
    requires TagsInv(t, layers) && !t.forward && tag in t.live
    ensures
      var h := t.h.(
        tagToState := t.h.tagToState - {tag}, tagOrder := WithoutTag(t.h.tagOrder, tag), tagToBuf := t.h.tagToBuf - {tag});
      TagsInv(t.(h := h, live := t.live - {tag}), layers)
  {
    hide StandsFor, Ordered;
    RemoveOrdered(t.h.tagToState, t.h.tagOrder, tag);
  }

  /** The fetched tensor is the saved one. */
  lemma GetKeeps(t: Training, layers: nat, groups: nat, window: map<int, int>, tag: Tag)
    requires Schedule(window, layers, groups) && Inv(t, layers, groups, window) && Allowed(t, layers, false, Get(tag))
    ensures Pop(t.h, Tagged(tag)).Success? && SameTensor(Pop(t.h, Tagged(tag)).value.1, t.live[tag])
    ensures Advance(t, layers, groups, window, Get(tag)).Success?
    ensures Inv(Advance(t, layers, groups, window, Get(tag)).value, layers, groups, window)
  {
    hide StandsFor, Ordered, WithoutTag;
    FetchedOnDevice(t, layers, groups, window, tag);
    GetTags(t, layers, tag);
  }

  lemma OffloadSucceeds(h: HandlerState, group: int)
    requires forall tag <- h.tagToState.Keys :: tag.group == group ==> h.tagToState[tag].OnDevice?
    ensures
      var r := BulkOffload(h, group);
      && r.Success? && r.value.groupMapping.Keys == h.groupMapping.Keys + {group}
      && r.value.currentGroup == h.currentGroup && r.value.offloadedCount == h.offloadedCount
      && r.value.tagToBuf == h.tagToBuf && r.value.tagToState.Keys == h.tagToState.Keys
      && (forall tag <- h.tagToState.Keys :: tag.group == group ==> r.value.tagToState[tag].Offloaded?)
      && (forall tag <- h.tagToState.Keys :: tag.group != group ==> r.value.tagToState[tag] == h.tagToState[tag])
  {
  }

  lemma LiveKeysAgree(t: Training, layers: nat, group: int)
    requires TagsInv(t, layers) && t.forward && GroupAgrees(t.live, group)
    ensures KeysAgree(t.h.tagToState, group)
  {
    hide Ordered;
    forall tag <- t.live.Keys | InGroup(t.h.tagToState, group, tag)
      ensures t.h.tagToState[tag].tensor == t.live[tag]
    {
      assert StandsFor(t.h.tagToState[tag], tag.group, t.live[tag], t.forward, t.h.groupMapping);
    }
  }

  lemma OffloadedStandsFor(t: Training, layers: nat, group: int, tag: Tag)
    requires TagsInv(t, layers) && t.forward && tag in t.live && BulkOffload(t.h, group).Success?
    requires GroupAgrees(t.live, group)
    requires forall tag <- t.h.tagToState.Keys :: tag.group == group ==> t.h.tagToState[tag].OnDevice?
    ensures
      var h := BulkOffload(t.h, group).value;
      StandsFor(h.tagToState[tag], tag.group, t.live[tag], t.forward, h.groupMapping)
  {
    if tag.group == group {
      LiveKeysAgree(t, layers, group);
      hide Ordered, BackupOf;
      assert StandsFor(t.h.tagToState[tag], tag.group, t.live[tag], t.forward, t.h.groupMapping);
      BackupAgrees(t.h.tagToState, t.h.tagOrder, group, tag);
    }
  }

  /** Offloading a group whose tensors are all on the device. */
  lemma OffloadTags(t: Training, layers: nat, group: int)
    requires TagsInv(t, layers) && t.forward && BulkOffload(t.h, group).Success? && GroupAgrees(t.live, group)
    requires forall tag <- t.h.tagToState.Keys :: tag.group == group ==> t.h.tagToState[tag].OnDevice?
    ensures TagsInv(t.(h := BulkOffload(t.h, group).value), layers)
  {
    var h := BulkOffload(t.h, group).value;
    forall tag <- t.live.Keys
      ensures StandsFor(h.tagToState[tag], tag.group, t.live[tag], t.forward, h.groupMapping)
    {
      OffloadedStandsFor(t, layers, group, tag);
    }
  }

  lemma FirstIsKept(state: map<Tag, Saved>, order: seq<Tag>)
    requires Ordered(state, order)
    ensures order != [] ==> order[0] in state
  {
    assert order != [] ==> order[0] in order;
  }

  lemma NextIterationKeeps(t: Training, layers: nat, groups: nat, window: map<int, int>)
    requires Schedule(window, layers, groups) && Inv(t, layers, groups, window) && Allowed(t, layers, false, NextIteration)
    ensures t.h == INITIAL
    ensures Inv(t.(forward := true), layers, groups, window)
  {
    forall g
      ensures g !in t.h.groupMapping
    {
    }
    assert t.h.tagToState == map[] && t.h.tagToBuf == map[] && t.h.groupMapping == map[];
    FirstIsKept(t.h.tagToState, t.h.tagOrder);
  }

  /** One more group is parked on the host, and everything else stays as it is. */
  lemma OffloadNext(t: Training, layers: nat, group: int)
    requires TagsInv(t, layers) && t.forward && group !in t.h.groupMapping && RestOnDevice(t.h)
    requires GroupAgrees(t.live, group)
    ensures
      var r := BulkOffload(t.h, group);
      && r.Success? && TagsInv(t.(h := r.value), layers) && RestOnDevice(r.value)
      && r.value.groupMapping.Keys == t.h.groupMapping.Keys + {group}
      && r.value.currentGroup == t.h.currentGroup && r.value.offloadedCount == t.h.offloadedCount
      && r.value.tagToBuf == t.h.tagToBuf && (Parked(t.h) ==> Parked(r.value))
  {
    hide TagsInv, BulkOffload;
    OffloadSucceeds(t.h, group);
    OffloadTags(t, layers, group);
  }

  /** The first commit starts with the offload of group 0. */
  lemma FirstOffload(t: Training, layers: nat, groups: nat, window: map<int, int>)
    requires Schedule(window, layers, groups) && TagsInv(t, layers) && t.forward && ForwardInv(t, layers, groups, window)
    requires t.h.currentGroup == 0 ==> GroupAgrees(t.live, 0)
    ensures
      var r := if t.h.currentGroup == 0 then BulkOffload(t.h, 0) else Success(t.h);
      && r.Success? && TagsInv(t.(h := r.value), layers) && RestOnDevice(r.value)
      && r.value.currentGroup == t.h.currentGroup && r.value.offloadedCount == t.h.offloadedCount
      && (forall g :: g in r.value.groupMapping <==> 0 <= g <= t.h.offloadedCount)
      && r.value.tagToBuf == t.h.tagToBuf && (Parked(t.h) ==> Parked(r.value))
  {
    hide TagsInv, GroupAgrees, BulkOffload, RestOnDevice, Parked;
    if t.h.currentGroup == 0 {
      OffloadNext(t, layers, 0);
    }
  }

  lemma ReleaseTags(t: Training, layers: nat, group: int)
    requires TagsInv(t, layers)
    ensures TagsInv(t.(h := t.h.(tagToBuf := ReleaseBuffers(t.h.tagToBuf, group))), layers)
  {
    hide StandsFor;
  }

  /** At its window, a group's buffers are released and the next group is offloaded. */
  function AtWindow(h: HandlerState, groups: nat): Result<HandlerState, HandlerError> {
    var released := h.(tagToBuf := ReleaseBuffers(h.tagToBuf, h.offloadedCount));
    if h.offloadedCount < groups - 1 then BulkOffload(released, h.offloadedCount + 1) else Success(released)
  }

  lemma WindowOffload(t: Training, layers: nat, groups: nat)
    requires TagsInv(t, layers) && t.forward && 0 <= t.h.offloadedCount < groups && RestOnDevice(t.h)
    requires forall g :: g in t.h.groupMapping <==> 0 <= g <= t.h.offloadedCount
    requires t.h.offloadedCount < groups - 1 ==> GroupAgrees(t.live, t.h.offloadedCount + 1)
    ensures
      var n, r := t.h.offloadedCount, AtWindow(t.h, groups);
      && r.Success? && TagsInv(t.(h := r.value), layers) && RestOnDevice(r.value)
      && r.value.currentGroup == t.h.currentGroup && r.value.offloadedCount == n
      && (forall g :: g in r.value.groupMapping <==> 0 <= g <= n + 1 && g < groups)
      && r.value.tagToBuf == ReleaseBuffers(t.h.tagToBuf, n) && (Parked(t.h) ==> Parked(r.value))
  {
    hide TagsInv, GroupAgrees, BulkOffload, ReleaseBuffers;
    var h := t.h.(tagToBuf := ReleaseBuffers(t.h.tagToBuf, t.h.offloadedCount));
    ReleaseTags(t, layers, t.h.offloadedCount);
    if t.h.offloadedCount < groups - 1 {
      OffloadNext(t.(h := h), layers, t.h.offloadedCount + 1);
    }
  }

  /** The counters are not part of what the tags say. */
  lemma CountTags(t: Training, layers: nat, h0: HandlerState, groups: nat)
    requires t.forward
    ensures
      var n, r := h0.offloadedCount, AtWindow(h0, groups);
      r.Success? && TagsInv(t.(h := r.value), layers) ==> TagsInv(t.(h := r.value.(offloadedCount := n + 1)), layers)
  {
    hide BulkOffload, ReleaseBuffers, StandsFor;
  }

  /** What the handler knows after the synchronisation of commit `c`. */
  lemma SynchronizeKeeps(t: Training, layers: nat, groups: nat, window: map<int, int>)
    requires Schedule(window, layers, groups) && TagsInv(t, layers) && t.forward && ForwardInv(t, layers, groups, window)
    requires EventAgrees(t, groups, window, EndLayer)
    ensures
      var c, n, r := t.h.currentGroup, t.h.offloadedCount, Synchronize(t.h, groups, window);
      && r.Success? && TagsInv(t.(h := r.value), layers) && RestOnDevice(r.value) && r.value.currentGroup == c
      && r.value.offloadedCount == (if window[n] == c then n + 1 else n)
      && (forall g :: g in r.value.groupMapping <==> 0 <= g <= r.value.offloadedCount && g < groups)
      && r.value.tagToBuf == (if window[n] == c then ReleaseBuffers(t.h.tagToBuf, n) else t.h.tagToBuf)
      && (Parked(t.h) ==> Parked(r.value))
  {
    hide GroupAgrees, BulkOffload, ReleaseBuffers, TagsInv;
    FirstOffload(t, layers, groups, window);
    var h0 := (if t.h.currentGroup == 0 then BulkOffload(t.h, 0) else Success(t.h)).value;
    if window[h0.offloadedCount] == h0.currentGroup {
      WindowOffload(t.(h := h0), layers, groups);
      CountTags(t, layers, h0, groups);
    }
  }

  lemma CommitTags(t: Training, layers: nat, forward: bool)
    requires TagsInv(t, layers) && t.forward
    ensures TagsInv(t.(h := t.h.(currentGroup := t.h.currentGroup + 1, tensorCount := 0), forward := forward), layers)
  {
  }

  lemma EndLayerKeeps(t: Training, layers: nat, groups: nat, window: map<int, int>)
    requires Schedule(window, layers, groups) && Inv(t, layers, groups, window) && Allowed(t, layers, false, EndLayer)
    requires EventAgrees(t, groups, window, EndLayer)
    ensures Advance(t, layers, groups, window, EndLayer).Success?
    ensures Inv(Advance(t, layers, groups, window, EndLayer).value, layers, groups, window)
  {
    hide EventAgrees, Synchronize, TagsInv, Parked;
    SynchronizeKeeps(t, layers, groups, window);
    var h := Synchronize(t.h, groups, window).value;
    CommitTags(t.(h := h), layers, h.currentGroup + 1 < layers);
    assert t.h.offloadedCount < groups - 1 ==> window[t.h.offloadedCount] < window[groups - 1];
  }

  /** Reloading a group brings every tensor of it back to the device. */
  lemma ReloadKeeps(t: Training, layers: nat, groups: nat, group: int)
    requires TagsInv(t, layers) && !t.forward && group < groups && group in t.h.groupMapping
    ensures
      var r := BulkReload(t.h, groups, group);
      && r.Success? && TagsInv(t.(h := r.value), layers)
      && r.value.groupMapping == t.h.groupMapping - {group} && r.value.currentGroup == t.h.currentGroup
      && r.value.offloadedCount == t.h.offloadedCount && r.value.tensorCount == t.h.tensorCount
      && r.value.tagToBuf == t.h.tagToBuf && (Parked(t.h) ==> Parked(r.value))
  {
    var r := BulkReload(t.h, groups, group);
    SameKeysOrdered(t.h.tagToState, RecoverGroup(t.h.tagToState, group, t.h.groupMapping[group]), t.h.tagOrder);
    hide Ordered;
  }

  lemma CountersTags(t: Training, layers: nat, currentGroup: int, offloadedCount: int)
    requires TagsInv(t, layers) && !t.forward
    ensures TagsInv(t.(h := t.h.(currentGroup := currentGroup, offloadedCount := offloadedCount)), layers)
  {
    hide StandsFor;
  }

  /** What a backward commit does to a handler that is in step. */
  lemma CommitBackwardKeeps(t: Training, layers: nat, groups: nat, window: map<int, int>)
    requires Schedule(window, layers, groups) && TagsInv(t, layers) && !t.forward
    requires BackwardInv(t, layers, groups, window) && 0 < t.h.currentGroup
    ensures
      var c, n, r := t.h.currentGroup - 1, t.h.offloadedCount, CommitBackward(t.h, groups, window);
      && r.Success? && TagsInv(t.(h := r.value), layers) && r.value.currentGroup == c && r.value.tensorCount == 0
      && r.value.groupMapping == (if window[n - 1] == c then t.h.groupMapping - {n - 1} else t.h.groupMapping)
      && r.value.offloadedCount == (if c == 0 then 0 else if window[n - 1] == c && n > 1 then n - 1 else n)
      && r.value.tagToBuf == t.h.tagToBuf && (Parked(t.h) ==> Parked(r.value))
  {
    hide BulkReload, TagsInv;
    var h := t.h.(currentGroup := t.h.currentGroup - 1);
    CountersTags(t, layers, h.currentGroup, h.offloadedCount);
    if window[h.offloadedCount - 1] == h.currentGroup {
      ReloadKeeps(t.(h := h), layers, groups, h.offloadedCount - 1);
      var h1 := BulkReload(h, groups, h.offloadedCount - 1).value;
      CountersTags(t.(h := h1), layers, h1.currentGroup, CommitBackward(t.h, groups, window).value.offloadedCount);
    } else {
      CountersTags(t.(h := h), layers, h.currentGroup, CommitBackward(t.h, groups, window).value.offloadedCount);
    }
  }

  lemma StartBackwardKeeps(t: Training, layers: nat, groups: nat, window: map<int, int>)
    requires Schedule(window, layers, groups) && Inv(t, layers, groups, window) && Allowed(t, layers, false, StartBackward)
    ensures Advance(t, layers, groups, window, StartBackward).Success?
    ensures Inv(Advance(t, layers, groups, window, StartBackward).value, layers, groups, window)
  {
    hide CommitBackward, TagsInv, Parked;
    CommitBackwardKeeps(t, layers, groups, window);
  }

  // ---------------------------------------------------------------- theorems

  lemma {:induction false} EventKeeps(t: Training, layers: nat, groups: nat, window: map<int, int>, e: Event)
    requires Schedule(window, layers, groups) && Inv(t, layers, groups, window) && Allowed(t, layers, false, e)
    requires EventAgrees(t, groups, window, e)
    ensures Advance(t, layers, groups, window, e).Success?
    ensures Inv(Advance(t, layers, groups, window, e).value, layers, groups, window)
  {
    match e
    case Save(tensor) => SaveKeeps(t, layers, groups, window, tensor);
    case EndLayer => EndLayerKeeps(t, layers, groups, window);
    case StartBackward => StartBackwardKeeps(t, layers, groups, window);
    case Get(tag) => GetKeeps(t, layers, groups, window, tag);
    case NextIteration => NextIterationKeeps(t, layers, groups, window);
  }

  /** Every event of the run is allowed when it comes; the handler may still raise. */
  ghost predicate IsRun(t: Training, layers: nat, groups: nat, window: map<int, int>, strict: bool, run: seq<Event>)
    decreases |run|
  {
    run == [] ||
    (Allowed(t, layers, strict, run[0]) &&
     var next := Advance(t, layers, groups, window, run[0]);
     next.Success? ==> IsRun(next.value, layers, groups, window, strict, run[1..]))
  }

  /** Wherever the run moves groups to the host, tensors with the same key have the same elements. */
  ghost predicate RunAgrees(t: Training, layers: nat, groups: nat, window: map<int, int>, run: seq<Event>)
    decreases |run|
  {
    run == [] ||
    (EventAgrees(t, groups, window, run[0]) &&
     var next := Advance(t, layers, groups, window, run[0]);
     next.Success? ==> RunAgrees(next.value, layers, groups, window, run[1..]))
  }

  ghost function After(t: Training, layers: nat, groups: nat, window: map<int, int>, run: seq<Event>)
    : Result<Training, HandlerError>
    decreases |run|
  {
    if run == [] then Success(t)
    else
      var next :- Advance(t, layers, groups, window, run[0]);
      After(next, layers, groups, window, run[1..])
  }

  lemma {:induction false} RunInv(t: Training, layers: nat, groups: nat, window: map<int, int>, run: seq<Event>)
    requires Schedule(window, layers, groups) && Inv(t, layers, groups, window)
    requires IsRun(t, layers, groups, window, false, run) && RunAgrees(t, layers, groups, window, run)
    ensures After(t, layers, groups, window, run).Success?
    ensures Inv(After(t, layers, groups, window, run).value, layers, groups, window)
    decreases |run|
  {
    if run == [] {
    } else {
      EventKeeps(t, layers, groups, window, run[0]);
      RunInv(Advance(t, layers, groups, window, run[0]).value, layers, groups, window, run[1..]);
    }
  }

  /**
   Over any number of training steps in which tensors with the same key agree where they are moved to the
   host, no assert fires and no lookup misses, and every tensor that is fetched has the shape and the
   elements it was saved with; in particular it is not a placeholder.
   */
  lemma {:induction false} TensorsComeBack(layers: nat, groups: nat, run: seq<Event>, tag: Tag)
    requires 0 < groups <= layers && IsRun(FIRST, layers, groups, WindowMap(layers, groups), false, run)
    requires RunAgrees(FIRST, layers, groups, WindowMap(layers, groups), run)
    ensures After(FIRST, layers, groups, WindowMap(layers, groups), run).Success?
    ensures
      var t := After(FIRST, layers, groups, WindowMap(layers, groups), run).value;
      Allowed(t, layers, false, Get(tag)) ==>
        Pop(t.h, Tagged(tag)).Success? && SameTensor(Pop(t.h, Tagged(tag)).value.1, t.live[tag])
  {
    var window := WindowMap(layers, groups);
    WindowMapIsSchedule(layers, groups);
    FirstInv(layers, groups, window);
    RunInv(FIRST, layers, groups, window, run);
    var t := After(FIRST, layers, groups, window, run).value;
    if Allowed(t, layers, false, Get(tag)) {
      GetKeeps(t, layers, groups, window, tag);
    }
  }

  /** When the backward pass is over and every tensor has been fetched, the handler is as it was created. */
  lemma {:induction false} HandlerIsAsNew(layers: nat, groups: nat, run: seq<Event>)
    requires 0 < groups <= layers && IsRun(FIRST, layers, groups, WindowMap(layers, groups), false, run)
    requires RunAgrees(FIRST, layers, groups, WindowMap(layers, groups), run)
    ensures
      var t := After(FIRST, layers, groups, WindowMap(layers, groups), run);
      t.Success? && (!t.value.forward && t.value.h.currentGroup == 0 && t.value.live == map[] ==> t.value.h == INITIAL)
  {
    var window := WindowMap(layers, groups);
    WindowMapIsSchedule(layers, groups);
    FirstInv(layers, groups, window);
    RunInv(FIRST, layers, groups, window, run);
    var t := After(FIRST, layers, groups, window, run).value;
    if !t.forward && t.h.currentGroup == 0 && t.live == map[] {
      NextIterationKeeps(t, layers, groups, window);
    }
  }

  // ---------------------------------------------------------------- device memory

  /** The layer groups that keep some tensor on the device alive. */
  function DeviceGroups(h: HandlerState): set<int> {
    (set tag <- h.tagToState.Keys | h.tagToState[tag].OnDevice? :: tag.group)
    + (set tag <- h.tagToBuf.Keys | h.tagToBuf[tag].Some? :: tag.group)
  }

  /** A buffer is kept only in the forward pass, and only for a group that is not released yet. */
  ghost predicate BuffersLean(h: HandlerState, groups: nat, forward: bool) {
    forall tag <- h.tagToBuf.Keys ::
      tag.group < groups && (h.tagToBuf[tag].Some? ==> forward && h.offloadedCount <= tag.group)
  }

  /** The backward pass has fetched the tensors of the layers it is through with. */
  ghost predicate Drained(t: Training, layers: nat) {
    !t.forward && t.h.currentGroup < layers ==> forall tag <- t.live.Keys :: tag.group <= t.h.currentGroup
  }

  /** With fewer offload groups than layers, only the current group and its predecessor stay on the device. */
  ghost predicate Lean(t: Training, layers: nat, groups: nat) {
    Parked(t.h) && BuffersLean(t.h, groups, t.forward) && Drained(t, layers)
  }

  lemma EndLayerLean(t: Training, layers: nat, groups: nat, window: map<int, int>)
    requires Schedule(window, layers, groups) && groups < layers && Inv(t, layers, groups, window)
    requires Lean(t, layers, groups) && Allowed(t, layers, true, EndLayer)
    requires EventAgrees(t, groups, window, EndLayer)
    ensures
      var r := Advance(t, layers, groups, window, EndLayer);
      r.Success? && Lean(r.value, layers, groups)
  {
    hide EventAgrees, Synchronize, TagsInv, RestOnDevice;
    SynchronizeKeeps(t, layers, groups, window);
    assert t.h.offloadedCount < groups - 1 ==> window[t.h.offloadedCount] < window[groups - 1];
  }

  lemma StartBackwardLean(t: Training, layers: nat, groups: nat, window: map<int, int>)
    requires Schedule(window, layers, groups) && groups < layers && Inv(t, layers, groups, window)
    requires Lean(t, layers, groups) && Allowed(t, layers, true, StartBackward)
    ensures
      var r := Advance(t, layers, groups, window, StartBackward);
      r.Success? && Lean(r.value, layers, groups)
  {
    hide CommitBackward, StandsFor, Parked;
    CommitBackwardKeeps(t, layers, groups, window);
  }

  lemma SaveLean(t: Training, layers: nat, groups: nat, window: map<int, int>, tensor: Tensor)
    requires Schedule(window, layers, groups) && groups < layers && Inv(t, layers, groups, window)
    requires Lean(t, layers, groups) && Allowed(t, layers, true, Save(tensor))
    ensures
      var r := Advance(t, layers, groups, window, Save(tensor));
      r.Success? && Lean(r.value, layers, groups)
  {
    SaveTags(t, layers, groups, tensor);
    hide TagsInv, RestOnDevice;
    assert t.h.currentGroup !in t.h.groupMapping;
    var h := Push(t.h, groups, tensor, true).value.0;
    assert Parked(h) by { hide BuffersLean; }
    assert BuffersLean(h, groups, true) by { hide Parked; }
  }

  lemma PopLean(t: Training, layers: nat, groups: nat, tag: Tag)
    requires Lean(t, layers, groups) && Pop(t.h, Tagged(tag)).Success?
    ensures Lean(t.(h := Pop(t.h, Tagged(tag)).value.0, live := t.live - {tag}), layers, groups)
  {
    hide WithoutTag;
  }

  lemma GetLean(t: Training, layers: nat, groups: nat, window: map<int, int>, tag: Tag)
    requires Schedule(window, layers, groups) && groups < layers && Inv(t, layers, groups, window)
    requires Lean(t, layers, groups) && Allowed(t, layers, true, Get(tag))
    ensures
      var r := Advance(t, layers, groups, window, Get(tag));
      r.Success? && Lean(r.value, layers, groups)
  {
    hide Inv, Lean, Schedule, Pop;
    GetKeeps(t, layers, groups, window, tag);
    PopLean(t, layers, groups, tag);
  }

  lemma EventLean(t: Training, layers: nat, groups: nat, window: map<int, int>, e: Event)
    requires Schedule(window, layers, groups) && groups < layers && Inv(t, layers, groups, window)
    requires Lean(t, layers, groups) && Allowed(t, layers, true, e)
    requires EventAgrees(t, groups, window, e)
    ensures
      var r := Advance(t, layers, groups, window, e);
      r.Success? && Inv(r.value, layers, groups, window) && Lean(r.value, layers, groups)
  {
    hide TagsInv, ForwardInv, CommitForward, CommitBackward, Push, Pop;
    match e
    case Save(tensor) => SaveKeeps(t, layers, groups, window, tensor); SaveLean(t, layers, groups, window, tensor);
    case EndLayer => EndLayerKeeps(t, layers, groups, window); EndLayerLean(t, layers, groups, window);
    case StartBackward => StartBackwardKeeps(t, layers, groups, window); StartBackwardLean(t, layers, groups, window);
    case Get(tag) => GetKeeps(t, layers, groups, window, tag); GetLean(t, layers, groups, window, tag);
    case NextIteration => NextIterationKeeps(t, layers, groups, window);
  }

  lemma {:induction false} RunLean(t: Training, layers: nat, groups: nat, window: map<int, int>, run: seq<Event>)
    requires Schedule(window, layers, groups) && groups < layers && Inv(t, layers, groups, window)
    requires Lean(t, layers, groups) && IsRun(t, layers, groups, window, true, run)
    requires RunAgrees(t, layers, groups, window, run)
    ensures
      var r := After(t, layers, groups, window, run);
      r.Success? && Inv(r.value, layers, groups, window) && Lean(r.value, layers, groups)
    decreases |run|
  {
    if run == [] {
    } else {
      EventLean(t, layers, groups, window, run[0]);
      RunLean(Advance(t, layers, groups, window, run[0]).value, layers, groups, window, run[1..]);
    }
  }

  lemma NeighbourWindows(layers: nat, i: nat)
    requires 3 <= layers && i < layers - 1
    ensures Window(layers, layers - 1, i) == i + 1
  {
    assert layers / (layers - 1) == 1 && layers % (layers - 1) == 1;
  }

  lemma SavedNearby(t: Training, layers: nat, window: map<int, int>, tag: Tag)
    requires 3 <= layers && Schedule(window, layers, layers - 1) && Inv(t, layers, layers - 1, window)
    requires Lean(t, layers, layers - 1) && forall i :: 0 <= i < layers - 1 ==> window[i] == i + 1
    requires tag in t.h.tagToState && t.h.tagToState[tag].OnDevice?
    ensures t.h.currentGroup - 1 <= tag.group <= t.h.currentGroup
  {
    hide StandsFor;
  }

  lemma BufferedNearby(t: Training, layers: nat, window: map<int, int>, tag: Tag)
    requires 3 <= layers && Schedule(window, layers, layers - 1) && Inv(t, layers, layers - 1, window)
    requires Lean(t, layers, layers - 1) && forall i :: 0 <= i < layers - 1 ==> window[i] == i + 1
    requires tag in t.h.tagToBuf && t.h.tagToBuf[tag].Some?
    ensures t.h.currentGroup - 1 <= tag.group <= t.h.currentGroup
  {
    hide StandsFor;
  }

  lemma DeviceNearby(t: Training, layers: nat, window: map<int, int>)
    requires 3 <= layers && Schedule(window, layers, layers - 1) && Inv(t, layers, layers - 1, window)
    requires Lean(t, layers, layers - 1) && forall i :: 0 <= i < layers - 1 ==> window[i] == i + 1
    ensures forall g <- DeviceGroups(t.h) :: t.h.currentGroup - 1 <= g <= t.h.currentGroup
  {
    hide Inv, Lean, Schedule;
    forall g <- DeviceGroups(t.h)
      ensures t.h.currentGroup - 1 <= g <= t.h.currentGroup
    {
      if tag :| tag in t.h.tagToState && t.h.tagToState[tag].OnDevice? && tag.group == g {
        SavedNearby(t, layers, window, tag);
      } else {
        var tag :| tag in t.h.tagToBuf && t.h.tagToBuf[tag].Some? && tag.group == g;
        BufferedNearby(t, layers, window, tag);
      }
    }
  }

  lemma FirstLean(layers: nat, groups: nat, window: map<int, int>)
    requires Schedule(window, layers, groups)
    ensures Inv(FIRST, layers, groups, window) && Lean(FIRST, layers, groups)
  {
  }

  /**
   With one offload group fewer than layers, as `enable_activation_offloading` sets it up, the tensors
   on the device belong to the current layer group and its neighbour below at any time, provided the
   tensors of a layer are fetched before the backward pass moves on.
   */
  lemma {:induction false} TwoGroupsOnDevice(layers: nat, run: seq<Event>)
    requires 3 <= layers && IsRun(FIRST, layers, layers - 1, WindowMap(layers, layers - 1), true, run)
    requires RunAgrees(FIRST, layers, layers - 1, WindowMap(layers, layers - 1), run)
    ensures
      var r := After(FIRST, layers, layers - 1, WindowMap(layers, layers - 1), run);
      r.Success? && forall g <- DeviceGroups(r.value.h) :: r.value.h.currentGroup - 1 <= g <= r.value.h.currentGroup
  {
    hide Inv, Lean, DeviceGroups, IsRun, After, Schedule;
    var window := WindowMap(layers, layers - 1);
    WindowMapIsSchedule(layers, layers - 1);
    FirstLean(layers, layers - 1, window);
    RunLean(FIRST, layers, layers - 1, window, run);
    var t := After(FIRST, layers, layers - 1, window, run).value;
    forall i | 0 <= i < layers - 1
      ensures window[i] == i + 1
    {
      NeighbourWindows(layers, i);
    }
    DeviceNearby(t, layers, window);
  }

  // ---------------------------------------------------------------- buffers

  /** In the forward pass, the tensors of the groups that are still to be moved are kept in the buffer. */
  ghost predicate Buffered(t: Training, groups: nat) {
    t.forward ==> forall tag <- t.live.Keys :: t.h.offloadedCount <= tag.group < groups ==>
      tag in t.h.tagToBuf && t.h.tagToBuf[tag] == Some(t.live[tag])
  }

  /** What has been moved is not. */
  ghost predicate Released(t: Training) {
    t.forward ==> forall tag <- t.h.tagToBuf.Keys :: tag.group < t.h.offloadedCount ==> t.h.tagToBuf[tag].None?
  }

  lemma EndLayerBuffers(t: Training, layers: nat, groups: nat, window: map<int, int>)
    requires Schedule(window, layers, groups) && Inv(t, layers, groups, window) && Allowed(t, layers, false, EndLayer)
    requires EventAgrees(t, groups, window, EndLayer) && Buffered(t, groups) && Released(t)
    ensures
      var r := Advance(t, layers, groups, window, EndLayer);
      r.Success? && Buffered(r.value, groups) && Released(r.value)
  {
    hide EventAgrees, Synchronize, TagsInv, RestOnDevice, Parked;
    SynchronizeKeeps(t, layers, groups, window);
  }

  lemma PushBuffers(t: Training, groups: nat, tensor: Tensor)
    requires Push(t.h, groups, tensor, true).Success? && t.h.offloadedCount <= t.h.currentGroup
    requires Buffered(t, groups) && Released(t)
    ensures
      var next := t.(h := Push(t.h, groups, tensor, true).value.0,
                     live := t.live[Tag(t.h.currentGroup, t.h.tensorCount) := tensor]);
      Buffered(next, groups) && Released(next)
  {
  }

  lemma SaveBuffers(t: Training, layers: nat, groups: nat, window: map<int, int>, tensor: Tensor)
    requires Schedule(window, layers, groups) && Inv(t, layers, groups, window) && Allowed(t, layers, false, Save(tensor))
    requires Buffered(t, groups) && Released(t)
    ensures
      var r := Advance(t, layers, groups, window, Save(tensor));
      r.Success? && Buffered(r.value, groups) && Released(r.value)
  {
    hide TagsInv, RestOnDevice, Push, Buffered, Released;
    SaveTags(t, layers, groups, tensor);
    PushBuffers(t, groups, tensor);
  }

  lemma EventBuffers(t: Training, layers: nat, groups: nat, window: map<int, int>, e: Event)
    requires Schedule(window, layers, groups) && Inv(t, layers, groups, window) && Allowed(t, layers, false, e)
    requires EventAgrees(t, groups, window, e) && Buffered(t, groups) && Released(t)
    ensures
      var r := Advance(t, layers, groups, window, e);
      r.Success? && Buffered(r.value, groups) && Released(r.value)
  {
    EventKeeps(t, layers, groups, window, e);
    match e
    case Save(tensor) => SaveBuffers(t, layers, groups, window, tensor);
    case EndLayer => EndLayerBuffers(t, layers, groups, window);
    case NextIteration => NextIterationKeeps(t, layers, groups, window);
    case _ =>
  }

  lemma {:induction false} RunBuffers(t: Training, layers: nat, groups: nat, window: map<int, int>, run: seq<Event>)
    requires Schedule(window, layers, groups) && Inv(t, layers, groups, window)
    requires IsRun(t, layers, groups, window, false, run) && RunAgrees(t, layers, groups, window, run)
    requires Buffered(t, groups) && Released(t)
    ensures
      var r := After(t, layers, groups, window, run);
      r.Success? && Buffered(r.value, groups) && Released(r.value)
    decreases |run|
  {
    hide Inv, Schedule, Allowed, Buffered, Released, Advance, EventAgrees;
    if run == [] {
    } else {
      EventKeeps(t, layers, groups, window, run[0]);
      EventBuffers(t, layers, groups, window, run[0]);
      RunBuffers(Advance(t, layers, groups, window, run[0]).value, layers, groups, window, run[1..]);
    }
  }

  /**
   In the forward pass of any run, a tensor is kept in the buffer from its save to the window of its group,
   so that its memory is not reused while it is copied, and not beyond.
   */
  lemma {:induction false} BuffersUntilWindow(layers: nat, groups: nat, run: seq<Event>, tag: Tag)
    requires 0 < groups <= layers && IsRun(FIRST, layers, groups, WindowMap(layers, groups), false, run)
    requires RunAgrees(FIRST, layers, groups, WindowMap(layers, groups), run)
    ensures
      var r := After(FIRST, layers, groups, WindowMap(layers, groups), run);
      && r.Success?
      && (r.value.forward && tag in r.value.live && r.value.h.offloadedCount <= tag.group < groups ==>
            tag in r.value.h.tagToBuf && r.value.h.tagToBuf[tag] == Some(r.value.live[tag]))
      && (r.value.forward && tag in r.value.h.tagToBuf && tag.group < r.value.h.offloadedCount ==>
            r.value.h.tagToBuf[tag].None?)
  {
    var window := WindowMap(layers, groups);
    WindowMapIsSchedule(layers, groups);
    FirstInv(layers, groups, window);
    RunBuffers(FIRST, layers, groups, window, run);
    hide IsRun, RunAgrees, Schedule, Inv, WindowMap;
  }
}
