/**
 The activation offload handler (utils/activation_offload.py): the saved tensors of one layer group
 after the other are copied to the host in the forward pass and copied back in the backward pass.
 `HandlerState` and the functions on it say what the operations do; the class does it in place.
 */
module OffloadHandler {
  import opened Wrappers
  import opened WeightChunks

  /** The key of a tensor: the address of its first element, or that of a copy made from the host. */
  datatype Key = Allocated(id: nat) | Reloaded(of: Key)

  /** A device tensor; `data` holds its elements. */
  datatype Tensor = Tensor(key: Key, shape: seq<nat>, data: seq<Byte>) {
    predicate Valid() {
      |data| == Numel(shape)
    }
  }

  datatype Tag = Tag(group: int, index: nat)

  /** What is kept under a tag: the tensor itself, or the place of its host copy. */
  datatype Saved = OnDevice(tensor: Tensor) | Offloaded(key: Key, shape: seq<nat>)

  /** What `tensor_push` returns: a tag, or the tensor itself when it is not to be offloaded. */
  datatype Ticket = Tagged(tag: Tag) | Untouched(tensor: Tensor)

  datatype HandlerError = AssertionFailed | MissingKey | BadView

  type Backup = map<Key, seq<Byte>>

  /** The fields of the handler; `tagOrder` is the order in which the dictionary of the tags lists them. */
  datatype HandlerState = HandlerState(
    currentGroup: int, tensorCount: nat, tagToState: map<Tag, Saved>, tagOrder: seq<Tag>,
    tagToBuf: map<Tag, Option<Tensor>>, offloadedCount: int, groupMapping: map<int, Backup>)

  const INITIAL := HandlerState(0, 0, map[], [], map[], 0, map[])

  ghost predicate Distinct(order: seq<Tag>) {
    forall i, j :: 0 <= i < j < |order| ==> order[i] != order[j]
  }

  /** Every tag of the dictionary is listed once. */
  ghost predicate Ordered(state: map<Tag, Saved>, order: seq<Tag>) {
    (forall tag :: tag in state <==> tag in order) && Distinct(order)
  }

  /** What is left of the order when a tag is removed. */
  function WithoutTag(order: seq<Tag>, tag: Tag): (rest: seq<Tag>)
    ensures forall t :: t in rest <==> t in order && t != tag
  {
    if order == [] then []
    else if order[0] == tag then WithoutTag(order[1..], tag)
    else [order[0]] + WithoutTag(order[1..], tag)
  }

  lemma {:induction false} WithoutTagDistinct(order: seq<Tag>, tag: Tag)
    requires Distinct(order)
    ensures Distinct(WithoutTag(order, tag))
  {
    if order == [] {
    } else {
      WithoutTagDistinct(order[1..], tag);
      assert order[0] !in order[1..];
      assert order[0] !in WithoutTag(order[1..], tag);
    }
  }

  lemma InsertOrdered(state: map<Tag, Saved>, order: seq<Tag>, tag: Tag, saved: Saved)
    requires Ordered(state, order) && tag !in state
    ensures Ordered(state[tag := saved], order + [tag])
  {
  }

  lemma RemoveOrdered(state: map<Tag, Saved>, order: seq<Tag>, tag: Tag)
    requires Ordered(state, order)
    ensures Ordered(state - {tag}, WithoutTag(order, tag))
  {
    WithoutTagDistinct(order, tag);
  }

  lemma SameKeysOrdered(a: map<Tag, Saved>, b: map<Tag, Saved>, order: seq<Tag>)
    requires Ordered(a, order) && a.Keys == b.Keys
    ensures Ordered(b, order)
  {
    assert forall tag :: tag in a <==> tag in b;
  }

  // ---------------------------------------------------------------- the window schedule

  /** The commit at which the buffers of offload group `i` are released, and its reload happens. */
  function Window(layers: nat, groups: nat, i: nat): int
    requires 0 < groups
  {
    (layers / groups) * (i + 1) + (if i + 1 <= layers % groups then i + 1 else layers % groups) - 1
  }

  function WindowMap(layers: nat, groups: nat): (w: map<int, int>)
    requires 0 < groups
    ensures forall i :: i in w <==> 0 <= i < groups
  {
    map i | 0 <= i < groups :: Window(layers, groups, i)
  }

  // ---------------------------------------------------------------- push and pop

  function Push(h: HandlerState, groups: nat, tensor: Tensor, needOffload: bool)
    : Result<(HandlerState, Ticket), HandlerError>
  {
    if !needOffload then Success((h, Untouched(tensor)))
    else
      var tag := Tag(h.currentGroup, h.tensorCount);
      if tag in h.tagToState then Failure(AssertionFailed)
      else
        Success((h.(tensorCount := h.tensorCount + 1,
                    tagToState := h.tagToState[tag := OnDevice(tensor)],
                    tagOrder := h.tagOrder + [tag],
                    tagToBuf := if h.currentGroup < groups then h.tagToBuf[tag := Some(tensor)] else h.tagToBuf),
                 Tagged(tag)))
  }

  function Pop(h: HandlerState, ticket: Ticket): Result<(HandlerState, Tensor), HandlerError> {
    match ticket
    case Untouched(tensor) => Success((h, tensor))
    case Tagged(tag) =>
      if tag !in h.tagToState || h.tagToState[tag].Offloaded? then Failure(AssertionFailed)
      else
        Success((h.(tagToState := h.tagToState - {tag}, tagOrder := WithoutTag(h.tagOrder, tag), tagToBuf := h.tagToBuf - {tag}),
                 h.tagToState[tag].tensor))
  }

  /** A tensor that is not to be offloaded is its own ticket, and comes back without the handler's doing. */
  lemma {:induction false} UntouchedComesBack(h: HandlerState, groups: nat, tensor: Tensor)
    ensures Push(h, groups, tensor, false).Success?
    ensures
      var (next, ticket) := Push(h, groups, tensor, false).value;
      next == h && Pop(next, ticket) == Success((h, tensor))
  {
  }

  lemma {:induction false} WithoutLast(order: seq<Tag>, tag: Tag)
    requires tag !in order
    ensures WithoutTag(order + [tag], tag) == order
  {
    if order == [] {
      assert [tag][1..] == [];
    } else {
      assert (order + [tag])[1..] == order[1..] + [tag] && order == [order[0]] + order[1..];
      WithoutLast(order[1..], tag);
    }
  }

  lemma TagIsNew(h: HandlerState, tag: Tag)
    requires Ordered(h.tagToState, h.tagOrder) && tag !in h.tagToState
    ensures WithoutTag(h.tagOrder + [tag], tag) == h.tagOrder
  {
    WithoutLast(h.tagOrder, tag);
  }

  lemma PutAndTaken<V>(m: map<Tag, V>, tag: Tag, v: V)
    requires tag !in m
    ensures m[tag := v] - {tag} == m == m - {tag}
  {
  }

  /** A pushed tensor can be popped at once; then its tag is unknown, and the rest is as it was before. */
  lemma {:induction false} PushThenPop(h: HandlerState, groups: nat, tensor: Tensor)
    requires Ordered(h.tagToState, h.tagOrder) && h.tagToBuf.Keys <= h.tagToState.Keys
    ensures Push(h, groups, tensor, true).Success? <==> Tag(h.currentGroup, h.tensorCount) !in h.tagToState
    ensures Push(h, groups, tensor, true).Success? ==>
      var (next, ticket) := Push(h, groups, tensor, true).value;
      var popped := Pop(next, ticket);
      && popped == Success((h.(tensorCount := h.tensorCount + 1), tensor))
      && Pop(popped.value.0, ticket) == Failure(AssertionFailed)
  {
    hide Ordered, WithoutTag;
    var tag := Tag(h.currentGroup, h.tensorCount);
    if tag !in h.tagToState {
      TagIsNew(h, tag);
      PutAndTaken(h.tagToState, tag, OnDevice(tensor));
      PutAndTaken(h.tagToBuf, tag, Some(tensor));
    }
  }

  // ---------------------------------------------------------------- bulk offload and reload

  /** The tag stands for a tensor of the group that is on the device. */
  predicate InGroup(state: map<Tag, Saved>, group: int, tag: Tag) {
    tag in state && tag.group == group && state[tag].OnDevice?
  }

  /** The host copies of a group: for every key, the content of the first tensor in the order that has it. */
  function BackupOf(state: map<Tag, Saved>, order: seq<Tag>, group: int): Backup {
    if order == [] then map[]
    else
      var tag := order[|order| - 1];
      var backup := BackupOf(state, order[..|order| - 1], group);
      if !InGroup(state, group, tag) || state[tag].tensor.key in backup then backup
      else backup[state[tag].tensor.key := state[tag].tensor.data]
  }

  /** Every copy is the content of a tensor of the group. */
  lemma {:induction false} BackupOrigin(state: map<Tag, Saved>, order: seq<Tag>, group: int, key: Key) returns (tag: Tag)
    requires key in BackupOf(state, order, group)
    ensures tag in order && InGroup(state, group, tag)
    ensures state[tag].tensor.key == key && BackupOf(state, order, group)[key] == state[tag].tensor.data
  {
    var n := |order| - 1;
    if key in BackupOf(state, order[..n], group) {
      tag := BackupOrigin(state, order[..n], group, key);
    } else {
      tag := order[n];
    }
  }

  /** Every tensor of the group has a copy under its key. */
  lemma {:induction false} BackupCovers(state: map<Tag, Saved>, order: seq<Tag>, group: int, tag: Tag)
    requires tag in order && InGroup(state, group, tag)
    ensures state[tag].tensor.key in BackupOf(state, order, group)
  {
    var n := |order| - 1;
    if tag in order[..n] {
      BackupCovers(state, order[..n], group, tag);
    } else {
      assert tag == order[n];
    }
  }

  /** Tensors of the group with the same key hold the same elements. */
  ghost predicate KeysAgree(state: map<Tag, Saved>, group: int) {
    forall s <- state.Keys, t <- state.Keys ::
      InGroup(state, group, s) && InGroup(state, group, t) && state[s].tensor.key == state[t].tensor.key
      ==> state[s].tensor.data == state[t].tensor.data
  }

  /** Then every copy is the content of each of its tensors. */
  lemma BackupAgrees(state: map<Tag, Saved>, order: seq<Tag>, group: int, tag: Tag)
    requires Ordered(state, order) && KeysAgree(state, group) && InGroup(state, group, tag)
    ensures state[tag].tensor.key in BackupOf(state, order, group)
    ensures BackupOf(state, order, group)[state[tag].tensor.key] == state[tag].tensor.data
  {
    BackupCovers(state, order, group, tag);
    var origin := BackupOrigin(state, order, group, state[tag].tensor.key);
  }

  function Moved(saved: Saved): Saved {
    if saved.OnDevice? then Offloaded(saved.tensor.key, saved.tensor.shape) else saved
  }

  function MoveGroup(state: map<Tag, Saved>, group: int): map<Tag, Saved> {
    map tag <- state.Keys :: if tag.group == group then Moved(state[tag]) else state[tag]
  }

  function BulkOffload(h: HandlerState, group: int): Result<HandlerState, HandlerError> {
    var state := h.tagToState;
    if exists tag <- state.Keys :: tag.group == group && state[tag].Offloaded? then Failure(AssertionFailed)
    else
      Success(h.(tagToState := MoveGroup(state, group),
                 groupMapping := h.groupMapping[group := BackupOf(state, h.tagOrder, group)]))
  }

  function Recovered(saved: Saved, backup: Backup): Saved {
    if saved.Offloaded? && saved.key in backup then OnDevice(Tensor(Reloaded(saved.key), saved.shape, backup[saved.key]))
    else saved
  }

  /** The ways in which the reload of one tensor can fail. */
  predicate Recoverable(saved: Saved, backup: Backup) {
    saved.Offloaded? ==> saved.key in backup && |backup[saved.key]| == Numel(saved.shape)
  }

  function RecoverGroup(state: map<Tag, Saved>, group: int, backup: Backup): map<Tag, Saved> {
    map tag <- state.Keys :: if tag.group == group then Recovered(state[tag], backup) else state[tag]
  }

  function BulkReload(h: HandlerState, groups: nat, group: int): Result<HandlerState, HandlerError> {
    var state := h.tagToState;
    if groups <= group then Failure(AssertionFailed)
    else if group !in h.groupMapping then Failure(MissingKey)
    else
      var backup := h.groupMapping[group];
      if exists tag <- state.Keys :: tag.group == group && !Recoverable(state[tag], backup) then Failure(BadView)
      else
        Success(h.(
          tagToState := RecoverGroup(state, group, backup),
          groupMapping := h.groupMapping - {group}))
  }

  /** When moving a group to the host raises, and which of its errors moving it back raises. */
  lemma {:induction false} GroupRefused(h: HandlerState, groups: nat, group: int)
    ensures BulkOffload(h, group) == Failure(AssertionFailed) <==>
      exists tag <- h.tagToState.Keys :: tag.group == group && h.tagToState[tag].Offloaded?
    ensures BulkReload(h, groups, group) == Failure(AssertionFailed) <==> groups <= group
    ensures BulkReload(h, groups, group) == Failure(MissingKey) <==> group < groups && group !in h.groupMapping
    ensures BulkReload(h, groups, group) == Failure(BadView) <==>
      && group < groups && group in h.groupMapping
      && exists tag <- h.tagToState.Keys ::
           var saved, copies := h.tagToState[tag], h.groupMapping[group];
           && tag.group == group && saved.Offloaded?
           && (saved.key in copies ==> |copies[saved.key]| != Numel(saved.shape))
  {
  }

  // ---------------------------------------------------------------- what a group's round trip needs

  /** Equal up to the address. */
  predicate SameTensor(a: Tensor, b: Tensor) {
    a.shape == b.shape && a.data == b.data
  }

  /** Every tensor of the group is on the device, with the shape and the elements it has in `state`. */
  ghost predicate CameBack(back: map<Tag, Saved>, state: map<Tag, Saved>, group: int) {
    forall tag <- state.Keys | tag.group == group ::
      tag in back && back[tag].OnDevice? && state[tag].OnDevice? && SameTensor(back[tag].tensor, state[tag].tensor)
  }

  /**
   A group that is offloaded and reloaded comes back if and only if its tensors with the same key hold the
   same elements. A tensor and its transpose share a key: only one copy is made for both.
   */
  lemma {:induction false} GroupReturnsExactly(h: HandlerState, groups: nat, group: int)
    requires Ordered(h.tagToState, h.tagOrder) && group < groups
    requires forall tag <- h.tagToState.Keys | tag.group == group ::
      h.tagToState[tag].OnDevice? && h.tagToState[tag].tensor.Valid()
    ensures BulkOffload(h, group).Success?
    ensures
      var back := BulkReload(BulkOffload(h, group).value, groups, group);
      back.Success? && CameBack(back.value.tagToState, h.tagToState, group) <==> KeysAgree(h.tagToState, group)
  {
    hide BackupOf, Ordered;
    var state, off := h.tagToState, BulkOffload(h, group).value;
    var backup := BackupOf(state, h.tagOrder, group);
    var back := BulkReload(off, groups, group);
    if KeysAgree(state, group) {
      forall tag <- state.Keys | tag.group == group
        ensures state[tag].tensor.key in backup && backup[state[tag].tensor.key] == state[tag].tensor.data
      {
        BackupAgrees(state, h.tagOrder, group, tag);
      }
    }
    if back.Success? && CameBack(back.value.tagToState, state, group) {
      forall tag <- state.Keys | tag.group == group
        ensures state[tag].tensor.key in backup && backup[state[tag].tensor.key] == state[tag].tensor.data
      {
        assert Recoverable(off.tagToState[tag], backup);
      }
    }
  }

  // ---------------------------------------------------------------- commits

  function ReleaseBuffers(buf: map<Tag, Option<Tensor>>, group: int): map<Tag, Option<Tensor>> {
    map tag <- buf.Keys :: if tag.group == group then None else buf[tag]
  }

  function Synchronize(h: HandlerState, groups: nat, window: map<int, int>): Result<HandlerState, HandlerError> {
    var h0 :- if h.currentGroup == 0 then BulkOffload(h, 0) else Success(h);
    if h0.offloadedCount !in window then Failure(MissingKey)
    else if window[h0.offloadedCount] != h0.currentGroup then Success(h0)
    else
      var h1 := h0.(tagToBuf := ReleaseBuffers(h0.tagToBuf, h0.offloadedCount));
      var h2 :- if h1.offloadedCount < groups - 1 then BulkOffload(h1, h1.offloadedCount + 1) else Success(h1);
      Success(h2.(offloadedCount := h2.offloadedCount + 1))
  }

  function CommitForward(h: HandlerState, groups: nat, window: map<int, int>): Result<HandlerState, HandlerError> {
    var h0 :- Synchronize(h, groups, window);
    Success(h0.(currentGroup := h0.currentGroup + 1, tensorCount := 0))
  }

  function CommitBackward(h: HandlerState, groups: nat, window: map<int, int>): Result<HandlerState, HandlerError> {
    var h0 := h.(currentGroup := h.currentGroup - 1);
    if h0.currentGroup < 0 then Failure(AssertionFailed)
    else if h0.offloadedCount - 1 !in window then Failure(MissingKey)
    else
      var h1 :-
        if window[h0.offloadedCount - 1] != h0.currentGroup then Success(h0)
        else
          var reloaded :- BulkReload(h0, groups, h0.offloadedCount - 1);
          Success(reloaded.(offloadedCount := reloaded.offloadedCount - if reloaded.offloadedCount > 1 then 1 else 0));
      Success(if h1.currentGroup == 0 then h1.(offloadedCount := 0) else h1)
  }

  /** Which commits raise: those without a window, in front of the first group, or whose group cannot be moved. */
  lemma {:induction false} CommitsRefused(h: HandlerState, groups: nat, window: map<int, int>)
    ensures CommitForward(h, groups, window) == Failure(MissingKey) <==>
      h.offloadedCount !in window && (h.currentGroup == 0 ==> BulkOffload(h, 0).Success?)
    ensures
      var r, last := CommitBackward(h, groups, window), h.offloadedCount - 1;
      var reloads := 0 < h.currentGroup && last in window && window[last] == h.currentGroup - 1;
      && (r == Failure(AssertionFailed) <==> h.currentGroup <= 0 || (reloads && groups <= last))
      && (r == Failure(MissingKey) <==>
          0 < h.currentGroup && (last !in window || (reloads && last < groups && last !in h.groupMapping)))
  {
  }
}
