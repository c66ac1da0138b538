/** The handler object whose methods carry out the operations of `OffloadHandler` in place. */
module OffloadHandlerClass {
  import opened Wrappers
  import opened WeightChunks
  import opened OffloadHandler

  /** The window as the loop of the constructor computes it. */
  lemma WindowSum(layers: nat, groups: nat, i: nat)
    requires 0 < groups
    ensures
      var rest := layers % groups;
      Window(layers, groups, i) == (layers / groups) * (i + 1) - 1 + if i < rest then i + 1 else Min(i, rest)
  {
  }

  /** The dictionary after a pass that has changed what is kept for the group under the listed tags. */
  ghost function Changed(state: map<Tag, Saved>, listed: seq<Tag>, group: int, change: Saved -> Saved): map<Tag, Saved> {
    map tag <- state.Keys :: if tag.group == group && tag in listed then change(state[tag]) else state[tag]
  }

  /** What is kept for the group under the listed tags passes the check. */
  ghost predicate Checked(state: map<Tag, Saved>, listed: seq<Tag>, group: int, check: Saved -> bool) {
    forall tag <- listed :: tag.group == group && tag in state ==> check(state[tag])
  }

  lemma PassStarts(state: map<Tag, Saved>, group: int, change: Saved -> Saved, check: Saved -> bool)
    ensures Changed(state, [], group, change) == state && Checked(state, [], group, check)
  {
  }

  lemma ChangedNext(state: map<Tag, Saved>, listed: seq<Tag>, tag: Tag, group: int, change: Saved -> Saved)
    requires tag in state && tag !in listed
    ensures
      var now := Changed(state, listed, group, change);
      && tag in now && now[tag] == state[tag]
      && Changed(state, listed + [tag], group, change) == if tag.group == group then now[tag := change(now[tag])] else now
  {
  }

  lemma CheckedNext(state: map<Tag, Saved>, listed: seq<Tag>, tag: Tag, group: int, check: Saved -> bool)
    requires tag in state
    ensures
      Checked(state, listed + [tag], group, check) <==>
      Checked(state, listed, group, check) && (tag.group == group ==> check(state[tag]))
  {
  }

  lemma PassGoesOn(state: map<Tag, Saved>, order: seq<Tag>, i: nat, group: int, change: Saved -> Saved, check: Saved -> bool)
    requires i < |order| && Ordered(state, order)
    ensures
      var tag, now, next := order[i], Changed(state, order[..i], group, change), Changed(state, order[..i + 1], group, change);
      && tag in state && tag in now && now[tag] == state[tag]
      && next == (if tag.group == group then now[tag := change(now[tag])] else now)
      && (change(now[tag]) == now[tag] ==> next == now)
      && (Checked(state, order[..i + 1], group, check) <==>
          Checked(state, order[..i], group, check) && (tag.group == group ==> check(state[tag])))
  {
    hide Changed, Checked;
    assert order[..i + 1] == order[..i] + [order[i]];
    assert order[i] !in order[..i];
    ChangedNext(state, order[..i], order[i], group, change);
    CheckedNext(state, order[..i], order[i], group, check);
  }

  lemma PassEnds(state: map<Tag, Saved>, order: seq<Tag>, group: int, change: Saved -> Saved, check: Saved -> bool)
    requires Ordered(state, order)
    ensures Checked(state, order[..|order|], group, check) <==> forall tag <- state.Keys | tag.group == group :: check(state[tag])
    ensures
      Changed(state, order[..|order|], group, change) ==
      map tag <- state.Keys :: if tag.group == group then change(state[tag]) else state[tag]
  {
    assert order[..|order|] == order;
  }

  lemma PassOrdered(state: map<Tag, Saved>, order: seq<Tag>, listed: seq<Tag>, group: int, change: Saved -> Saved)
    requires Ordered(state, order)
    ensures Ordered(Changed(state, listed, group, change), order)
  {
    SameKeysOrdered(state, Changed(state, listed, group, change), order);
  }

  lemma BackupStarts(state: map<Tag, Saved>, group: int)
    ensures BackupOf(state, [], group) == map[]
  {
  }

  lemma BackupGoesOn(state: map<Tag, Saved>, order: seq<Tag>, i: nat, group: int)
    requires i < |order| && order[i] in state
    ensures
      var tag, backup := order[i], BackupOf(state, order[..i], group);
      BackupOf(state, order[..i + 1], group) ==
      if tag.group != group || state[tag].Offloaded? || state[tag].tensor.key in backup then backup
      else backup[state[tag].tensor.key := state[tag].tensor.data]
  {
    assert order[..i + 1][..i] == order[..i];
  }

  class AsyncDoubleBufferGroupOffloadHandler {
    const numOffloadGroup: nat
    const numLayers: nat
    var currentGroup: int
    var tensorCountCurrentGroup: nat
    var tensorTagToState: map<Tag, Saved>
    var tagOrder: seq<Tag>
    var tensorTagToBuf: map<Tag, Option<Tensor>>
    var offloadedGroupCount: int
    var groupOffloadMapping: map<int, Backup>
    var layerWindowMap: map<int, int>

    ghost function View(): HandlerState
      reads this
    {
      HandlerState(currentGroup, tensorCountCurrentGroup, tensorTagToState, tagOrder, tensorTagToBuf, offloadedGroupCount,
                   groupOffloadMapping)
    }

    /** The dictionary of the tags lists its keys in the order of their insertion. */
    ghost predicate Valid()
      reads this
    {
      Ordered(tensorTagToState, tagOrder)
    }

    constructor (numOffloadGroup: nat, numModelGroup: nat)
      requires 0 < numOffloadGroup
      ensures Valid() && this.numOffloadGroup == numOffloadGroup && this.numLayers == numModelGroup
      ensures View() == INITIAL && layerWindowMap == WindowMap(numModelGroup, numOffloadGroup)
    {
      this.numOffloadGroup, this.numLayers := numOffloadGroup, numModelGroup;
      currentGroup, tensorCountCurrentGroup, offloadedGroupCount := 0, 0, 0;
      tensorTagToState, tagOrder, tensorTagToBuf, groupOffloadMapping := map[], [], map[], map[];
      layerWindowMap := map[];
      new;
      hide Window;
      var constant := 0;
      for i := 0 to numOffloadGroup
        invariant constant == Min(i, numLayers % numOffloadGroup)
        invariant layerWindowMap == map j | 0 <= j < i :: Window(numLayers, numOffloadGroup, j)
        invariant View() == INITIAL
      {
        WindowSum(numLayers, numOffloadGroup, i);
        var window := (numLayers / numOffloadGroup) * (i + 1) - 1;
        if i < numLayers % numOffloadGroup {
          window := window + i + 1;
          constant := i + 1;
        } else {
          window := window + constant;
        }
        layerWindowMap := layerWindowMap[i := window];
      }
    }

    method TensorPush(tensor: Tensor, needOffload: bool) returns (r: Result<Ticket, HandlerError>)
      requires Valid()
      modifies this`tensorCountCurrentGroup, this`tensorTagToState, this`tagOrder, this`tensorTagToBuf
      ensures Valid()
      ensures
        var spec := Push(old(View()), numOffloadGroup, tensor, needOffload);
        if spec.Success? then r == Success(spec.value.1) && View() == spec.value.0 else r == Failure(spec.error)
    {
      if !needOffload { return Success(Untouched(tensor)); }
      var tag := Tag(currentGroup, tensorCountCurrentGroup);
      tensorCountCurrentGroup := tensorCountCurrentGroup + 1;
      if tag in tensorTagToState { return Failure(AssertionFailed); }
      tensorTagToState, tagOrder := tensorTagToState[tag := OnDevice(tensor)], tagOrder + [tag];
      if currentGroup < numOffloadGroup {
        tensorTagToBuf := tensorTagToBuf[tag := Some(tensor)];
      }
      return Success(Tagged(tag));
    }

    method TensorPop(ticket: Ticket) returns (r: Result<Tensor, HandlerError>)
      requires Valid()
      modifies this`tensorTagToState, this`tagOrder, this`tensorTagToBuf
      ensures Valid()
      ensures
        var spec := Pop(old(View()), ticket);
        if spec.Success? then r == Success(spec.value.1) && View() == spec.value.0 else r == Failure(spec.error)
    {
      if ticket.Untouched? { return Success(ticket.tensor); }
      var tag := ticket.tag;
      if tag !in tensorTagToState { return Failure(AssertionFailed); }
      var saved := tensorTagToState[tag];
      RemoveOrdered(tensorTagToState, tagOrder, tag);
      tensorTagToState, tagOrder := tensorTagToState - {tag}, WithoutTag(tagOrder, tag);
      tensorTagToBuf := tensorTagToBuf - {tag};
      if saved.Offloaded? { return Failure(AssertionFailed); }
      return Success(saved.tensor);
    }

    /** One pass over the tags; the first tensor with a key is the one that is copied. */
    method BulkOffloadGroup(group: int) returns (r: Result<(), HandlerError>)
      requires Valid()
      modifies this`tensorTagToState, this`groupOffloadMapping
      ensures Valid()
      ensures
        var spec := BulkOffload(old(View()), group);
        if spec.Success? then r.Success? && View() == spec.value else r == Failure(spec.error)
    {
      hide Ordered, Changed, Checked, BackupOf;
      ghost var before, check := tensorTagToState, (saved: Saved) => saved.OnDevice?;
      var backup: Backup := map[];
      PassStarts(before, group, Moved, check);
      BackupStarts(before, group);
      for i := 0 to |tagOrder|
        invariant unchanged(`groupOffloadMapping) && backup == BackupOf(before, tagOrder[..i], group)
        invariant tensorTagToState == Changed(before, tagOrder[..i], group, Moved)
        invariant Checked(before, tagOrder[..i], group, check)
      {
        var tag := tagOrder[i];
        PassGoesOn(before, tagOrder, i, group, Moved, check);
        PassOrdered(before, tagOrder, tagOrder[..i], group, Moved);
        BackupGoesOn(before, tagOrder, i, group);
        if tag.group == group {
          var saved := tensorTagToState[tag];
          if saved.Offloaded? { return Failure(AssertionFailed); }
          if saved.tensor.key !in backup {
            backup := backup[saved.tensor.key := saved.tensor.data];
          }
          tensorTagToState := tensorTagToState[tag := Offloaded(saved.tensor.key, saved.tensor.shape)];
        }
      }
      PassEnds(before, tagOrder, group, Moved, check);
      PassOrdered(before, tagOrder, tagOrder[..|tagOrder|], group, Moved);
      assert tagOrder[..|tagOrder|] == tagOrder;
      groupOffloadMapping := groupOffloadMapping[group := backup];
      return Success(());
    }

    /** One pass over the tags brings the tensors of the group back from the copies. */
    method RecoverTags(group: int, backup: Backup) returns (ok: bool)
      requires Valid()
      modifies this`tensorTagToState
      ensures Valid()
      ensures ok <==> forall tag <- old(tensorTagToState).Keys | tag.group == group ::
        Recoverable(old(tensorTagToState)[tag], backup)
      ensures ok ==> tensorTagToState == RecoverGroup(old(tensorTagToState), group, backup)
    {
      hide Ordered, Changed, Checked, Numel;
      ghost var before := tensorTagToState;
      ghost var change, check := (saved: Saved) => Recovered(saved, backup), (saved: Saved) => Recoverable(saved, backup);
      PassStarts(before, group, change, check);
      for i := 0 to |tagOrder|
        invariant tensorTagToState == Changed(before, tagOrder[..i], group, change)
        invariant Checked(before, tagOrder[..i], group, check)
      {
        var tag := tagOrder[i];
        PassGoesOn(before, tagOrder, i, group, change, check);
        PassOrdered(before, tagOrder, tagOrder[..i], group, change);
        var saved := tensorTagToState[tag];
        if tag.group == group && saved.Offloaded? {
          if saved.key !in backup || |backup[saved.key]| != Numel(saved.shape) { return false; }
          tensorTagToState := tensorTagToState[tag := OnDevice(Tensor(Reloaded(saved.key), saved.shape, backup[saved.key]))];
        }
      }
      PassEnds(before, tagOrder, group, change, check);
      PassOrdered(before, tagOrder, tagOrder[..|tagOrder|], group, change);
      return true;
    }

    method BulkReloadGroup(group: int) returns (r: Result<(), HandlerError>)
      requires Valid()
      modifies this`tensorTagToState, this`groupOffloadMapping
      ensures Valid()
      ensures
        var spec := BulkReload(old(View()), numOffloadGroup, group);
        if spec.Success? then r.Success? && View() == spec.value else r == Failure(spec.error)
    {
      hide Ordered, RecoverGroup, Recoverable;
      if group >= numOffloadGroup { return Failure(AssertionFailed); }
      if group !in groupOffloadMapping { return Failure(MissingKey); }
      var backup := groupOffloadMapping[group];
      groupOffloadMapping := groupOffloadMapping - {group};
      var ok := RecoverTags(group, backup);
      if !ok { return Failure(BadView); }
      return Success(());
    }

    method SynchronizeOnGroupCommitForward() returns (r: Result<(), HandlerError>)
      requires Valid()
      modifies this`tensorTagToState, this`tensorTagToBuf, this`groupOffloadMapping, this`offloadedGroupCount
      ensures Valid()
      ensures
        var spec := Synchronize(old(View()), numOffloadGroup, layerWindowMap);
        if spec.Success? then r.Success? && View() == spec.value else r == Failure(spec.error)
    {
      hide MoveGroup, BackupOf, Ordered;
      if currentGroup == 0 {
        var r0 := BulkOffloadGroup(0);
        if r0.Failure? { return r0; }
      }
      if offloadedGroupCount !in layerWindowMap { return Failure(MissingKey); }
      if layerWindowMap[offloadedGroupCount] == currentGroup {
        tensorTagToBuf := map tag <- tensorTagToBuf.Keys ::
          if tag.group == offloadedGroupCount then None else tensorTagToBuf[tag];
        if offloadedGroupCount < numOffloadGroup - 1 {
          var r1 := BulkOffloadGroup(offloadedGroupCount + 1);
          if r1.Failure? { return r1; }
        }
        offloadedGroupCount := offloadedGroupCount + 1;
      }
      return Success(());
    }

    method OnGroupCommitForward() returns (r: Result<(), HandlerError>)
      requires Valid()
      modifies this
      ensures Valid() && layerWindowMap == old(layerWindowMap)
      ensures
        var spec := CommitForward(old(View()), numOffloadGroup, layerWindowMap);
        if spec.Success? then r.Success? && View() == spec.value else r == Failure(spec.error)
    {
      r := SynchronizeOnGroupCommitForward();
      if r.Success? {
        currentGroup := currentGroup + 1;
        tensorCountCurrentGroup := 0;
      }
    }

    method OnGroupCommitBackward() returns (r: Result<(), HandlerError>)
      requires Valid()
      modifies this
      ensures Valid() && layerWindowMap == old(layerWindowMap)
      ensures
        var spec := CommitBackward(old(View()), numOffloadGroup, layerWindowMap);
        if spec.Success? then r.Success? && View() == spec.value else r == Failure(spec.error)
    {
      currentGroup := currentGroup - 1;
      if currentGroup < 0 { return Failure(AssertionFailed); }
      if offloadedGroupCount - 1 !in layerWindowMap { return Failure(MissingKey); }
      if layerWindowMap[offloadedGroupCount - 1] == currentGroup {
        var r0 := BulkReloadGroup(offloadedGroupCount - 1);
        if r0.Failure? { return r0; }
        offloadedGroupCount := offloadedGroupCount - if offloadedGroupCount > 1 then 1 else 0;
      }
      if currentGroup == 0 {
        offloadedGroupCount := 0;
      }
      return Success(());
    }
  }
}
