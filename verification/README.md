# Weight synchronisation, offloading, balancing and layout in verl

A Dafny model of the parts of verl in which a mistake is silent: the transports that move weights from the
trainer to the rollout workers, the handler that moves activations to the host and back, the code that
balances sequences over ranks and micro-batches, and the arithmetic that says which layer and which row is
where. The properties are proved for every input, every run and every interleaving; nothing was executed.

## What is modelled

**Weight synchronisation.** `WeightChunks` cuts weights into byte chunks of at most one bucket and puts them
together again; `BucketPacking` fills buckets by the next-fit rule, with two swapped buffers, and reads them
back; `BucketPayload` and `ChunkAssembly` say what the buckets carry and which chunks merge, and
`BucketAlignment` which weights can be viewed at the places that they get. Two transports carry the
buckets. `NixlChain` is a chain of ranks: each reads a bucket out of the memory of the rank before it while
that rank goes on running, and publishes its own copy. `NcclBroadcast` is one sender with a background
broadcast and receivers that lag behind by any number of bytes. Both are state machines whose steps are single
statements and single byte copies, so every interleaving is covered; the files with `Safety`, `Theorems` and
`Termination` in their names hold the invariants and the results about whole runs. `NixlAgents` holds the
wiring of the chain and the message and notification queues.

**Activation offloading.** `OffloadHandler` says what push, pop, bulk offload, bulk reload and the commits do
to the handler's counters and dictionaries; `OffloadHandlerClass` is the object that does it in place;
`OffloadRuns` follows the handler through training iterations, and `OffloadSharing` says what becomes of
tensors that share a key there. The dictionary of the saved tensors is a map together with the order in which
it lists its keys, because the order decides which tensor is copied.

**Sequence balancing.** `KarmarkarKarp` defines the largest differencing method on values, with the order of
merges left open; `KarmarkarKarpBounds` and `KarmarkarKarpTheorems` prove what holds for every order, and that
a heap has no choice of order; `KarmarkarKarpOrders` tells what it pops from the sums alone, and
`KarmarkarKarpExample` follows one call to its end. `KarmarkarKarpClass` and `BalancedPartitions` are the
program with its objects and loops. `GreedyPartition` is the greedy variant and `GreedyChoices` its
description without a program, `MicroBatches` the rearrangement of a batch and its inverse, `MicroBatchOrder`
the order of what it gives, and `TokenLimits` says when the micro-batches keep the limit on their tokens.

**Layout.** `LayerOffsets`, `LayerNames`, `GlobalNames` and `PipelineShards` number the layers of a pipelined
model; `QkvSplit` and `QkvAgreement` take grouped query-key-value tensors apart in three ways;
`PackedLogProbs` compares the packed and the padded log-probabilities. `Arithmetic`, `Permutations`,
`IndexPartitions`, `PythonSlices`, `DoubleBuffer` and `Wrappers` are shared.

## Premises

- Messages between two ranks arrive in the order in which they were sent and are not lost; broadcasts pair
  up in the order in which they are launched; a read notification arrives after the last byte was copied; a
  chain rank is notified by its successor only (see `SingleNotifier` for what this means). A poll of the
  notifications lists an agent only with at least one notification.
- A buffer from `torch.empty` holds a byte of any value in every place.
- A weight is contiguous: `weight.view(-1)` raises otherwise. A weight that fits in a bucket is handed over as
  a view of the receive buffer, so its consumer has to use it before that buffer is received into again; the
  transports are modelled with a consumer that goes on taking chunks.
- The key of a tensor in the offload handler is the address of its first element with the element type, so a
  tensor and its transpose share it. Nothing is assumed about such tensors by the operations; the results about
  runs ask that they agree where their group is moved to the host, which is needed exactly
  (`TensorsComeBackExactly`).
- The hooks of a layer run in the order of autograd: all of a layer's saves, its commit; in the backward pass
  its commit, then its fetches. `TwoGroupsOnDevice` also asks that a layer's tensors are fetched before the
  next backward commit.
- The rows of a tensor and the log-probability of a token are opaque values.

## Where the code differs from its documentation

The model follows the code, and the difference is stated by a lemma where the code is modelled.

- A weight without bytes is not transferred (`PipelineRoundTrip`, `NoElements`).
- A weight that fits in a bucket is viewed where it lies there, and the view raises unless the place is a
  multiple of the item size. So weights of several element types can fail to arrive (`MixedItemSizes`), and
  those of one type too if its size does not divide the bucket size (`OddBucket`). The merge succeeds if and
  only if every such weight is well placed (`PipelineRoundTrip`); a common divisor is enough
  (`CommonDivisor`), and for one element type the condition on the bucket size is exact
  (`OneItemSizeExactly`).
- `build_topology` of the chain needs two rollout workers: for one, a slice with bound zero takes the whole
  list (`RolloutIsChain`).
- `get_notification` waits for whoever notified last (`FirstPollAnswers`, `WrongNotifier`).
- Of the tensors that share a key only the first is copied to the host: a group comes back as it was if and
  only if such tensors have the same elements (`GroupReturnsExactly`), and a whole run fetches everything as it
  was saved if and only if they have wherever a group is moved to the host (`TensorsComeBackExactly`, and
  `SharedKey` for two tensors).
- `get_transformer_layer_offset` gives two ranks the same layers in uneven interleaved layouts that set only
  the last stage (`RanksCollide`, `CollisionOfEight`, `OneNameForTwo`), and `get_dynamic_pipeline_shards` has
  no answer for some inputs that pass its checks (`BestStrategy`, `NoShardingOfFive`).
- A state dict without layers still counts for one layer when the checkpoint merger renumbers
  (`CumulatedLayers`, `EmptyStateDict`).
- `rearrange_micro_batches` documents `max_token_len` as the largest token sum of a micro-batch and says that
  `min_num_micro_batch` pads with empty ones. The code uses `max_token_len` only for the number of
  micro-batches, balances workloads, and raises instead of padding (`CountIsLeast`). The limit can be broken
  (`TokenLimitExceeded`); it is kept if the workloads leave room for the heaviest group in all micro-batches
  but one (`TokenLimitKept`), only if all tokens fit together and each group does by itself
  (`TokenLimitNeeds`), and there is an exact condition for samples of one length (`EqualLengthsExactly`) and
  for as many micro-batches as groups (`OneGroupEachExactly`).
- The check of a partitioning lets an index through that stands twice (`SeesAllExactly`, `RepeatedIndex`).
- The packed log-probability of a valid token whose successor is masked is that of the next valid token, of
  another sequence if need be: it is right if and only if that token equals the successor
  (`PackedAgreesExactly`, `MaskedSuccessor`).

## Model

| member | source | states |
|---|---|---|
| NixlChainTheorems.ChainSafety | verl_src/checkpoint_engine/nixl_checkpoint_engine.py:371-526 | In every state that any interleaving of the ranks' statements, metadata deliveries, single-byte copies and read completions can reach, for any number of ranks, no assert has fired (the notify-key assert, the slice bounds), every receiver has yielded a prefix of rank 0's chunks with rank 0's bytes, and one that is done has yielded all of them |
| NixlChainTheorems.ChainDeliversWeights | verl_src/checkpoint_engine/nixl_checkpoint_engine.py:397-526 | Composed with split, packing and merge: what a receiver has yielded at the end of any run merges to exactly the weights that were sent, up to those without bytes, if every small weight is well placed in its bucket, and makes the merge raise otherwise |
| NixlChainTheorems.NoOverwrite | verl_src/checkpoint_engine/nixl_checkpoint_engine.py:143-174 | No step of any reachable state writes into a buffer that is published and unacknowledged, named by a message in flight, being read by the next rank, or being yielded from |
| NixlChainTheorems.OnlyWritten | verl_src/checkpoint_engine/nixl_checkpoint_engine.py:397-424 | The buffer that `Written` names is the only one a step can change, so `NoOverwrite` speaks about all writes |
| NixlChainTheorems.ChainProgress | verl_src/checkpoint_engine/nixl_checkpoint_engine.py:397-526 | No reachable state short of completion is stuck: some rank or transfer can always take a step |
| NixlChainTheorems.ChainTerminates | verl_src/checkpoint_engine/nixl_checkpoint_engine.py:397-526 | Every run is at most ranks * (buckets + 1) * a constant of the configuration long, because each step lowers a measure |
| NixlChainTheorems.ChainEndsClean | verl_src/checkpoint_engine/nixl_checkpoint_engine.py:124-140 | When every rank is done, no operation is outstanding and no message or notification is left in a queue, so the agents' queues are as before the run |
| NixlChainSafety.NextInv | verl_src/checkpoint_engine/nixl_checkpoint_engine.py:143-235 | The protocol invariant (positions of neighbouring ranks, queues, buffers, what was yielded) is kept by every step of every rank |
| NixlAgents.RolloutIsChain | verl_src/checkpoint_engine/nixl_checkpoint_engine.py:289-305 | The rollout workers are wired as a chain, each with its predecessor and successor, if and only if there are at least two of them; trainer rank 0 is followed by the first |
| NixlAgents.TrainersIdle | verl_src/checkpoint_engine/nixl_checkpoint_engine.py:289-305 | Every trainer but the first gets rank -1 and no neighbour, the first gets rank 0, no predecessor and the first rollout worker as its successor, and the ranks that are not negative are 0 .. rollout, each once |
| NixlAgents.TopologyAdmitted | verl_src/checkpoint_engine/nixl_checkpoint_engine.py:321-335 | The asserts of `init_process_group` hold for every worker of the built topology if and only if there are at least two rollout workers |
| NixlAgents.NixlAgent.ReadMessage | verl_src/checkpoint_engine/nixl_checkpoint_engine.py:128-132 | Returns the oldest unread message of the given agent whatever else arrives in between, or goes on waiting; the messages of other agents are kept in order |
| NixlAgents.NixlAgent.GetNotification | verl_src/checkpoint_engine/nixl_checkpoint_engine.py:134-140 | Returns the oldest notification of the agent that answers, which the loop variable may have changed; everyone else's notifications are kept in order |
| NixlAgents.SingleNotifier | verl_src/checkpoint_engine/nixl_checkpoint_engine.py:134-140 | If only the awaited agent notifies, it is that agent's notification that is returned |
| NixlAgents.FirstPollAnswers | verl_src/checkpoint_engine/nixl_checkpoint_engine.py:134-140 | For any polls: the notification of the awaited agent is returned if and only if one of it had arrived before, or nothing arrives at all, or that agent stands last in the first poll with notifications |
| NixlAgents.WrongNotifier | verl_src/checkpoint_engine/nixl_checkpoint_engine.py:134-140 | A concrete poll with two notifiers for which the notification of the wrong one is returned |
| NcclBroadcastSafety.BroadcastSafety | verl_src/checkpoint_engine/nccl_checkpoint_engine.py:80-375 | For any interleaving of rank 0, the background broadcast and the receivers, every receiver has yielded a prefix of rank 0's chunks with rank 0's bytes and metadata, one that is done has yielded all, and no slice leaves its buffer |
| NcclBroadcastSafety.BroadcastDeliversWeights | verl_src/checkpoint_engine/nccl_checkpoint_engine.py:230-375 | Composed with split, packing and merge: what a receiver that is done has yielded merges to exactly the weights that were sent, up to those without bytes, if every small weight is well placed in its bucket, and makes the merge raise otherwise |
| NcclBroadcastSafety.RootOwnership | verl_src/checkpoint_engine/nccl_checkpoint_engine.py:248-298 | Rank 0 never fills the buffer of an outstanding broadcast, in any reachable state |
| NcclBroadcastSafety.ReceiverOwnership | verl_src/checkpoint_engine/nccl_checkpoint_engine.py:320-368 | No receiver receives into the buffer that it yields from, and no step changes that buffer |
| NcclBroadcastSafety.BroadcastProgress | verl_src/checkpoint_engine/nccl_checkpoint_engine.py:80-99 | As long as rank 0 or some receiver is not done, something can happen |
| NcclBroadcastSafety.BroadcastEndsClean | verl_src/checkpoint_engine/nccl_checkpoint_engine.py:80-99 | When rank 0 and a receiver are done, neither has an operation outstanding and the channels between them are empty |
| NcclBroadcastTermination.BroadcastTerminates | verl_src/checkpoint_engine/nccl_checkpoint_engine.py:80-375 | Every run is at most ranks * (buckets + 1) * a constant of the configuration long |
| BucketPacking.PipelineRoundTrip | verl_src/checkpoint_engine/base.py:517-585 | For distinct names and any positive bucket size, split and packing raise nothing and every bucket is legal; merging what is unpacked gives back the weights that have bytes if every weight that fits in a bucket begins there at a multiple of its item size, and raises otherwise; so it gives back the weights if and only if that holds and every weight has at least one byte |
| BucketPacking.MergePlaced | verl_src/checkpoint_engine/base.py:563-568 | Chunks that merge from where they were cut merge to the same from their buckets, or raise if and only if one that is to be viewed is misaligned |
| BucketAlignment.CommonDivisor | verl_src/checkpoint_engine/base.py:563-568 | Every small weight is well placed if some number divides the bucket size and the bytes of all weights and is a multiple of all item sizes |
| BucketAlignment.OneItemSizeExactly | verl_src/checkpoint_engine/base.py:563-568 | All lists of weights of one element type are well placed if and only if the item size divides the bucket size or exceeds it |
| BucketAlignment.MixedItemSizes | verl_src/checkpoint_engine/base.py:563-568 | Two weights of different item sizes for which the merge raises |
| BucketAlignment.OddBucket | verl_src/checkpoint_engine/base.py:563-568 | Two weights of one item size in a bucket of five bytes for which the merge raises |
| BucketAlignment.NoElements | verl_src/checkpoint_engine/base.py:532-533 | A weight without elements that does not arrive |
| BucketPacking.SendWeights | verl_src/checkpoint_engine/nccl_checkpoint_engine.py:248-298 | The packing loop with its two swapped buffers hands out exactly the buckets of the next-fit rule, with the content they have at that time, or raises exactly its errors |
| BucketPacking.PackSucceeds | verl_src/checkpoint_engine/nccl_checkpoint_engine.py:277-278 | On the chunks of weights with distinct names neither assert of the packing loop fires: no chunk exceeds a bucket and two chunks of one weight never share one |
| BucketPacking.PackSound | verl_src/checkpoint_engine/nccl_checkpoint_engine.py:277-278 | For any chunks: a packing that raises nothing has room for each of them, and no bucket names a weight twice |
| BucketPacking.PackUnpack | verl_src/checkpoint_engine/nccl_checkpoint_engine.py:352-354 | What the receivers cut out of the buckets are the packed chunks, in order, byte for byte, each with the place that its size and those before it determine |
| BucketPacking.TransferBound | verl_src/checkpoint_engine/nccl_checkpoint_engine.py:254-298 | Only the last bucket can be empty, two neighbours never fit in one bucket, and so floor(B/2) * bucket_size is less than the bytes sent |
| BucketPayload.EveryByteOnce | verl_src/checkpoint_engine/nccl_checkpoint_engine.py:254-298 | The buckets carry the bytes of the weights, each once and in order, and floor(B/2) * bucket_size is less than the number of these bytes |
| WeightChunks.SplitWeightChunks | verl_src/checkpoint_engine/base.py:517-543 | The two loops produce the chunks of all weights in order, each at most a bucket |
| WeightChunks.MergeWeightChunks | verl_src/checkpoint_engine/base.py:546-585 | The loop with its in-place buffer computes the merge fold, including which of its asserts and views raises first |
| WeightChunks.SplitMergeRoundTrip | verl_src/checkpoint_engine/base.py:517-585 | Merging what split produced raises nothing and returns the weights in order, without those that have no bytes, whatever the uninitialised buffer held |
| WeightChunks.NumelMultiplies | verl_src/checkpoint_engine/base.py:561 | The number of elements of a shape: one dimension has its length, and shapes behind each other multiply |
| ChunkAssembly.MergeExactly | verl_src/checkpoint_engine/base.py:546-585 | For any chunks that agree on the tensor wherever they agree on its name: the merge ends well with the given weights if and only if the chunks are, one weight after the other, either one that can be viewed or the pieces of a large one without gap or overlap |
| OffloadRuns.TensorsComeBack | verl_src/utils/activation_offload.py:263-395 | Over any number of training iterations in the order of the autograd hooks, for every 1 <= groups <= layers, if tensors with the same key agree where their group is moved to the host, no assert fires, no lookup misses, and every tensor popped is the one pushed under its tag, never a placeholder |
| OffloadSharing.TensorsComeBackExactly | verl_src/utils/activation_offload.py:263-395 | A run of any number of iterations that fetches everything it saves raises nothing and fetches every tensor as it was saved if and only if, at every commit that moves a group to the host, tensors of the group with the same key have the same elements |
| OffloadRuns.HandlerIsAsNew | verl_src/utils/activation_offload.py:285-395 | After a backward pass in which every tag was popped, the counters, both tag maps and the offload mapping are those of a new handler |
| OffloadRuns.TwoGroupsOnDevice | verl_src/utils/activation_offload.py:500-543 | With one offload group fewer than the at least three layers, in every state the tensors on the device belong to the current layer group and the one below it |
| OffloadRuns.WindowMapIsSchedule | verl_src/utils/activation_offload.py:247-257 | The window map is strictly increasing, no window lies before its group (with fewer groups than layers: after it), and the last one is the last layer |
| OffloadRuns.WindowsEven | verl_src/utils/activation_offload.py:247-257 | The windows share the layers out evenly: no window is longer than an earlier one, and by at most one layer shorter |
| OffloadRuns.BuffersUntilWindow | verl_src/utils/activation_offload.py:263-345 | In the forward pass of any run, every saved tensor of a group that is to be offloaded is in the buffer map until the group's window, and released from there on |
| OffloadRuns.EventKeeps | verl_src/utils/activation_offload.py:263-395 | Each event of a training run succeeds and keeps the counters, the dictionaries and the windows in step |
| OffloadHandler.GroupReturnsExactly | verl_src/utils/activation_offload.py:298-371 | Offloading and reloading a group gives back every tensor of it if and only if those with the same key have the same elements |
| OffloadHandler.PushThenPop | verl_src/utils/activation_offload.py:263-296 | A push succeeds if and only if its tag is new; popping it at once gives the tensor back, leaves only the counter changed, and a second pop raises |
| OffloadHandler.UntouchedComesBack | verl_src/utils/activation_offload.py:263-296 | A tensor that is not to be offloaded passes through push and pop and leaves the handler as it was |
| OffloadHandler.GroupRefused | verl_src/utils/activation_offload.py:298-371 | Moving a group to the host raises exactly if one of its tensors is there already; moving it back raises for a group without offloading, for one without a host copy, and for a tensor without a copy of its number of elements |
| OffloadHandler.CommitsRefused | verl_src/utils/activation_offload.py:319-395 | The commits that raise: behind the last window, in front of the first group, and at a window whose group cannot be moved |
| OffloadSharing.SharedKey | verl_src/utils/activation_offload.py:35-37 | Over a run of one layer that saves two tensors with the same key, the second comes back right if and only if it has the elements of the first |
| OffloadHandlerClass.AsyncDoubleBufferGroupOffloadHandler.constructor | verl_src/utils/activation_offload.py:228-261 | The loop with its running constant fills the window map with the closed form of the windows; the handler starts empty |
| OffloadHandlerClass.AsyncDoubleBufferGroupOffloadHandler.TensorPush | verl_src/utils/activation_offload.py:263-283 | Changes exactly the counter and the two tag maps as `Push` says, or raises its error |
| OffloadHandlerClass.AsyncDoubleBufferGroupOffloadHandler.TensorPop | verl_src/utils/activation_offload.py:285-296 | Returns what the tag holds and forgets it, or raises if it is unknown or still a placeholder |
| OffloadHandlerClass.AsyncDoubleBufferGroupOffloadHandler.BulkOffloadGroup | verl_src/utils/activation_offload.py:298-317 | One pass over the tags, in the order of the dictionary and for any tensors, moves the whole group to the host, with one copy for every key, that of its first tensor, and leaves the other groups alone |
| OffloadHandlerClass.AsyncDoubleBufferGroupOffloadHandler.BulkReloadGroup | verl_src/utils/activation_offload.py:355-371 | One pass over the tags brings every tensor of the group back from its host copy and drops the copies |
| OffloadHandlerClass.AsyncDoubleBufferGroupOffloadHandler.SynchronizeOnGroupCommitForward | verl_src/utils/activation_offload.py:319-345 | Offloads group 0 at the first commit, and at a window releases the group's buffers, offloads the next group and counts it |
| OffloadHandlerClass.AsyncDoubleBufferGroupOffloadHandler.OnGroupCommitForward | verl_src/utils/activation_offload.py:347-353 | The synchronisation, then the next group with its counter reset |
| OffloadHandlerClass.AsyncDoubleBufferGroupOffloadHandler.OnGroupCommitBackward | verl_src/utils/activation_offload.py:373-395 | Steps back one group, reloads at the windows, and resets the count at group 0 |
| KarmarkarKarpTheorems.SpreadBound | verl_src/utils/seqlen_balancing.py:94-120 | Whatever the order of the merges, the partitions come in the decreasing order of their sums, and no sum exceeds another by more than the largest item (non-negative values), or with equal sizes by more than the largest gap within a block of k consecutive sorted values (any values) |
| KarmarkarKarpTheorems.MaxSumBound | verl_src/utils/seqlen_balancing.py:144-166 | k * max_sum <= total + (k - 1) * bound, for every order of merges |
| KarmarkarKarpTheorems.ExactPartition | verl_src/utils/seqlen_balancing.py:104-116 | k lists in which every index 0 .. n-1 stands exactly once, for every order of merges and any values |
| KarmarkarKarpTheorems.EqualSizes | verl_src/utils/seqlen_balancing.py:167-171 | With equal_size every list has n/k items, so the final assert cannot fail |
| KarmarkarKarpTheorems.UsedPartitions | verl_src/utils/seqlen_balancing.py:87-92 | For non-negative values the list p is non-empty if and only if p < n, because a set with items sorts before an empty one of the same sum |
| KarmarkarKarpTheorems.MergeCloses | verl_src/utils/seqlen_balancing.py:113-116 | Merging the largest set of one state with the smallest of the other keeps the spread of the worse of the two |
| KarmarkarKarpTheorems.HeapLayoutIrrelevant | verl_src/utils/seqlen_balancing.py:122-128 | States with the same pool lead to the same result however a heap is laid out: its comparison never leaves it a choice |
| KarmarkarKarpTheorems.HeapDecides | verl_src/utils/seqlen_balancing.py:144-166 | For non-negative values any two sequences of heap pops end in the same partitions |
| KarmarkarKarpTheorems.LargestGapExactly | verl_src/utils/seqlen_balancing.py:146-152 | The bound for equal_size is the largest difference inside a block of k consecutive sorted items: no block has more, and one has as much unless it is zero |
| KarmarkarKarpOrders.HeapPops | verl_src/utils/seqlen_balancing.py:118-128 | What a pop yields, told by the sums alone: no two sets of another state differ by more than the ends of the popped one, and at equality no first set of another is larger, by sum, number of items and then items |
| KarmarkarKarpOrders.PartitioningPopsWidest | verl_src/utils/seqlen_balancing.py:158-165 | Every pop of every call takes such a widest state, first from the pool and then from the rest |
| KarmarkarKarpOrders.SetsInOrder | verl_src/utils/seqlen_balancing.py:87-92 | The sets of a state are rearranged so that no later one is larger, by sum, number of items and then items |
| KarmarkarKarpOrders.ItemsInOrder | verl_src/utils/seqlen_balancing.py:144 | The values are handed out in ascending order, equal ones by ascending index |
| KarmarkarKarpExample.FiveInTwo | verl_src/utils/seqlen_balancing.py:138-172 | For the values 8, 7, 6, 5, 4 in two parts every sequence of heap pops ends in the lists [4, 1, 3] and [0, 2] |
| KarmarkarKarpClass.SetObject.Add | verl_src/utils/seqlen_balancing.py:78-80 | Appends the item and adds its value |
| KarmarkarKarpClass.SetObject.Merge | verl_src/utils/seqlen_balancing.py:82-85 | Appends the other set's items one by one; the sum grows by their values and the other set stays |
| KarmarkarKarpClass.SortSets | verl_src/utils/seqlen_balancing.py:102-116 | The same objects in the decreasing order of their values |
| KarmarkarKarpClass.StateObject.constructor | verl_src/utils/seqlen_balancing.py:95-102 | k fresh distinct sets, the first ones holding one item each, in decreasing order |
| KarmarkarKarpClass.StateObject.Merge | verl_src/utils/seqlen_balancing.py:113-116 | Merges set i with the other state's set k-1-i in place and sorts again; the other state's sets stay as they are |
| KarmarkarKarpClass.StateObject.GetPartitions | verl_src/utils/seqlen_balancing.py:104-111 | The index lists of the sets in their order |
| BalancedPartitions.FindLeast | verl_src/utils/seqlen_balancing.py:158-160 | A state that no other state of the pool comes before |
| BalancedPartitions.ReducePool | verl_src/utils/seqlen_balancing.py:158-165 | The while loop ends with the state that some sequence of heap pops leads to, though states are merged in place |
| BalancedPartitions.KarmarkarKarpPartition | verl_src/utils/seqlen_balancing.py:49-172 | Succeeds exactly for k > 0, at least one value and, with equal_size, k dividing n, names the error otherwise, and returns the partitions of a sequence of heap pops |
| BalancedPartitions.RefusalIs | verl_src/utils/seqlen_balancing.py:144-166 | Which error a refused call raises: the division by zero, the assert on divisibility or the missing state |
| BalancedPartitions.CheckAndSortPartitions | verl_src/utils/seqlen_balancing.py:241-251 | For any lists: raises if they are not k, if one is empty, or if the indices in them are not 0 .. n-1, in this order, and gives back the sorted lists otherwise |
| BalancedPartitions.SeesAllExactly | verl_src/utils/seqlen_balancing.py:243-250 | Lists that pass the check of the indices are a partition of 0 .. n-1 if and only if they have n entries in all |
| BalancedPartitions.RepeatedIndex | verl_src/utils/seqlen_balancing.py:243-250 | Lists with an index that stands twice pass the check of the indices |
| BalancedPartitions.GetSeqlenBalancedPartitions | verl_src/utils/seqlen_balancing.py:213-254 | For non-negative values none of the checks can fail: the call succeeds exactly for 0 < k <= n and, with equal_size, k dividing n; the lists are sorted, non-empty and a partition |
| GreedyPartition.Greedy | verl_src/utils/seqlen_balancing.py:175-210 | The nested loops compute the greedy assignment, with the first of the lightest partitions, and raise exactly when the final assert fails or there is no partition |
| GreedyPartition.GreedyPartitions | verl_src/utils/seqlen_balancing.py:196-204 | Every index stands exactly once in the partitions, at every step |
| GreedyPartition.GreedySpread | verl_src/utils/seqlen_balancing.py:198-204 | Without the bias no partition sum exceeds another by more than the largest item |
| GreedyPartition.SizesWithinOne | verl_src/utils/seqlen_balancing.py:194-204 | With the bias sum + 1 the sizes of any two partitions differ by at most one at every step |
| GreedyPartition.GreedyEqualSizes | verl_src/utils/seqlen_balancing.py:205-209 | The final assert holds if and only if k divides the number of items |
| GreedyChoices.GreedyExactly | verl_src/utils/seqlen_balancing.py:196-204 | A partition of the items is the greedy one if and only if its lists ascend and every item stands in the first of the lists that the items before it make the lightest |
| MicroBatches.RearrangeMicroBatches | verl_src/utils/seqlen_balancing.py:381-468 | Fails exactly when the number of micro-batches cannot be determined, with that error; the index lists come from a balanced partition of the group workloads, expanded, sorted and interleaved |
| MicroBatches.RearrangedBatches | verl_src/utils/seqlen_balancing.py:411-468 | The index lists are as many as determined, none is empty, every sample stands in exactly one, groups stay together, no list outweighs another by more than the heaviest group, and with balancing the workloads rise to a peak and fall from there |
| MicroBatchOrder.BatchOrder | verl_src/utils/seqlen_balancing.py:440-460 | The order of the micro-batches told by the work of all their samples: with balancing, from the peak they get lighter to the right and to the left in turn, equally heavy ones by their first sample; without, from the first to the last; the samples of each ascend |
| MicroBatches.WorkloadGrows | verl_src/utils/seqlen_balancing.py:46 | The workload of two lengths together exceeds the sum of theirs by twice their product, and that of one token is 24577 |
| MicroBatches.CountIsLeast | verl_src/utils/seqlen_balancing.py:387-409 | Legal settings give the smallest count that covers the tokens (or all groups), the minimum, the other ranks' counts and divisibility; they are refused when it exceeds the groups, or when a count of zero would do |
| MicroBatches.CountRefused | verl_src/utils/seqlen_balancing.py:383-409 | Which settings are refused before anything is counted, and with which error |
| TokenLimits.TokenLimitExceeded | verl_src/utils/seqlen_balancing.py:383-393 | A concrete batch for which every partition into the determined number of micro-batches has one with more tokens than max_token_len |
| TokenLimits.TokenLimitKept | verl_src/utils/seqlen_balancing.py:393-443 | For any lengths and group size, no micro-batch has more than max_token_len tokens if the total workload and k - 1 times the largest group workload are at most k times the linear part of the workload of max_token_len tokens |
| TokenLimits.TokenLimitNeeds | verl_src/utils/seqlen_balancing.py:393-443 | If every micro-batch is within max_token_len, all tokens are within k times it and every group is within it |
| TokenLimits.EqualLengthsExactly | verl_src/utils/seqlen_balancing.py:393-443 | For samples of one length, every micro-batch is within max_token_len if and only if the tokens of ceil(groups / k) groups are |
| TokenLimits.OneGroupEachExactly | verl_src/utils/seqlen_balancing.py:393-443 | With as many micro-batches as groups, every micro-batch is within max_token_len if and only if every group is |
| MicroBatches.RoundUpIsLeast | verl_src/utils/seqlen_balancing.py:327-345 | The smallest multiple of b that is at least a |
| Arithmetic.CeilDivIsLeast | verl_src/utils/seqlen_balancing.py:305-324 | The least number of b's that cover a, through floor division by a negative divisor |
| MicroBatches.ExpandGroups | verl_src/utils/seqlen_balancing.py:424-431 | The nested loops list the samples of the groups, group by group |
| MicroBatches.GetReverseIdx | verl_src/utils/seqlen_balancing.py:471-486 | Every entry becomes the last position at which its index stands, or stays as it was; an index outside the map raises |
| MicroBatches.ReverseInverts | verl_src/utils/seqlen_balancing.py:471-486 | The reverse of a permutation is undone by it |
| MicroBatches.ReverseExactly | verl_src/utils/seqlen_balancing.py:471-486 | For any map, an entry is the last place of its index, or stays if the index is missing |
| MicroBatches.RestoreDynamicBatch | verl_src/utils/seqlen_balancing.py:539-551 | Checks the sizes, reverses the flattened index lists and gathers the rows |
| MicroBatches.RestoreRoundTrip | verl_src/utils/seqlen_balancing.py:539-551 | Restoring the concatenated rows of the micro-batches of any partition returns every row to its place |
| MicroBatches.RestoreRefused | verl_src/utils/seqlen_balancing.py:539-551 | Restoring raises exactly for lists of another size than the data or with an index outside it |
| LayerOffsets.LayersBijection | verl_src/utils/megatron_utils.py:1412-1538 | In supported layouts whose counts divide, offset plus local number is a bijection between the places (virtual stage, rank, local layer) and the layers 0 .. num_layers-1 |
| LayerOffsets.OffsetsRightExactly | verl_src/utils/megatron_utils.py:1419-1538 | Among the layouts whose counts divide, the offsets are those of consecutive chunks if and only if the layout is supported: interleaving on one rank, and uneven interleaving without a first-stage count or without a middle stage, are not |
| LayerOffsets.UnevenOffsets | verl_src/utils/megatron_utils.py:1427-1502 | The offset of every rank of an uneven layout, including the one middle chunk by which it falls short without a first-stage count |
| LayerOffsets.EvenOffsets | verl_src/utils/megatron_utils.py:1504-1535 | The offset of every rank and virtual stage of an even layout |
| LayerOffsets.EvenShares | verl_src/utils/megatron_utils.py:1504-1535 | For layers that need not divide: a virtual stage counts a rounded-down share of the layers, and a rank a rounded-down share for every stage of every rank |
| LayerOffsets.UnevenShares | verl_src/utils/megatron_utils.py:1427-1493 | For uneven interleaved layouts that need not divide: the stages in front count their first, middle and last chunks, the ranks in front the first chunk and a share of the middle one |
| LayerOffsets.OffsetRefused | verl_src/utils/megatron_utils.py:1412-1538 | The calls that raise: a missing virtual stage, zero virtual stages, and no middle stage to divide by |
| LayerOffsets.RanksCollide | verl_src/utils/megatron_utils.py:1485-1493 | An uneven interleaved layout without a first-stage count gives ranks 0 and 1 the same non-empty layers |
| LayerOffsets.CollisionOfEight | verl_src/utils/megatron_utils.py:1485-1493 | A concrete layout of eight layers for which ranks 0 and 1 both start at layer 0 |
| LayerNames.NormalizeModelName | verl_src/utils/model.py:339-360 | The scan and the update of one component in place, with its two asserts |
| LayerNames.NormalizesNumber | verl_src/utils/model.py:348-359 | The number behind the first matching component grows by the offset and every other component of the dotted name stays |
| LayerNames.EveryName | verl_src/utils/model.py:339-360 | For every string: without the layer anywhere in it the name stays as it is; it is refused if the layer stands only inside components or at the end, or if no digits follow; otherwise the number behind the first component that is the layer grows by the offset |
| LayerNames.NamesMeet | verl_src/utils/model.py:339-360 | Two local layers of one parameter get the same name if and only if they are the same global layer |
| GlobalNames.PlacesKeepApart | verl_src/utils/model.py:339-360 | In a supported layout, two places (virtual stage, rank, local layer) get the same name if and only if they are the same place |
| GlobalNames.OneNameForTwo | verl_src/utils/model.py:339-360 | In an unsupported layout of eight layers the first layers of two ranks have the same offset and number, and so one name |
| PipelineShards.GetDynamicPipelineShards | verl_src/model_merger/megatron_model_merger.py:67-98 | The search over all middle sizes with its stable sort returns the closed form: ceil(layers / stages) in the middle, or an error exactly when that does not fit |
| PipelineShards.BestStrategy | verl_src/model_merger/megatron_model_merger.py:82-97 | The first element of the sorted candidates is the one of the smallest feasible middle size, and there is a candidate exactly if that size is feasible |
| PipelineShards.ShardsAddUp | verl_src/model_merger/megatron_model_merger.py:67-98 | The shards are positive, as many as ranks, add up to the layers, and for three or more ranks none exceeds the rounded-up mean |
| PipelineShards.EndsShare | verl_src/model_merger/megatron_model_merger.py:75-97 | The last rank has as many layers as the first or one more, and every rank between has the rounded-up mean |
| PipelineShards.ShardsRefused | verl_src/model_merger/megatron_model_merger.py:67-98 | Exactly when each error is raised: the last one if no positive ends and middle, the ends at most the middle, add up to the layers |
| PipelineShards.ShardsAreOffsets | verl_src/model_merger/megatron_model_merger.py:232-240 | The cumulated shards are the layer offsets of the layout that the merger configures from them, for every rank |
| PipelineShards.NoShardingOfFive | verl_src/model_merger/megatron_model_merger.py:81-97 | Five layers have no sharding on four ranks |
| PipelineShards.Renumber | verl_src/model_merger/megatron_model_merger.py:358-418 | The nested loops give every layer of every state dict its local number plus the cumulated count |
| PipelineShards.CumulatedLayers | verl_src/model_merger/megatron_model_merger.py:358-418 | The cumulated count is the number of layers before, if and only if every earlier state dict has at least one layer |
| PipelineShards.EmptyStateDict | verl_src/model_merger/megatron_model_merger.py:358-418 | An empty state dict between two others shifts the numbers of the third by one too many |
| QkvAgreement.SplittersAgree | verl_src/utils/megatron_utils.py:977-1002 | With key-value heads that the ranks share evenly and matching row counts, `_split_tensors` on the whole tensor, `default_tp_concat_fn` on its shards and `convert_qkv_shard` return the same queries, keys and values, which use every row exactly once |
| QkvAgreement.SplitTensorsGroups | verl_src/model_merger/megatron_model_merger.py:330-354 | `_split_tensors` takes the groups of query, key and value rows apart |
| QkvAgreement.SplitTensorsExactly | verl_src/model_merger/megatron_model_merger.py:335-352 | `_split_tensors` succeeds, for head counts that pass its assert, if and only if every head has the same whole number of rows |
| QkvAgreement.TpConcatGroups | verl_src/utils/megatron_utils.py:1190-1223 | The qkv branch of `default_tp_concat_fn` takes the groups of all shards apart, in the order of the shards |
| QkvAgreement.ConvertGroups | verl_src/utils/megatron_utils.py:977-1002 | `convert_qkv_shard` takes the groups apart rank by rank |
| QkvSplit.QueryRowAt | verl_src/utils/megatron_utils.py:991-1000 | Query row j of group g is row j of group g of the tensor |
| QkvSplit.KeyRowAt | verl_src/utils/megatron_utils.py:991-1002 | Key and value row j of group g are the rows behind the group's queries and behind its keys |
| QkvSplit.SplitTensors | verl_src/model_merger/megatron_model_merger.py:330-354 | The loop over the chunks, with the asserts on the configuration and the split sizes |
| QkvSplit.TpConcat | verl_src/utils/megatron_utils.py:1190-1223 | The loops over the shards and their chunks, with the asserts and the errors of chunk and split |
| QkvSplit.ConvertQkvShard | verl_src/utils/megatron_utils.py:977-1002 | The loops over the ranks and their chunks, with slices that stop at the end of the tensor |
| PackedLogProbs.PackedRefinesPadded | verl_src/utils/torch_functional.py:598-638 | For every mask and 0 < response_length < seqlen the packed result equals the padded one wherever a position and its successor are both valid, and is zero where the position is masked |
| PackedLogProbs.PackedAt | verl_src/utils/torch_functional.py:614-638 | The exact value at every response position: zero if masked, else the log-probability of the next valid token, going round at the end of the batch |
| PackedLogProbs.PackedAgreesExactly | verl_src/utils/torch_functional.py:598-638 | At a valid position both forms agree if and only if the next valid token of the batch equals the token that follows in the sequence (log-probabilities telling tokens apart), at a masked position if and only if the padded value is zero |
| PackedLogProbs.MaskedSuccessor | verl_src/utils/torch_functional.py:614-638 | A concrete sequence with a masked last token for which the packed value is that of the first token and the padded one that of the last |
| PackedLogProbs.PaddedAt | verl_src/utils/torch_functional.py:598-611 | The padded value is the log-probability of the response token under the logits one place before it |
| PackedLogProbs.PaddedDefined | verl_src/utils/torch_functional.py:598-611 | The padded form has matching shapes exactly for response lengths above zero and below the sequence length |
| PackedLogProbs.PackedDefined | verl_src/utils/torch_functional.py:614-638 | When the packed form has a value: at least one sequence, and as many logits as valid positions |
| PackedLogProbs.RolledLabel | verl_src/utils/torch_functional.py:630-633 | The label rolled to a valid position is the token of the next valid one |
| PackedLogProbs.IndexPut | verl_src/utils/npu_flash_attn_utils.py:57-66 | The zeroed output written in place holds each value at its index |

## Left out

- The broadcast engine for Ascend devices: the same double buffer without chunks and with synchronous
  broadcasts.
- The Mooncake and Kimi engines: the first does not drain its completion slots at the end of a run, and most
  of the second's receive path is in a library that is not part of this model.
- Sockets, process groups, actors, allocation, time-outs, bandwidth logs and transfers that end in an error
  state: foreign calls.
- The notification rebinding is modelled in `NixlAgents`; the chain itself assumes a single notifier.
- NixlChainTheorems.ChainTerminates: counts steps of the ranks and transfers; the polling between them is not
  a step.
- CUDA streams, pinned memory, fake tensors and activation checkpointing in the offload handler: tensors are
  (key, shape, elements), and the hooks are events.
- The push and pop of `SynchronizedGroupOffloadHandler`, which the asynchronous handler overrides: two
  dictionary accesses.
- OffloadRuns.TwoGroupsOnDevice: counts layer groups with tensors on the device, not bytes.
- TokenLimits.TokenLimitKept: is not exact for lengths that differ, where a list's tokens depend on the whole
  course of the merges; `TokenLimitNeeds` is the other direction.
- `get_group_balanced_partitions`, `prepare_dynamic_batch`, the balance log and the slicing of the batch
  tensors: the first uses the same partitioning on groups, the others move data.
- The synchronisation of counts over the data-parallel group: the other ranks' counts are a parameter.
- Embedding and loss accounting and custom pipeline layouts in the layer offset, and fewer key-value heads
  than ranks in `convert_qkv_shard`: they depend on process state and arguments that are not visible there.
- QkvAgreement.SplittersAgree: asks for row counts that match the head counts; for others the three report
  errors in different places.
- The gate-up splits, the expert renaming and the loading and saving in the checkpoint merger.
- LayerNames.NormalizeModelName: knows the ASCII digits only.
- Floating point: the values of log-softmax and of the workload estimate on a device.
- PackedLogProbs.PackedRefinesPadded: takes the packed logits to be those of the valid positions, which is
  what a model without cross-sequence effects computes.
