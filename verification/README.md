# Verified model of verl's weight transfer, replay and layout code

This project models parts of the `verl` RL training library in Dafny and proves
what they are for. Paths are relative to the repository root.

* **Weight synchronisation.** A trainer packs a stream of named tensors into
  fixed-size byte buckets and ships them with two swapping buffers.
  `Packing` is the packing itself, with an algorithm-free definition of greedy
  packing that the send loops are shown to meet uniquely. `NcclEngine` has the
  NCCL engine's buffers, offsets and in-place copies as a class over arrays; a
  broadcast reads parts of its buffer when it is launched and the rest when it
  is waited for, in any split. `NixlTopology` is `build_topology`. `NixlChain`
  is the NIXL chain as a state machine: every rank steps on its own, transfers
  copy one byte at a time in any order, links are FIFO queues. `NixlSafety`,
  `NixlTheorems` and `NixlLiveness` prove its invariant, the delivery and buffer
  theorems over every run, and that every run ends after a fixed number of
  steps with everything delivered and acknowledged.
* **Replay buffer and agent loops.** `OutputKeys` prints and parses the keys of
  outputs, `ReplayBuffer` is the class, `ReplayProtocol` the manager, workers,
  poller and trainer around it as a state machine, and `ReplayEffects` follows
  single keys through its runs. `Advantage` is the scatter of GRPO advantages for
  sessions with several outputs.
* **Checkpoint layouts.** `QkvLayout` interleaves q, k and v, cuts the result for
  tensor parallelism and merges it again. `ExpertShards` divides experts among
  ranks, `PipelineShards` searches a pipeline sharding, `LayerRenumbering`
  makes layer numbers global, `MoeLayout` stacks and unstacks experts,
  `GreedyShards` divides tensors by size.
* **Rows and numbers.** `DataRows` is the row algebra of `DataProto`, `DataMeta` what
  joining does to the meta, `ZoomBox` the bounding-box resize over reals,
  `PipelineOrder` the order of micro-batches.
* `Common`, `Arithmetic`, `OrderedDict` and `Blocks` hold shared definitions.

Loops and in-place updates of the source are methods, proved equal to a
specification function or predicate; the properties are then proved of that
specification for all inputs.

## Hypotheses

* Links are reliable and FIFO, notification keys are fresh, and the consumer of
  a generator copies a yielded view before it resumes the generator.
* Puts to the transfer queue are atomic, and `kv_list` returns one state of a
  partition. Prompt ids contain no underscore (they are UUIDs).
* Tensors are byte sequences, or sequences of rows or cells; `compute_advantage`
  is a function from rows to rows of scores.
* The MoE round trips take the same number of experts for both scripts; when the
  scripts read the same number is `MoeLayout.ExpertCountsAgreeIff`.
* The number of pieces into which a tensor dict without rows is chunked is a
  parameter of `DataRows.ChunkProto`: its library decides it.

## Where the code falls short

Each of these is proved as an exact condition, with the code kept as it is, and
shown at an input.

* `build_topology` passes the length checks iff there are a trainer worker and at
  least two rollout workers (`NixlTopology.LengthsOkIff`); one rollout worker
  gets too many next entries (`NixlTopology.OneRolloutWorkerFails`).
* The engines deliver the weights unchanged iff names are distinct inside every
  bucket (`Packing.StreamIsIdentity`); of two tensors with one name only the
  second arrives (`Packing.RepeatedNameIsLost`).
* Equal tensor-parallel shards of a fused QKV weight can be merged back iff their
  number divides the number of key heads (`QkvLayout.MergesIffShardsDivideHeads`);
  with three key heads on two ranks every check passes and the rows are wrong
  (`QkvLayout.ThreeHeadsOnTwoRanks`, `QkvLayout.NumberedRowsAreMixedUp`).
* Experts beyond `ep_size * (num_experts // ep_size)` are copied by no rank
  (`ExpertShards.AllExpertsCopiedIff`, `ExpertShards.ThreeExpertsOnTwoRanks`).
* The pipeline search has nothing to choose from unless the rounded-up average
  leaves two layers for the end stages (`PipelineShards.Shards`); 5 layers on 4
  stages are the one case of up to 5 layers
  (`PipelineShards.FiveLayersOnFourStages`, `PipelineShards.FewLayersHavePlans`).
* A pipeline stage without layers still advances the layer offset by one; the
  numbers are contiguous iff no such stage precedes one with layers
  (`LayerRenumbering.ContiguousIffEmptyStagesLast`,
  `LayerRenumbering.EmptyStageShiftsTheNext`).
* Splitting a merged MoE state dict restores it iff it held no stacked weight
  (`MoeLayout.SplitUndoesMerge`, `MoeLayout.StackedKeyIsNotRestored`), and succeeds
  iff the stacked weights of its dense layers have enough slices
  (`MoeLayout.MergedCanBeSplit`, `MoeLayout.StackedKeyCanFailTheSplit`). The splitting
  script does not know the number of experts when only `n_routed_experts` gives
  it (`MoeLayout.ExpertCountsAgreeIff`).
* A zoom request that the image has room to enlarge is returned at every place
  iff its aspect is at most 100 - 1/28 (`ZoomBox.SafeAspectIsSharp`), although
  100 is allowed (`ZoomBox.AwkwardIsRefused`). If the image leaves the enlarged
  short side between 26 and 27, moving the request by a quarter of a pixel
  decides (`ZoomBox.InBetweenReturned`, `ZoomBox.InBetweenRefused`); in every case
  the least whole box around the enlarged one decides (`ZoomBox.SmallBoxIsRounded`).
* With padding enabled, `DataProto.chunk` fails iff fewer chunks of the rounded-up
  size already hold all rows (`DataRows.ChunkProto`, `DataRows.FiveRowsInFourChunks`).
  `unfold_column_chunks` documents that split keys may be omitted; with
  non-tensor columns that raises (`DataRows.UnfoldWithoutKeys`,
  `DataRows.OneNonTensorColumnFails`).

## Model

| member | source | states |
|---|---|---|
| `Packing.PackIsTheGreedyPacking` | verl/verl/checkpoint_engine/nccl_checkpoint_engine.py:247-293 | when every tensor fits, the shipped buckets are the one sequence that keeps all tensors in order, overflows nowhere, and never leaves out a tensor that would have fitted |
| `Packing.PackFromKeepsOrder` | verl/verl/checkpoint_engine/nccl_checkpoint_engine.py:247-293 | no tensor is lost, repeated or reordered by packing, whatever the bucket size |
| `Packing.OnlyALoneBucketIsEmpty` | verl/verl/checkpoint_engine/nccl_checkpoint_engine.py:247-293 | when every tensor fits, no bucket is empty unless it is the only one |
| `Packing.ReadOutIsItems` | verl/verl/checkpoint_engine/nccl_checkpoint_engine.py:322-344 | slicing a bucket by its metadata gives exactly the dict of its tensors: regions lie inside the bucket and each holds the bytes of the tensor last stored under its name |
| `Packing.SlotsAreDisjoint` | verl/verl/checkpoint_engine/nccl_checkpoint_engine.py:247-273 | the regions of a bucket are pairwise disjoint, also when a name occurs twice |
| `Packing.SlotAt` | verl/verl/checkpoint_engine/nccl_checkpoint_engine.py:258-273 | with distinct names metadata entry `i` is tensor `i`, its size, and the bytes of the tensors before it as offset |
| `Packing.SlotsAreContiguous` | verl/verl/checkpoint_engine/nccl_checkpoint_engine.py:247-273 | with distinct names the regions begin at 0, each ends where the next begins, and the last ends at the last byte |
| `Packing.StreamIsIdentity` | verl/verl/checkpoint_engine/nccl_checkpoint_engine.py:238-355 | what receivers are given equals the trainer's stream iff names are distinct inside every bucket |
| `Packing.DistinctNamesArriveUnchanged` | verl/verl/checkpoint_engine/nccl_checkpoint_engine.py:238-355 | distinct names suffice |
| `Packing.RepeatedNameIsLost` | verl/verl/checkpoint_engine/nccl_checkpoint_engine.py:258-344 | of two tensors with one name in one bucket only the second is delivered |
| `NcclEngine.BroadcastOperation.constructor` | verl/verl/checkpoint_engine/nccl_checkpoint_engine.py:43-72 | launching reads some bytes of the bucket and leaves the bucket alone |
| `NcclEngine.BroadcastOperation.WaitForComplete` | verl/verl/checkpoint_engine/nccl_checkpoint_engine.py:74-93 | if the bucket was not touched since the launch, the broadcast carries its bytes |
| `NcclEngine.NCCLCheckpointEngine.SendWeights` | verl/verl/checkpoint_engine/nccl_checkpoint_engine.py:223-293 | succeeds iff every tensor fits in a bucket; ships the greedy buckets in order, `is_last` on the final one only; otherwise stops at the first tensor that is too large, with the buckets of all tensors before it launched and all but the last of them delivered |
| `NcclEngine.NCCLCheckpointEngine.ReceiveWeights` | verl/verl/checkpoint_engine/nccl_checkpoint_engine.py:296-355 | yields every bucket's tensors in order although the next bucket is received into the other buffer meanwhile |
| `NcclEngine.UpdateWeights` | verl/verl/checkpoint_engine/nccl_checkpoint_engine.py:223-355 | sending and receiving together are the identity on any list of distinct weights that fit, for every receiver |
| `NixlTopology.LengthsOkIff` | verl/verl/checkpoint_engine/nixl_checkpoint_engine.py:282-302 | the manager's length checks pass iff there are a trainer worker and two rollout workers |
| `NixlTopology.OneRolloutWorkerFails` | verl/verl/checkpoint_engine/nixl_checkpoint_engine.py:282-302 | with one rollout worker the rank and previous columns have one entry and the next column has one for every worker and one more |
| `NixlTopology.TopologyIsAChain` | verl/verl/checkpoint_engine/nixl_checkpoint_engine.py:282-325 | with those numbers the topology is one chain: every worker is told the same number of ranks and meets the assertions of its rank, and neighbours agree |
| `NixlSafety.InitInv` | verl/verl/checkpoint_engine/nixl_checkpoint_engine.py:365-388 | the initial state meets the chain's invariant |
| `NixlSafety.StepKeepsInv` | verl/verl/checkpoint_engine/nixl_checkpoint_engine.py:137-226 | every step of any rank or transfer keeps the invariant on all ranks and links: which bucket each buffer holds, at most one readable operation per link, queues in step with the protocol |
| `NixlTheorems.RunKeepsInv` | verl/verl/checkpoint_engine/nixl_checkpoint_engine.py:365-513 | the invariant holds at every moment of every interleaving |
| `NixlTheorems.EveryRankYieldsAPrefix` | verl/verl/checkpoint_engine/nixl_checkpoint_engine.py:379-513 | at every moment each rollout rank has yielded a prefix of the trainer's (name, bytes) sequence, all of it once finished |
| `NixlTheorems.NoOtherAssertionFails` | verl/verl/checkpoint_engine/nixl_checkpoint_engine.py:379-432 | the only assertion that can fail in a run is the trainer's, on a tensor larger than a bucket |
| `NixlTheorems.FailedTrainerHasShipped` | verl/verl/checkpoint_engine/nixl_checkpoint_engine.py:389-421 | when it fails, the trainer has offered the buckets of exactly the tensors before the first one that is too large |
| `NixlTheorems.WritesTargetFreeBuffers` | verl/verl/checkpoint_engine/nixl_checkpoint_engine.py:389-421 | no inbound read and no fill targets a buffer that is offered and unacknowledged or being yielded from |
| `NixlTheorems.BuffersInUseAreNotOverwritten` | verl/verl/checkpoint_engine/nixl_checkpoint_engine.py:455-513 | over every step such a buffer keeps all its bytes |
| `NixlLiveness.NoDeadlock` | verl/verl/checkpoint_engine/nixl_checkpoint_engine.py:458-513 | every reachable state has an enabled step unless all ranks have finished |
| `NixlLiveness.RolloutWaitsFor` | verl/verl/checkpoint_engine/nixl_checkpoint_engine.py:458-513 | in every run a rollout rank waits for the next message, its own read or a due acknowledgement, and for nothing else |
| `NixlLiveness.TransfersWaitForNothing` | verl/verl/checkpoint_engine/nixl_checkpoint_engine.py:137-226 | any missing byte of a transfer may be copied next, and then it may complete |
| `NixlLiveness.TrainerWaitsFor` | verl/verl/checkpoint_engine/nixl_checkpoint_engine.py:379-432 | the trainer waits for acknowledgements only, before it ships a bucket and at the end |
| `NixlLiveness.StepDoesWork` | verl/verl/checkpoint_engine/nixl_checkpoint_engine.py:164-226 | every step does exactly one unit of the remaining work over buckets, ranks and bytes |
| `NixlLiveness.RunsAreBounded` | verl/verl/checkpoint_engine/nixl_checkpoint_engine.py:423-513 | no run is longer than a number fixed by the weights, bucket size and ranks |
| `NixlLiveness.EveryMaximalRunDelivers` | verl/verl/checkpoint_engine/nixl_checkpoint_engine.py:365-513 | a run that cannot go on took exactly that many steps, every rank is finished, every readable operation acknowledged, every rollout has all weights |
| `OutputKeys.ParseDecimal` | verl/verl/trainer/main_ppo_sync.py:143-147 | `int` undoes the decimal print |
| `OutputKeys.ParseSigned` | verl/verl/trainer/main_ppo_sync.py:143-147 | one sign in front of the digits is accepted |
| `OutputKeys.ParseIntIff` | verl/verl/trainer/main_ppo_sync.py:143-147 | nothing else is a number |
| `OutputKeys.ParseOutputKey` | verl/verl/trainer/main_ppo_sync.py:143-147 | the right-split parser recovers session and index of a printed key for any uid, also with underscores |
| `OutputKeys.ParseKeyIff` | verl/verl/trainer/main_ppo_sync.py:143-147 | a key fails with the format assertion iff it has no two underscores, with the index error iff what follows the last one is no number, and otherwise gives that number and the rest |
| `OutputKeys.KeyOfOutputTwelve` | verl/verl/trainer/main_ppo_sync.py:411 | a key as it is spelled |
| `OutputKeys.OutputKeyInjective` | verl/verl/trainer/main_ppo_sync.py:411 | output keys are equal iff uid, session and index are; session keys iff uid and session are |
| `OutputKeys.PromptKeysAreNotOutputKeys` | verl/verl/trainer/main_ppo_sync.py:330-348 | a prompt key without underscores is no output key |
| `Advantage.FinalRowIsUnique` | verl/verl/trainer/main_ppo_sync.py:139-155 | a session has one final row |
| `Advantage.FinalSessions` | verl/verl/trainer/main_ppo_sync.py:139-155 | fails iff some key is malformed, at the first one and with its error; otherwise every session seen has one entry, its final row |
| `Advantage.ComputeAdvantage` | verl/verl/trainer/main_ppo_sync.py:139-178 | one row per session is scored, the first with the largest output index, by order of the sessions' appearance, and every row gets its own session's final score under its own mask |
| `Advantage.AdvantageAt` | verl/verl/trainer/main_ppo_sync.py:157-175 | position by position: zero outside of a row's response, inside it what the estimator gave the final row of the row's session at that row's first response token |
| `ReplayBuffer.ReplayBuffer.Add` | verl/verl/trainer/main_ppo_sync.py:197-222 | one partition becomes the old one with all items merged in order; all others stay |
| `ReplayBuffer.MergedIsMerge` | verl/verl/trainer/main_ppo_sync.py:213-222 | as maps this is the merge tag by tag, whatever the order of the items |
| `ReplayBuffer.MergedKeepsOrder` | verl/verl/trainer/main_ppo_sync.py:213-222 | keys that were there keep their places, new ones come after them in the order of the items |
| `ReplayBuffer.UpdatePerTag` | verl/verl/trainer/main_ppo_sync.py:222 | tag by tag, a new value wins and an old one is otherwise kept |
| `ReplayBuffer.ReplayBuffer.Remove` | verl/verl/trainer/main_ppo_sync.py:224-235 | one partition becomes the old one without the given keys, in the old order; all others stay |
| `ReplayBuffer.WithoutIsRemoval` | verl/verl/trainer/main_ppo_sync.py:231-235 | as maps exactly the given keys are gone |
| `ReplayBuffer.WithoutKeepsOrder` | verl/verl/trainer/main_ppo_sync.py:231-235 | the remaining keys keep their order |
| `ReplayBuffer.ReplayBuffer.TrySample` | verl/verl/trainer/main_ppo_sync.py:250-270 | one pass of `sample`: either all success entries of the step with their tags, in the order of the partition, or the first entry that stops the scan decides between waiting and the `KeyError` of a missing tag |
| `ReplayBuffer.Scan` | verl/verl/trainer/main_ppo_sync.py:253-270 | the loop over the partition's items with its early exit: which entry stops it, and what is collected if none does |
| `ReplayBuffer.SuccessesAreSampleKeys` | verl/verl/trainer/main_ppo_sync.py:258-266 | the collected entries are the partition's own, each once, and their keys are exactly those with the step and status `success` |
| `ReplayBuffer.SuccessesKeepOrder` | verl/verl/trainer/main_ppo_sync.py:257-266 | the collected entries are in the order of the partition |
| `ReplayBuffer.StopsAtFirst` | verl/verl/trainer/main_ppo_sync.py:257-264 | the scan stops at the first entry that lacks a step, or is of the step and lacks a status or is running |
| `ReplayBuffer.RunsToEndIffReady` | verl/verl/trainer/main_ppo_sync.py:253-270 | when no tag is missing the scan runs to its end iff no key of the step is running |
| `ReplayProtocol.StepKeepsInv` | verl/verl/trainer/main_ppo_sync.py:197-270 | registering, publishing, finishing, failing, polling, applying a snapshot, sampling, clearing and removing keep the invariant |
| `ReplayProtocol.RunKeepsInv` | verl/verl/trainer/main_ppo_sync.py:330-348 | in every interleaving |
| `ReplayProtocol.SampleNeverFails` | verl/verl/trainer/main_ppo_sync.py:253-266 | the lookups of `sample` never raise |
| `ReplayProtocol.SampleIsExact` | verl/verl/trainer/main_ppo_sync.py:253-270 | when `sample` returns for a step, all prompts of the step are over, every returned key is an output of one of them, and every output of every finished one is returned |
| `ReplayProtocol.NoKeyIsSampledTwice` | verl/verl/trainer/main_ppo_sync.py:1557-1562 | over a whole run no key is in two samples, even if a snapshot from before `kv_clear` is applied after `remove` |
| `ReplayProtocol.PollMakesReady` | verl/verl/trainer/main_ppo_sync.py:253-270 | in every run, whenever the trainer waits and every prompt of the step has finished or failed, one more poll lets `sample` return, also if an older snapshot is still to be merged |
| `ReplayEffects.NobodyElseWaits` | verl/verl/trainer/main_ppo_sync.py:250-270 | sessions publish, prompts end and the poller polls at any time; only the trainer waits, for running keys of its step |
| `ReplayEffects.RegisteredPromptsLast` | verl/verl/trainer/main_ppo_sync.py:472-484 | over a run a registered prompt keeps the step and the sessions it was registered with |
| `ReplayEffects.QueueEntriesLast` | verl/verl/trainer/main_ppo_sync.py:1557-1558 | over a run an entry of the transfer queue stays with its tags until its sample is cleared |
| `ReplayEffects.SnapshotWasTheQueue` | verl/verl/trainer/main_ppo_sync.py:197-208 | what the poller has read is the whole transfer queue of some moment |
| `ReplayEffects.BufferedKeysLast` | verl/verl/trainer/main_ppo_sync.py:224-235 | over a run a key of the buffer stays until its sample is removed |
| `ReplayEffects.OutputsKeepTheirTags` | verl/verl/trainer/main_ppo_sync.py:411-438 | from its publication on every output has, in the queue, in snapshots and in the buffer, exactly the tags it was published with, and is in the queue unless it was sampled |
| `ReplayEffects.SampleIsRecorded` | verl/verl/trainer/main_ppo_sync.py:253-270 | the step that samples hands over exactly what `SampleIsExact` describes |
| `ReplayEffects.SamplesAreConsecutive` | verl/verl/trainer/main_ppo_sync.py:1557-1562 | one sample per training step, of consecutive steps |
| `ReplayEffects.ClearedKeysStayAway` | verl/verl/trainer/main_ppo_sync.py:1557-1562 | from the clearing on no key of the sample is in the transfer queue, and from the removal on none is in the buffer unless a snapshot read before the clearing held it |
| `QkvLayout.FusedGroup` | verl/scripts/converter_hf_to_mcore.py:155-161 | group `g` of the fused weight is the group's query rows, then its key rows, then its value rows |
| `QkvLayout.MergeAcrossTp` | verl/scripts/legacy_model_merger.py:529-557 | the loops over shards and chunks compute the pieces of all chunks of all shards, or the first error |
| `QkvLayout.SplitTensor` | verl/verl/model_merger/megatron_model_merger.py:330-354 | the distributed merger's loop computes the same on one tensor |
| `QkvLayout.ShardedRoundTrip` | verl/scripts/legacy_model_merger.py:529-557 | for all head counts, head sizes and shard counts dividing the key heads: fusing, cutting into equal shards and merging returns q, k and v |
| `QkvLayout.UnshardedAgrees` | verl/verl/model_merger/megatron_model_merger.py:330-354 | the unsharded splitter gives on the concatenated shards what the merger gives on the shards |
| `QkvLayout.MergesIffShardsDivideHeads` | verl/scripts/legacy_model_merger.py:538-549 | for weights with distinct rows the merger restores q, k and v iff the number of equal shards divides the number of key heads |
| `QkvLayout.FuseIsPermutation` | verl/scripts/converter_hf_to_mcore.py:155-161 | the fused weight has the rows of q, k and v, each as often |
| `QkvLayout.ThreeHeadsOnTwoRanks` | verl/scripts/legacy_model_merger.py:529-557 | three key heads of ratio 2 and size 2 on two ranks: every check passes and the result is not q, k and v |
| `QkvLayout.NumberedRowsAreMixedUp` | verl/scripts/legacy_model_merger.py:529-557 | the weight whose row `i` is `i` is merged wrongly |
| `QkvLayout.MergeErrors` | verl/scripts/legacy_model_merger.py:529-549 | for any head counts and shards: which check fails first, and that the split of a chunk fails iff some chunk has not the rows of one group |
| `QkvLayout.MergedTakesApart` | verl/scripts/legacy_model_merger.py:536-557 | for any shards that pass: they consist of query, key and value pieces in turn, and the result is all query, all key and all value pieces, in order |
| `QkvLayout.MergeGateUp` | verl/scripts/legacy_model_merger.py:518-528 | the loop collects both halves of every shard, and fails on a shard that has no two halves |
| `QkvLayout.GateUpRoundTrip` | verl/scripts/legacy_model_merger.py:518-528 | stacking every rank's gate rows on its up rows and merging returns both projections, also if the gate has one row more |
| `QkvLayout.GateUpFailsIff` | verl/scripts/legacy_model_merger.py:518-528 | merging the projections fails iff some shard has a single row |
| `ExpertShards.LocalExperts` | verl/scripts/converter_hf_to_mcore.py:179-192 | a rank copies exactly the experts of its window, in order, as local experts 0, 1, ... |
| `ExpertShards.OwnedIff` | verl/scripts/converter_hf_to_mcore.py:179-185 | an expert belongs to some rank iff it lies in the whole windows, and never to two |
| `ExpertShards.AllExpertsCopiedIff` | verl/scripts/converter_hf_to_mcore.py:179-185 | every expert is copied iff the ranks divide the experts |
| `ExpertShards.ThreeExpertsOnTwoRanks` | verl/scripts/converter_hf_to_mcore.py:179-185 | of 3 experts on 2 ranks the third is copied by neither |
| `PipelineShards.GetDynamicPipelineShards` | verl/verl/model_merger/megatron_model_merger.py:57-98 | the loop and stable sort return the closed form: the rounded-up average in the middle, or the error of the source |
| `PipelineShards.FitsIff` | verl/verl/model_merger/megatron_model_merger.py:82-91 | a middle length `m` is a candidate iff `m * (pp - 2) + 2 <= layers <= m * pp` |
| `PipelineShards.BestHasTheLeastGap` | verl/verl/model_merger/megatron_model_merger.py:93-95 | if any candidate exists the search succeeds with one that has the least first/middle gap and is the smallest |
| `PipelineShards.ShardsAreMostEven` | verl/verl/model_merger/megatron_model_merger.py:57-98 | the search returns exactly the division whose end stages are alike but for an odd layer at the last one, whose middle stages are alike and no shorter, and which differs least between the second and the first stage |
| `PipelineShards.ShardsFailIff` | verl/verl/model_merger/megatron_model_merger.py:67-95 | it fails iff there are fewer layers than stages, no stages, or no such division |
| `PipelineShards.ShardsAreAsFlatAsPossible` | verl/verl/model_merger/megatron_model_merger.py:57-98 | a returned plan uses every layer, leaves no stage empty, and its longest stage is as short as in any division of the layers |
| `PipelineShards.FiveLayersOnFourStages` | verl/verl/model_merger/megatron_model_merger.py:82-95 | 5 layers on 4 stages: no middle length is acceptable and the search raises |
| `PipelineShards.FewLayersHavePlans` | verl/verl/model_merger/megatron_model_merger.py:57-98 | every other number of up to 5 layers has a plan on any number of stages up to the layers |
| `PipelineShards.OffsetsPartitionTheLayers` | verl/verl/model_merger/megatron_model_merger.py:358-363 | the cumulative offsets give every layer below the total to exactly one rank, and no other number to any |
| `PipelineShards.RanksTakeLayersInOrder` | verl/verl/model_merger/megatron_model_merger.py:358-363 | a later rank holds later layers, and the first one begins at layer 0 |
| `LayerRenumbering.MergeStateDicts` | verl/scripts/legacy_model_merger.py:608-658 | the nested loops merge all stages with running offsets, virtual rank by virtual rank |
| `LayerRenumbering.VisitOrderAt` | verl/scripts/legacy_model_merger.py:615-616 | virtual stage `v` of rank `p` is visited as number `v * pp_size + p` |
| `LayerRenumbering.NumbersDoNotCollide` | verl/scripts/legacy_model_merger.py:629-636 | no two layers of any stages get the same global number |
| `LayerRenumbering.ContiguousIffEmptyStagesLast` | verl/scripts/legacy_model_merger.py:629-656 | the global numbers are exactly 0 .. total-1 iff no stage without layers precedes one with layers |
| `LayerRenumbering.EmptyStageShiftsTheNext` | verl/scripts/legacy_model_merger.py:617-656 | a first stage without layers makes layer 0 of the second one layer 1 of the model |
| `LayerRenumbering.NothingIsLost` | verl/scripts/legacy_model_merger.py:612-658 | the merged dict holds every parameter under its global name with its own tensor, and nothing else |
| `LayerRenumbering.LastTensorWins` | verl/scripts/legacy_model_merger.py:612-658 | also when names are written twice, a name holds the tensor that was merged last under it |
| `ZoomBox.MaybeResizeBbox` | verl/verl/tools/image_zoom_in_tool.py:205-297 | two scale-downs, four shifts and outward rounding compute one closed form: the least of three factors, the nearest place inside the image |
| `ZoomBox.ReturnedBoxIsSound` | verl/verl/tools/image_zoom_in_tool.py:181-297 | a returned box lies in the image, has sides of at least 28, aspect at most 100, and covers the whole clamped request |
| `ZoomBox.LargeBoxIsKept` | verl/verl/tools/image_zoom_in_tool.py:219-233 | a request whose clamped box has sides of at least 28 and an aspect of at most 100 is returned as clamped |
| `ZoomBox.ImproperIsRefused` | verl/verl/tools/image_zoom_in_tool.py:219-228 | a request of which no proper box of aspect at most 100 remains in the image is refused |
| `ZoomBox.ClampIsTheIntersection` | verl/verl/tools/image_zoom_in_tool.py:219-224 | clamping keeps what lies both in the request and in the image |
| `ZoomBox.EnlargedSize` | verl/verl/tools/image_zoom_in_tool.py:242-257 | a small box grows until its shorter side is exactly 28 if the image has room, otherwise until one side is the image's, which leaves the shorter side below 28 |
| `ZoomBox.EnlargedPlace` | verl/verl/tools/image_zoom_in_tool.py:259-274 | on each axis the enlarged box is centred on the request unless it would leave the image there; then it ends at that border |
| `ZoomBox.SmallBoxIsRounded` | verl/verl/tools/image_zoom_in_tool.py:276-297 | a small request is returned as the least whole box around the enlarged one iff that has sides of at least 28 and an aspect of at most 100 |
| `ZoomBox.SmallBoxIsEnlarged` | verl/verl/tools/image_zoom_in_tool.py:233-297 | a small valid request that the image has room for, with aspect at most 100 - 1/28, is returned |
| `ZoomBox.AwkwardIsRefused` | verl/verl/tools/image_zoom_in_tool.py:276-283 | for every aspect above 100 - 1/28 and up to 100 there is a place in a 10000 x 10000 image at which such a request is refused |
| `ZoomBox.SafeAspectIsSharp` | verl/verl/tools/image_zoom_in_tool.py:233-297 | every request of an aspect that the image has room for is returned, at every place in every image, iff the aspect is at most 100 - 1/28 |
| `ZoomBox.LongEnoughIsReturned` | verl/verl/tools/image_zoom_in_tool.py:233-297 | any small valid request, whether or not the image has room, is returned if its enlarged sides are above 27 and at most 2799 |
| `ZoomBox.TooShortIsRefused` | verl/verl/tools/image_zoom_in_tool.py:281-295 | it is refused if the enlarged short side is at most 26 |
| `ZoomBox.InBetweenReturned` | verl/verl/tools/image_zoom_in_tool.py:276-295 | a request whose enlarged short side is 26.5 and that is returned |
| `ZoomBox.InBetweenRefused` | verl/verl/tools/image_zoom_in_tool.py:276-295 | the same request a quarter of a pixel further on is refused |
| `ZoomBox.EnlargingKeepsTheAspect` | verl/verl/tools/image_zoom_in_tool.py:243-274 | the enlarged box, before rounding, is the clamped request with both sides grown by one factor of at least 1 |
| `MoeLayout.AllKeysDiffer` | verl/scripts/veomni/moe_merge.py:95-110 | stacked keys and expert keys of all layers, experts and projections are pairwise different strings |
| `MoeLayout.KeysAreSpelled` | verl/scripts/veomni/moe_merge.py:95-110 | how stacked and expert keys are spelled |
| `MoeLayout.ProjectionNames` | verl/scripts/veomni/moe_merge.py:95-110 | the three projections and their order |
| `MoeLayout.Merge` | verl/scripts/veomni/moe_merge.py:95-110 | succeeds iff every expert weight is there and each projection's weights have one shape; then exactly those keys are replaced by the stacks |
| `MoeLayout.Split` | verl/scripts/veomni/moe_split.py:73-83 | succeeds iff every stack that is there has enough slices; then exactly those keys are replaced by the slices |
| `MoeLayout.MergedCanBeSplit` | verl/scripts/veomni/moe_split.py:73-83 | splitting a merged dict succeeds iff the stacked weights that the original holds for layers of the dense prefix have enough slices; without such weights it always does |
| `MoeLayout.SplitUndoesMerge` | verl/scripts/veomni/moe_split.py:73-83 | splitting a merged dict returns the original, for all layer, expert and dense-prefix counts, iff the original held no stacked weight |
| `MoeLayout.StackedKeyIsNotRestored` | verl/scripts/veomni/moe_split.py:75-83 | a stacked weight in a dense layer comes back as expert weights |
| `MoeLayout.StackedKeyCanFailTheSplit` | verl/scripts/veomni/moe_split.py:75-83 | a stacked weight without slices in a dense layer makes the split raise |
| `MoeLayout.MergeUndoesSplit` | verl/scripts/veomni/moe_merge.py:95-110 | merging a split dict returns the stacked dict |
| `MoeLayout.ExpertCountsAgreeIff` | verl/scripts/veomni/moe_merge.py:78-86 | the scripts read the same number of experts iff the configuration has `num_experts`; with `n_routed_experts` alone only the merging script has one |
| `GreedyShards.GetNamedTensorBuckets` | verl/verl/checkpoint_engine/kimi_checkpoint_engine.py:37-63 | the generator yields the greedy shards of the rank's tensors, or raises |
| `GreedyShards.MakeShards` | verl/scripts/merge_with_visual.py:106-123 | the saver's loop makes the greedy shards |
| `GreedyShards.ShardsAreSound` | verl/scripts/merge_with_visual.py:106-123 | order and content are kept, no shard is empty, each is within the limit or a single tensor, two adjacent ones exceed the limit together |
| `GreedyShards.FewShards` | verl/verl/checkpoint_engine/kimi_checkpoint_engine.py:47-63 | there are at most `2 * total / limit + 1` shards |
| `GreedyShards.GreedyIsOptimal` | verl/scripts/merge_with_visual.py:106-123 | no order-preserving division into acceptable shards has fewer of them |
| `GreedyShards.EveryTensorHasARank` | verl/verl/checkpoint_engine/kimi_checkpoint_engine.py:49-51 | tensor `i` is number `i / world_size` of rank `i % world_size` |
| `GreedyShards.NothingForOthers` | verl/verl/checkpoint_engine/kimi_checkpoint_engine.py:49-51 | a rank outside of the group has no tensors |
| `GreedyShards.DistinctNamesKeepContents` | verl/verl/checkpoint_engine/kimi_checkpoint_engine.py:47-63 | with distinct names the yielded dicts hold exactly the rank's tensors, in order |
| `GreedyShards.EveryTensorInOneBucket` | verl/verl/checkpoint_engine/kimi_checkpoint_engine.py:47-63 | over all ranks every tensor is in exactly one bucket |
| `GreedyShards.FileNamesDiffer` | verl/scripts/merge_with_visual.py:138 | different shards have different file names |
| `GreedyShards.FileNameIsSpelled` | verl/scripts/merge_with_visual.py:138 | a single file is `model.safetensors`, several carry their number, from one on, and their count, in at least five digits |
| `GreedyShards.BuildIndex` | verl/scripts/merge_with_visual.py:125-142 | the weight map sends exactly the saved keys to the files that hold them, and the total size is that of all tensors |
| `DataRows.ConcatProtos` | verl/verl/protocol.py:916-961 | the loop joins columns and merges the meta, or finds the first conflict |
| `DataMeta.JoinedMeta` | verl/verl/protocol.py:934-957 | for parts with any meta: joining fails iff two parts give one key different values; otherwise the result has the keys of all parts, each once, with the parts' values, by order of first occurrence |
| `DataRows.PadToDivisor` | verl/verl/protocol.py:74-99 | pads to a multiple of the divisor with fewer rows than the divisor, row `i` a copy of row `i mod n` in every column |
| `DataRows.PaddingIsLeast` | verl/verl/protocol.py:85-86 | no shorter multiple of the divisor holds the rows |
| `DataRows.UnpadRestores` | verl/verl/protocol.py:102-106 | unpadding a padded batch returns the batch |
| `DataRows.UnpadDrops` | verl/verl/protocol.py:102-106 | unpadding any batch drops that many rows from the end, or all |
| `DataRows.JoinRestoresParts` | verl/verl/protocol.py:916-961 | wherever a batch is cut, joining the parts restores it, all columns and the meta |
| `DataRows.ChunkProto` | verl/verl/protocol.py:864-903 | without padding succeeds iff the rows divide equally, with padding unless fewer chunks already hold all tensor rows, or a tensor dict without rows falls into too few pieces, or too many for its other columns; the parts join to the batch, are cut at the same rows in all columns, and have the rounded-up size while there are rows, or without tensors the rounded-down size and one row more for the first ones |
| `DataRows.FiveRowsInFourChunks` | verl/verl/protocol.py:879-897 | five rows in four chunks: every tensor falls into three pieces, and chunking fails |
| `DataRows.JoinRestoresSplit` | verl/verl/protocol.py:905-914 | joining a split of any size restores the batch |
| `DataRows.SplitPartsAreFull` | verl/verl/protocol.py:905-914 | all parts but the last have the full size |
| `DataRows.RepeatTraced` | verl/verl/protocol.py:971-1013 | interleaved row `i` comes from row `i / k`, tiled row `i` from row `i mod n`: expanding and reshaping tensors agrees with `np.repeat` and `np.tile` on the other columns |
| `DataRows.SampleLevelRepeatTraced` | verl/verl/protocol.py:1054-1100 | succeeds iff there is a count for every row, or a single count that is zero or meets no tensor dict; index selection on tensors and `np.repeat` on the other columns take the same source rows |
| `DataRows.NoColumnsRepeated` | verl/verl/protocol.py:1076-1090 | a batch without columns only gets the sum of the counts as its size |
| `DataRows.ByCountsIsInterval` | verl/verl/protocol.py:1054-1100 | row `i` comes from the row whose prefix-sum interval holds `i` |
| `DataRows.ConstantCounts` | verl/verl/protocol.py:1054-1100 | with the same count for every row this is the interleaved repeat |
| `DataRows.UnfoldSucceedsIff` | verl/verl/protocol.py:1024-1046 | unfolding succeeds iff the width of every split key is a multiple of the number of splits |
| `DataRows.UnfoldedRows` | verl/verl/protocol.py:1015-1052 | row `i * n + s` of a split key is column block `s` of row `i`, of any other key row `i`; the batch size is multiplied and the meta kept |
| `DataRows.UnfoldWithoutKeys` | verl/verl/protocol.py:1024-1046 | without split keys it raises iff there is a non-tensor column, else it is the interleaved repeat |
| `DataRows.OneNonTensorColumnFails` | verl/verl/protocol.py:1039-1041 | a single non-tensor column makes the call without split keys raise |
| `PipelineOrder.OrderPartitions` | verl/verl/trainer/sft_trainer_ray.py:319-323 | the loop replaces every partition by its two-ended order |
| `PipelineOrder.OrderedIsPermutation` | verl/verl/trainer/sft_trainer_ray.py:320-323 | the order is a permutation of the partition |
| `PipelineOrder.OrderIgnoresInputOrder` | verl/verl/trainer/sft_trainer_ray.py:321 | it depends only on which indices the partition has, also with equal workloads |
| `PipelineOrder.RisesThenFalls` | verl/verl/trainer/sft_trainer_ray.py:320-323 | workloads rise to the middle position and fall after it |
| `PipelineOrder.EndsInwards` | verl/verl/trainer/sft_trainer_ray.py:320-323 | the two sequences of least work stand at the two ends, the least in front, and so on inwards; the smaller index counts as less work on a tie |
| `PipelineOrder.GlobalOrderIsPermutation` | verl/verl/trainer/sft_trainer_ray.py:325 | the batch index list still names every sequence as often as before |

## Left out

- NixlChain: ranks and buffers are values of a state machine, not objects, because every rank runs at once; update in place within one rank is then a write to that rank's value. Rank -1 trainer workers, which only drain the weight iterator, have no state.
- NixlChain: `get_notification` rebinds its parameter in the loop (nixl_checkpoint_engine.py:128-134); only the next rank ever notifies a rank, so the rebinding is not modelled.
- NcclEngine.BroadcastOperation.constructor: every byte of the bucket is read at the launch or at the wait. Between the two the loops of this model write to the other buffer only, and `WaitForComplete` requires the bucket to be as it was.
- Packing: alignment of typed views at byte offsets; a tensor's shape and dtype only give its byte count.
- OutputKeys.ParseDecimal: `int` also accepts surrounding whitespace, underscores and non-ASCII digits; the parser model accepts ASCII digits with an optional sign.
- ReplayBuffer: the waiting loop of `sample` is one pass that a caller repeats, for a given step (the source refuses a batch size together with a step); the tag dicts it returns are values, not references to those of the buffer. `ReplayProtocol` refers to partitions as maps.
- ReplayProtocol: the validation partition, and padding keys added to a batch. Sessions of a failed prompt may still publish; completeness is claimed for finished prompts only. A worker's list-valued outputs raise before their put as the code stands (main_ppo_sync.py:384); the model allows any number of outputs per session.
- Advantage: estimators other than the GRPO branch, and the arithmetic of the estimator.
- QkvLayout: model weights of more than one column are rows; biases are the case of rows of one cell.
- LayerRenumbering.MergeStateDicts: the merging of one parameter across tensor ranks is `QkvLayout`'s; a parameter that is split into q, k and v or gate and up counts as several parameters of one layer.
- LayerRenumbering: names are a layer number with a suffix, or no number; the string surgery on dotted names and the name mapping tables are not modelled.
- PipelineShards: the sort is modelled by its first element, the earliest entry with the least key.
- ZoomBox: rounding of floating-point numbers, and inputs that are not numbers.
- MoeLayout: reading and writing of safetensors files; the kind of error when several apply is not fixed.
- GreedyShards: dtype conversion before the size is taken; the sorting of the keys; writing of the files.
- DataRows.ConcatProtos: batches with different columns, and metrics in the meta, which the source regroups.
- DataRows.UnfoldedRows: columns of one dimension in the split keys, and no splits at all; a column is a sequence of rows, so every split key has a width.
- PipelineOrder: the balanced partitioning that precedes the order and the workload estimate.
- `mooncake_checkpoint_engine.py` and `hccl_checkpoint_engine.py`: the first signals completion inside the payload, the second packs as NCCL does but synchronously.
- Kimi's parameter server, `receive_tensor` and its helpers: their meaning lies in a library that is not part of this model.
- Ray, ZeroMQ, NCCL, NIXL and CUDA bindings, logging and timing.
- Graders, reward parsing, HTML and terminal viewers, data preprocessing: input, output and simple bounds.
