# Verified model of the weight transfer, offloading, reward and layout code

Dafny models of the parts of this repository whose correctness does not show in any one
function: weight transfer between trainers and rollout workers, activation offloading, the
grouped reward managers, and the rewriting of checkpoints. The proofs are about the models;
the rows below say which lines each member follows. Check everything with
`dafny verify dfyconfig.toml`.

| files | what they model |
|---|---|
| `Packing` | greedy packing of weights into buckets, with dict metadata; shared by the transfers |
| `NixlChain`, `NixlSafety`, `NixlProgress`, `NixlSetup` | the NIXL pipeline as a step system over a chain of any length, its safety, delivery and progress, and how it is set up |
| `Nccl` | the NCCL broadcast: both loops over two arrays, broadcasts in two phases |
| `Kimi`, `KimiReceive` | Kimi's per-rank buckets and its double-buffered receive loop |
| `OffloadWindows`, `OffloadSpec`, `Offload`, `OffloadStep` | the asynchronous activation offload handler and whole training steps |
| `GroupMachine`, `WholeGroups`, `StudentReward`, `TeacherReward`, `Vote` | grouping of reward requests on an event loop, majority vote, Teacher reward |
| `RowBlocks`, `QkvLayout`, `TensorMerge`, `TensorParallel` | fused tensor layouts, splitting and merging over tensor-parallel ranks |
| `PipelineShards`, `LayerNumbering` | layers per pipeline rank, layer and file numbers |
| `BBox`, `WeaknessMemory`, `DataRows`, `ShardedLoad`, `MoeStacking` | zoom boxes, the weakness memory, batch rows, parallel loading, expert stacking |
| `Sequences`, `Arithmetic`, `Wrappers` | Python lists, products and quotients, `Option` and `Result` |

Concurrency is modelled as steps taken in any order. In the NIXL chain a read copies any
number of bytes at a time, so that it overlaps with every step of every rank. A broadcast of
the NCCL or Kimi transfer may read or write its array at any time between start and wait.
Event-loop callbacks of the reward managers run in any order, and the Teacher's wait for the
evaluator lies between its finalisation and its results. The clock, the transports, the
evaluator's answer and `SequenceMatcher` are parameters.

Where the code does something that its documentation or a caller may not expect, exactly that
is proved:

- a bucket that receives one name twice loses an entry (`Packing.UnpackedIff`);
- `get_notification` returns a notification of whichever agent it polled last
  (`NixlSetup.NotificationRightIffOnlyPeer`); in the chain only one agent notifies;
- the NIXL topology is not usable for a single rollout rank (`NixlSetup.TopologyIff`);
- with as many offload groups as layers only group 0 is offloaded, although the comment allows
  that number (`OffloadSpec.ActuallyOffloaded`);
- a receive with an empty plan fails on an unassigned variable (`KimiReceive.ReceiveTensor`);
- a timer may split any group of two or more that is voted on (`WholeGroups.SplitIff`); a group
  stays whole exactly when no finalisation of it runs before its last request
  (`WholeGroups.OneBatchIff`);
- a negative penalty weight is not refused, and with a tolerance below 1 it lets a reward exceed 1
  (`TeacherReward.RewardBoundedIff`, `TeacherReward.CopiedReply`);
- the legacy merger fails or silently misplaces rows when the ranks do not divide the key/value
  heads (`TensorParallel.MergeIff`), and misnumbers layers behind an empty stage
  (`LayerNumbering.RunningOffsetIff`);
- the shard search ends in an index error for some sizes its checks let through
  (`PipelineShards.DynamicShards`);
- a zoom request within the aspect bound can be refused after rounding
  (`BBox.RefusedAtTheBound`), unless its enlarged longer side is at most 2799
  (`BBox.NeverRefusedIff`).

## Model

| member | source | states |
|---|---|---|
| NixlProgress.RunEnds | verl/verl/checkpoint_engine/nixl_checkpoint_engine.py:365-513 | a run that can go no further has ended properly, every rank done, exactly when every weight fits in a bucket; then each rollout rank has yielded the sender's (name, bytes) sequence in order exactly when no bucket holds a name twice |
| NixlSafety.ExposedUnwritten | verl/verl/checkpoint_engine/nixl_checkpoint_engine.py:380-431 | in every reachable state of a chain of any length, under any interleaving, no step changes a buffer that is offered to, or being read by, the successor |
| NixlSafety.Delivery | verl/verl/checkpoint_engine/nixl_checkpoint_engine.py:435-513 | at any moment what a rank has yielded is a prefix of the buckets' contents, and when it is done it is all of them |
| NixlSafety.NotifyKeyMatches | verl/verl/checkpoint_engine/nixl_checkpoint_engine.py:164-167 | per link at most one message, read or notification is outstanding, and a notification that has arrived carries the key of the operation waited for, so the assertion holds |
| NixlSafety.AwaitedKey | verl/verl/checkpoint_engine/nixl_checkpoint_engine.py:164-167 | waiting consumes the only notification, and the successor has then finished its read |
| NixlSafety.StepKeepsInv | verl/verl/checkpoint_engine/nixl_checkpoint_engine.py:380-513 | every step of the sender or of any receiver keeps the whole-chain invariant |
| NixlSafety.RunInv | verl/verl/checkpoint_engine/nixl_checkpoint_engine.py:380-513 | the invariant holds in every state of every run |
| NixlSafety.ReadHeld | verl/verl/checkpoint_engine/nixl_checkpoint_engine.py:474-479 | reading an entry of the bucket metadata from a buffer that holds the bucket gives that entry's tensor |
| NixlProgress.NoDeadlock | verl/verl/checkpoint_engine/nixl_checkpoint_engine.py:458-513 | if every weight fits, each reachable state that is not final has an enabled step |
| NixlProgress.StepRank | verl/verl/checkpoint_engine/nixl_checkpoint_engine.py:458-513 | every enabled step lowers a measure |
| NixlProgress.RunLength | verl/verl/checkpoint_engine/nixl_checkpoint_engine.py:365-513 | a run of j steps has used up j of the initial measure, which never gets negative, so every run ends |
| NixlProgress.RunBound | verl/verl/checkpoint_engine/nixl_checkpoint_engine.py:365-513 | the initial measure, and with it the longest run, in closed form |
| NixlSetup.TopologyIff | verl/verl/checkpoint_engine/nixl_checkpoint_engine.py:283-325 | the arguments computed for the workers are accepted and form one chain with matching neighbours exactly for two or more rollout ranks; for one, a slice returns the whole list and the argument lists have different lengths |
| NixlSetup.RolloutEntry | verl/verl/checkpoint_engine/nixl_checkpoint_engine.py:292-298 | rollout i has rank i + 1, reads from agent i of the chain and serves agent i + 2, the last one none |
| NixlSetup.TrainerEntries | verl/verl/checkpoint_engine/nixl_checkpoint_engine.py:284-290 | trainer 0 starts the chain, the other trainers have rank -1 and no neighbours, all know the chain's length, and all pass the assertions of initialisation |
| NixlSetup.InitOkIff | verl/verl/checkpoint_engine/nixl_checkpoint_engine.py:311-325 | the assertions ask of a member of the chain for a neighbour on each side where the chain goes on and for none elsewhere |
| NixlSetup.NixlAgent.ReadMessage | verl/verl/checkpoint_engine/nixl_checkpoint_engine.py:122-126 | returns the oldest unread message of that agent and keeps all others in order |
| NixlSetup.NixlAgent.GetNotification | verl/verl/checkpoint_engine/nixl_checkpoint_engine.py:128-134 | waits until the agent polled last has a notification and returns that one: the loop variable shadows the argument |
| NixlSetup.NotificationRightIffOnlyPeer | verl/verl/checkpoint_engine/nixl_checkpoint_engine.py:128-134 | the notification is from the agent asked for, whatever arrives, exactly when one of that agent's is already queued or no other agent ever notifies |
| NixlSetup.WrongPeer | verl/verl/checkpoint_engine/nixl_checkpoint_engine.py:128-134 | one notification from another agent suffices to get the wrong one |
| NixlSetup.AwaitTakesOldest | verl/verl/checkpoint_engine/nixl_checkpoint_engine.py:128-134 | the notification returned is the oldest of its queue, of all polled by then, and exactly that one is gone |
| Packing.DeliveredIff | verl/verl/checkpoint_engine/nixl_checkpoint_engine.py:384-421 | the buckets together carry the weights exactly when no bucket holds a name twice |
| Packing.UnpackedIff | verl/verl/checkpoint_engine/nixl_checkpoint_engine.py:414-421 | what a bucket's metadata and bytes give back is what was packed exactly when its names are distinct: the metadata is a dict |
| Packing.DistinctSuffices | verl/verl/checkpoint_engine/nixl_checkpoint_engine.py:384-421 | distinct names in the whole stream are enough |
| Packing.DuplicateLosesEntry | verl/verl/checkpoint_engine/nixl_checkpoint_engine.py:414-419 | a repeated name leaves fewer entries than weights |
| Packing.LastWins | verl/verl/checkpoint_engine/nixl_checkpoint_engine.py:414-419 | of a repeated name the metadata has the last weight's entry |
| Packing.PutReplaces | verl/verl/checkpoint_engine/nixl_checkpoint_engine.py:414-419 | which replaces the earlier one in its place |
| Packing.MetasInBounds | verl/verl/checkpoint_engine/nixl_checkpoint_engine.py:410-421 | every entry lies inside the filled part of the bucket |
| Packing.MetasDistinct | verl/verl/checkpoint_engine/nixl_checkpoint_engine.py:414-421 | with distinct names the entries follow each other without gap or overlap |
| Packing.PackFlat | verl/verl/checkpoint_engine/nixl_checkpoint_engine.py:387-421 | cutting into buckets loses and reorders nothing |
| Packing.PackFits | verl/verl/checkpoint_engine/nixl_checkpoint_engine.py:389-412 | if every weight fits in a bucket, every bucket does |
| Packing.PackGreedy | verl/verl/checkpoint_engine/nixl_checkpoint_engine.py:389 | a bucket is closed only when the next weight would overflow it |
| Packing.PackMonotone | verl/verl/checkpoint_engine/nixl_checkpoint_engine.py:387-421 | closed buckets never change, and the open one only grows |
| Packing.PackFlushed | verl/verl/checkpoint_engine/nixl_checkpoint_engine.py:389-408 | the bucket that is flushed is the next of the final list, and not its last |
| Packing.WriteImage | verl/verl/checkpoint_engine/nixl_checkpoint_engine.py:414-421 | writing a weight at the running offset extends the bucket's bytes and metadata by it |
| Nccl.NcclSender.SendWeights | verl/verl/checkpoint_engine/nccl_checkpoint_engine.py:233-293 | succeeds exactly when every weight fits, else names the first that does not; each bucket is broadcast once, in order, only the final one marked last, and weights are copied while a broadcast is under way but never into its array |
| Nccl.NcclReceiver.ReceiveWeights | verl/verl/checkpoint_engine/nccl_checkpoint_engine.py:303-355 | takes part in the broadcasts up to the first marked last and yields their tensors in order, never from the array being received into; without a last one it waits forever |
| Nccl.EndToEnd | verl/verl/checkpoint_engine/nccl_checkpoint_engine.py:224-355 | sender and receivers take part in equally many broadcasts, and the receiver yields the sender's weights exactly when no bucket holds a name twice |
| Nccl.Transfer | verl/verl/checkpoint_engine/nccl_checkpoint_engine.py:224-355 | sender and receiver put together on their arrays: the receiver takes part in as many broadcasts as the sender, one for each bucket, and ends up with the sender's weights exactly when no bucket holds a name twice |
| Nccl.NcclSender.AwaitPrevious | verl/verl/checkpoint_engine/nccl_checkpoint_engine.py:252-253 | after the wait all finished buckets have been broadcast, with the bytes they had when their broadcast started |
| Nccl.NcclReceiver.YieldBucket | verl/verl/checkpoint_engine/nccl_checkpoint_engine.py:334-339 | yields the tensors of a bucket, from an array that is not in flight |
| Nccl.NcclReceiver.Begin | verl/verl/checkpoint_engine/nccl_checkpoint_engine.py:325-332 | from the start of a broadcast to the wait the array is arbitrary |
| Nccl.NcclSender.CopyIn | verl/verl/checkpoint_engine/nccl_checkpoint_engine.py:277 | a weight is copied to its offset, and never into the array that is being broadcast |
| Kimi.GetNamedTensorBuckets | verl/verl/checkpoint_engine/kimi_checkpoint_engine.py:37-63 | a rank's buckets are the greedy groups of its share of the stream, each as a dict: every bucket fits or is a single tensor, and together they are the share exactly when no group has a name twice; a non-positive limit is refused |
| Kimi.ShareAt | verl/verl/checkpoint_engine/kimi_checkpoint_engine.py:49-51 | a rank's share is the positions rank, rank + world, ...: the shares partition the stream |
| Kimi.GroupsOk | verl/verl/checkpoint_engine/kimi_checkpoint_engine.py:51-63 | grouping keeps all tensors in order; a group fits or holds one tensor |
| Kimi.DictsIff | verl/verl/checkpoint_engine/kimi_checkpoint_engine.py:59 | the dicts hold all tensors of the groups exactly when no group has a name twice |
| Kimi.DistinctShare | verl/verl/checkpoint_engine/kimi_checkpoint_engine.py:49-63 | distinct names in the stream give distinct names in every group |
| Kimi.LastTensorWins | verl/verl/checkpoint_engine/kimi_checkpoint_engine.py:59 | of a repeated name the dict has the last tensor |
| KimiReceive.ReceiveTensor | verl/verl/checkpoint_engine/kimi_checkpoint_engine.py:104-166 | yields the items of every planned bucket once, in the order of the broadcasts, for any plan; with an empty plan it fails on the unassigned metadata |
| KimiReceive.OrderExactlyOnce | verl/verl/checkpoint_engine/kimi_checkpoint_engine.py:114-125 | the double loop broadcasts every bucket of every rank exactly once |
| KimiReceive.OrderRoundRobin | verl/verl/checkpoint_engine/kimi_checkpoint_engine.py:114-125 | bucket i of any rank is broadcast before bucket j of any rank for i < j, and in a round the ranks keep the order of their first appearance |
| KimiReceive.ReceiveRound | verl/verl/checkpoint_engine/kimi_checkpoint_engine.py:114-155 | one round keeps the pipeline: all but the newest bucket have been yielded, and the newest is held in its half of the buffer |
| KimiReceive.BroadcastOne | verl/verl/checkpoint_engine/kimi_checkpoint_engine.py:124-155 | one bucket: the previous one is yielded while the new one arrives in the other half |
| KimiReceive.YieldNewest | verl/verl/checkpoint_engine/kimi_checkpoint_engine.py:143-152 | what is yielded then is read from the half that is not being overwritten |
| KimiReceive.OtherHalf | verl/verl/checkpoint_engine/kimi_checkpoint_engine.py:126-127 | writing one half leaves the bucket in the other half as it was |
| KimiReceive.NamedReads | verl/verl/checkpoint_engine/kimi_checkpoint_engine.py:143-152 | the items of a bucket, at consecutive offsets, are read back as they were packed |
| KimiReceive.Plan | verl/verl/checkpoint_engine/kimi_checkpoint_engine.py:98-110 | the buckets grouped by receiving rank, in order, and the longest list's length |
| KimiReceive.NoneIffEmpty | verl/verl/checkpoint_engine/kimi_checkpoint_engine.py:111-157 | there is nothing to broadcast exactly when the plan is empty |
| OffloadStep.TrainingStep | verl/verl/utils/activation_offload.py:263-395 | one forward and one backward pass: every pop returns what was pushed, no assertion or lookup fails, and maps and counters are as at the start |
| OffloadStep.ForwardPass | verl/verl/utils/activation_offload.py:263-352 | all pushes and commits of a forward pass succeed, and every tag stands for its tensor |
| OffloadStep.BackwardPass | verl/verl/utils/activation_offload.py:285-395 | all commits and pops of a backward pass succeed, each pop returns its tensor, and nothing is left |
| OffloadStep.ForwardLayer | verl/verl/utils/activation_offload.py:263-352 | one layer of forward: every push has its own tag, and after each push and the commit at most two groups are on the device in the configuration that is used |
| OffloadStep.BackwardLayer | verl/verl/utils/activation_offload.py:285-395 | one layer of backward: everything saved comes back, and with the layers above popped at most two groups are on the device |
| OffloadStep.PopLayer | verl/verl/utils/activation_offload.py:285-296 | the pops of a layer, in any order, return its tensors and remove its tags; the bound of two groups holds after each |
| Offload.AsyncOffloadHandler.TensorPush | verl/verl/utils/activation_offload.py:263-283 | a fresh tag for a tensor to offload, the tensor itself otherwise |
| Offload.AsyncOffloadHandler.TensorPop | verl/verl/utils/activation_offload.py:285-296 | the tag's tensor, on the device again, with the contents that were pushed |
| Offload.AsyncOffloadHandler.BulkOffloadGroup | verl/verl/utils/activation_offload.py:298-317 | every tag of the group now refers to a host copy, one per storage key |
| Offload.AsyncOffloadHandler.BulkReloadGroup | verl/verl/utils/activation_offload.py:355-371 | every tag of the group is on the device again and the host copies are gone |
| Offload.AsyncOffloadHandler.FreeBuffers | verl/verl/utils/activation_offload.py:336-338 | the group's references are dropped, those of other groups kept |
| Offload.AsyncOffloadHandler.KickstartOffload | verl/verl/utils/activation_offload.py:324-326 | group 0 is offloaded at its own commit |
| Offload.AsyncOffloadHandler.AdvanceWindow | verl/verl/utils/activation_offload.py:336-345 | a finished group is freed and the next one offloaded, except after the last |
| Offload.AsyncOffloadHandler.OnGroupCommitForward | verl/verl/utils/activation_offload.py:347-352 | the window map is always defined where it is looked up, and the commit keeps the forward invariant |
| Offload.AsyncOffloadHandler.OnGroupCommitBackward | verl/verl/utils/activation_offload.py:373-395 | the group to reload is there when its window comes, and the commit keeps the backward invariant |
| OffloadSpec.PushKeeps | verl/verl/utils/activation_offload.py:271-280 | a push keeps the forward invariant, and its tag was not in use |
| OffloadSpec.CommitForwardKeeps | verl/verl/utils/activation_offload.py:319-352 | a commit keeps the forward invariant |
| OffloadSpec.TurnKeeps | verl/verl/utils/activation_offload.py:347-395 | the end of forward is a valid start of backward |
| OffloadSpec.CommitBackwardKeeps | verl/verl/utils/activation_offload.py:373-395 | a backward commit keeps the backward invariant, and the group it reloads has host copies |
| OffloadSpec.PopKeeps | verl/verl/utils/activation_offload.py:285-296 | a tag of the current or a later group is on the device, and popping keeps the invariant |
| OffloadSpec.EndIsInitial | verl/verl/utils/activation_offload.py:392-395 | after the last pop the state is the initial one |
| OffloadSpec.TwoResidentGroups | verl/verl/utils/activation_offload.py:500-543 | in the configuration that is used, at most two groups are on the device: throughout the forward pass, and in the backward pass when the layers above have been popped |
| OffloadSpec.ActuallyOffloaded | verl/verl/utils/activation_offload.py:319-345 | at the end of forward a group below the limit is offloaded exactly when it is group 0 or there are fewer groups than layers |
| OffloadSpec.SharedCopyIff | verl/verl/utils/activation_offload.py:303-317 | one host copy per key restores every tensor of a group exactly when equal keys mean equal contents |
| OffloadWindows.BuildWindowMap | verl/verl/utils/activation_offload.py:245-257 | the loop computes the closed form of the window map |
| OffloadWindows.WindowsIncreaseIff | verl/verl/utils/activation_offload.py:248-257 | the windows increase strictly exactly when there are at most as many groups as layers |
| OffloadWindows.WindowsIncrease | verl/verl/utils/activation_offload.py:248-257 | with at least as many layers as groups every later window is larger |
| OffloadWindows.LastWindow | verl/verl/utils/activation_offload.py:248-257 | the last window is the last layer |
| OffloadWindows.WindowAfterGroup | verl/verl/utils/activation_offload.py:248-257 | no window closes before its own group, and with fewer groups than layers only after it |
| OffloadWindows.UsedConfiguration | verl/verl/utils/activation_offload.py:543 | with one group fewer than layers, window i is layer i + 1 |
| GroupMachine.RunEnds | ttsr/reward_managers.py:101-159 | whatever the interleaving of arrivals, timers, finalisations and timeouts: k requests cause at most 4k further steps, work that is left can always go on, and when none is left the queue is empty and every request has a result |
| GroupMachine.StepKeepsInv | ttsr/reward_managers.py:101-159 | every step keeps: a waiting group has a finalisation scheduled, a uid in the timer set has one pending, taken and waiting requests of a group are all its requests in order |
| GroupMachine.RunInv | ttsr/reward_managers.py:101-159 | the invariant holds in every reachable state |
| GroupMachine.TakenOnce | ttsr/reward_managers.py:125-131 | no request is taken by two finalisations, or twice by one |
| GroupMachine.TakenOrWaiting | ttsr/reward_managers.py:102-131 | every request is waiting in its group or in one batch of its group, never both |
| GroupMachine.ResultStays | ttsr/reward_managers.py:158-159 | a result that is set is never replaced |
| GroupMachine.AtRest | ttsr/teacher_reward.py:110-125 | at rest no group is stranded and every caller was answered by the batch that took its request, unless it timed out |
| GroupMachine.NotStuck | ttsr/reward_managers.py:101-108 | work that is left never waits for a new request or for a timeout |
| WholeGroups.OneBatchIff | ttsr/reward_managers.py:101-131 | at rest the requests of a group, at most the expected number, are one batch, in order of arrival, exactly when no finalisation of the group ran before the last of them |
| WholeGroups.WholeGroup | ttsr/reward_managers.py:101-131 | if no timer of the group fires before its n requests are in, the n requests are voted on as one batch, in order, whatever fires later |
| WholeGroups.SplitRun | ttsr/reward_managers.py:103-131 | for every expected size n of two or more there is a run in which a timer has the first request voted on alone and the other n - 1 together |
| WholeGroups.SplitIff | ttsr/reward_managers.py:103-131 | some run splits a full group exactly for expected sizes of two or more |
| StudentReward.StudentManager.Arrive | ttsr/reward_managers.py:98-108 | one request refines the machine's arrival step |
| StudentReward.StudentManager.TimerFires | ttsr/reward_managers.py:105-108 | a timer that fires schedules a finalisation |
| StudentReward.StudentManager.TimesOut | ttsr/reward_managers.py:110-123 | the caller gets the timeout reply, once |
| StudentReward.StudentManager.FinalizeGroup | ttsr/reward_managers.py:125-159 | the whole group is taken, and every member still waiting is told the vote of exactly that group |
| StudentReward.StudentManager.SetVotes | ttsr/reward_managers.py:133-159 | the rewards are one for a match with the target, the default otherwise; results already set are kept |
| StudentReward.StudentManager.SetFutures | ttsr/reward_managers.py:143-159 | every future that is not done gets its own reply |
| StudentReward.StudentManager.constructor | ttsr/reward_managers.py:69-76 | the expected group size is at least one, and the manager starts empty |
| StudentReward.SameVote | ttsr/reward_managers.py:133-157 | members of one group are told the same target and count, and equal answers earn the same |
| StudentReward.AgreesWithEvaluator | ttsr/student_evaluator.py:58-68 | for the same answers the manager's target, count and rewards are the evaluator's |
| Vote.Majority | ttsr/reward_managers.py:133-140 | the target is a non-blank answer of maximal count, the smallest of these as a string; empty without usable answers |
| Vote.TargetUnique | ttsr/reward_managers.py:136 | there is only one such target |
| Vote.TargetPermuted | ttsr/reward_managers.py:133-137 | it does not depend on the order of the answers |
| Vote.CountAll | ttsr/reward_managers.py:135 | the counter counts every answer |
| Vote.First | ttsr/reward_managers.py:136 | the first entry in the sorted order |
| Vote.MatchesAreCount | ttsr/reward_managers.py:143-145 | as many answers match the target as its count says |
| Vote.LexTotal | ttsr/reward_managers.py:136 | the tie-break order is total and antisymmetric |
| Vote.LexIff | ttsr/reward_managers.py:136 | in the tie-break order a string comes before its extensions, and otherwise the smaller character decides at the first difference |
| Vote.StripIs | ttsr/reward_managers.py:133 | stripping cuts the white space off both ends, and nothing else |
| Vote.Evaluate | ttsr/student_evaluator.py:58-80 | each answer's reward is one exactly for a match with the target; the score is the share of matching answers, in [0, 1], and positive exactly when some answer is usable |
| TeacherReward.FinalizeGroup | ttsr/teacher_reward.py:143-197 | with a question to ask: all items zero for an endpoint that does not answer, or whose list has another length than the request; otherwise every item of good format with a question is told the score the endpoint listed at its place, with its own mean penalty and reward, and the others are zero for their format |
| TeacherReward.Evaluate | ttsr/teacher_reward.py:52-67 | the endpoint's list as received, or the fault; nothing is asked without a question |
| TeacherReward.TokenSimilarity | ttsr/teacher_reward.py:31-35 | zero for a blank text, else the ratio of the stripped texts in the order given |
| TeacherReward.Attach | ttsr/teacher_reward.py:155-156 | usable items take the evaluations in order, the others none |
| TeacherReward.Aligned | ttsr/teacher_reward.py:150-156 | the place of a usable item in the request holds its own question |
| TeacherReward.OwnScore | ttsr/teacher_reward.py:150-168 | if the endpoint scores question by question, the reply to every item asked about has its own question's score |
| TeacherReward.InOrder | ttsr/teacher_reward.py:152-156 | two questions are told the first and the second score of the endpoint's list |
| TeacherReward.RankInjective | ttsr/teacher_reward.py:155-156 | no evaluation is handed out twice |
| TeacherReward.RSim | ttsr/teacher_reward.py:170-176 | the mean excess similarity, between 0 and what exceeds the tolerance |
| TeacherReward.CollapsePenalty | ttsr/teacher_reward.py:170-176 | n equal questions far from the reference pay (1 - tau)(n - 1)/n each |
| TeacherReward.RewardRange | ttsr/teacher_reward.py:169-177 | with a non-negative weight the reward is in [0, 1], and 1 exactly at s = 1/2 without weighted penalty |
| TeacherReward.RewardBoundedIff | ttsr/teacher_reward.py:79-89 | no reply of any group earns more than 1 exactly when the weight is not negative or the tolerance is at least 1; neither is checked |
| TeacherReward.RepliesAtMost | ttsr/teacher_reward.py:169-177 | no reply earns more than 1, or, for a negative weight and a tolerance below 1, more than 1 - weight (1 - tau) |
| TeacherReward.CopiedReply | ttsr/teacher_reward.py:143-177 | the group of one question equal to its reference, solved half of the time, has a penalty of 1 - tau, and with a negative weight and a tolerance below 1 earns that highest reward, more than 1 |
| TeacherReward.RewardOrder | ttsr/teacher_reward.py:169-177 | closer to one half and less similar never earns less |
| TeacherReward.FrontierTop | ttsr/teacher_reward.py:169 | 4s(1 - s) is at most 1, and 1 exactly at one half |
| TensorMerge.SplitIff | verl/verl/model_merger/megatron_model_merger.py:328-354 | the splitter succeeds on exactly the tensors the converter can have written and returns what the converter was given |
| TensorMerge.SplitTensor | verl/verl/model_merger/megatron_model_merger.py:328-354 | the loop over chunks computes the splitter's specification, errors included; on success the tensor holds, group by group, the rows of the group's query heads, then of its key, then of its value |
| TensorMerge.CutShard | verl/scripts/legacy_model_merger.py:547-555 | the inner loop of both mergers |
| TensorMerge.ShardCut | verl/verl/model_merger/megatron_model_merger.py:343-352 | rows of whole groups are cut into these groups |
| TensorMerge.ShardRefused | verl/verl/model_merger/megatron_model_merger.py:343-349 | rows that are not whole groups make the split fail |
| QkvLayout.SplitOfPacked | verl/scripts/converter_hf_to_mcore.py:155-160 | splitting the interleaved tensor returns q, k and v |
| QkvLayout.PackOfSplit | verl/scripts/converter_hf_to_mcore.py:155-160 | interleaving what was split returns the tensor |
| QkvLayout.InterleaveLaid | verl/scripts/converter_hf_to_mcore.py:155-160 | row by row: of group g the converter writes rows g a, ..., of q, then rows g d, ..., of k, then of v |
| QkvLayout.DeinterleaveLaid | verl/verl/model_merger/megatron_model_merger.py:343-352 | and from there the mergers read them |
| TensorParallel.MergeIff | verl/scripts/legacy_model_merger.py:533-560 | merging row slices equals splitting the whole tensor, for every content, exactly when the ranks divide the key/value heads; the merger does not check it |
| TensorParallel.AnyTp | verl/scripts/legacy_model_merger.py:533-560 | any number of ranks that divides the heads gives the same result |
| TensorParallel.WrongTp | verl/scripts/legacy_model_merger.py:533-560 | any other number refuses or misplaces rows |
| TensorParallel.MergeWhole | verl/scripts/legacy_model_merger.py:545-560 | merging shards of whole groups is splitting their concatenation |
| TensorParallel.MergeTensors | verl/scripts/legacy_model_merger.py:533-560 | the loop over ranks computes the merger's specification, errors included |
| TensorParallel.MergeGateUp | verl/scripts/legacy_model_merger.py:521-531 | the loop over ranks for gate and up |
| TensorParallel.RankParts | verl/scripts/legacy_model_merger.py:521-531 | ranks that hold matching parts of both halves merge to gate and up |
| TensorParallel.NaiveSlicesIff | verl/scripts/converter_hf_to_mcore.py:188-192 | row slices of the stacked tensor merge back, for every content, exactly for one rank |
| PipelineShards.DynamicShards | verl/verl/model_merger/megatron_model_merger.py:57-98 | for three or more ranks the search succeeds exactly when ceil(L/p)(p - 2) + 2 <= L; then every middle rank has ceil(L/p) layers, and the first and last share the rest, the last one more if it is odd; the errors in the order of the code |
| PipelineShards.DealtUnique | verl/verl/model_merger/megatron_model_merger.py:81-98 | there is only one such result |
| PipelineShards.SearchOptimal | verl/verl/model_merger/megatron_model_merger.py:57-98 | the result is p positive shards that add up to L, and no other split has a smaller maximum |
| PipelineShards.Pigeonhole | verl/verl/model_merger/megatron_model_merger.py:57-98 | no split of L layers over p ranks keeps every rank below ceil(L/p) |
| PipelineShards.AcceptedIff | verl/verl/model_merger/megatron_model_merger.py:83-88 | the accepted middle sizes are one interval, from ceil(L/p) on |
| PipelineShards.DiffGrows | verl/verl/model_merger/megatron_model_merger.py:88-96 | a larger middle size is strictly less uniform, so the choice is unique |
| PipelineShards.MostUniform | verl/verl/model_merger/megatron_model_merger.py:96 | the first of the candidates with the smallest difference |
| PipelineShards.UpToTwoEach | verl/verl/model_merger/megatron_model_merger.py:57-98 | for more than p and at most 2p layers the search succeeds exactly from 2p - 2 layers on |
| PipelineShards.ManyFit | verl/verl/model_merger/megatron_model_merger.py:57-98 | for more than p(p - 1)/2 layers the search always succeeds |
| PipelineShards.EvenFits | verl/verl/model_merger/megatron_model_merger.py:57-98 | layers that divide evenly are always split evenly |
| LayerNumbering.EveryLayerOnce | verl/scripts/converter_hf_to_mcore.py:547-553 | the ranks' layer ranges cover every layer once, and the merger's offset gives each its number back |
| LayerNumbering.MergeRank | verl/verl/model_merger/megatron_model_merger.py:358-418 | the distributed merger: the same for the chunks of a rank, numbered from the layers of the ranks before |
| LayerNumbering.InterleavedIff | verl/verl/model_merger/megatron_model_merger.py:358-418 | a rank's chunks get their numbers in the interleaved schedule exactly for a single chunk, as the merger sets it up, or a single rank |
| LayerNumbering.MergeStages | verl/scripts/legacy_model_merger.py:611-661 | every layer is found, with its own value, under its number plus its stage's running offset; a name without layer number holds the value of the last stage that has it; nothing else is there |
| LayerNumbering.OneStage | verl/scripts/legacy_model_merger.py:618-659 | for one stage or chunk every entry, with or without layer number, is there with its own value |
| LayerNumbering.MergeStage | verl/scripts/legacy_model_merger.py:618-659 | every entry of the stage is stored with its own value, layers under their number plus the offset; other entries stay, and the next offset |
| LayerNumbering.RunningOffsetIff | verl/scripts/legacy_model_merger.py:616-659 | the running offset is right for all layers of consecutive stages, or of a rank's chunks, exactly when no stage without layers precedes one with layers |
| LayerNumbering.EvenStages | verl/scripts/legacy_model_merger.py:616-659 | with equal stages, stage j starts at layer j times the stage size |
| LayerNumbering.ArraySplit | verl/verl/model_merger/megatron_model_merger.py:436-450 | the rank's keys are partitioned over its files, in order, earlier files at most one key longer than later ones |
| LayerNumbering.FilesOnce | verl/verl/model_merger/megatron_model_merger.py:430-457 | every file number from 1 to the total is written |
| LayerNumbering.FilesDiffer | verl/verl/model_merger/megatron_model_merger.py:430-457 | no file number is written twice, and none lies outside the range |
| LayerNumbering.FilesInOrder | verl/verl/model_merger/megatron_model_merger.py:430-457 | files are numbered rank by rank, and in order within a rank |
| BBox.MaybeResizeBbox | verl/verl/tools/image_zoom_in_tool.py:205-297 | a returned box is inside the image, contains the clamped request, has pixel sides of at least 28 and an aspect ratio of at most 100; a proper request of sufficient size is returned as it is; a small one is enlarged to whole pixels, its smaller side below 30, and not refused when there is room and its longer side becomes at most 2799 |
| BBox.ValidateBbox | verl/verl/tools/image_zoom_in_tool.py:181-203 | accepts exactly the non-empty boxes within the aspect bound |
| BBox.ClampIntersects | verl/verl/tools/image_zoom_in_tool.py:219-222 | the clamped request is the intersection of the request with the image |
| BBox.TargetSize | verl/verl/tools/image_zoom_in_tool.py:238-257 | the target keeps the shape, is nowhere smaller than the box, fits the image, and has its smaller side at 28 or less, at 28 exactly when there is room |
| BBox.Enlarged | verl/verl/tools/image_zoom_in_tool.py:259-279 | centring, shifting and rounding keep the box around the request and inside the image |
| BBox.Shifted | verl/verl/tools/image_zoom_in_tool.py:266-276 | a segment shifted into the image still contains the one it was centred on |
| BBox.NeverRefusedIff | verl/verl/tools/image_zoom_in_tool.py:205-297 | small requests of one size, all of them that lie in an image with room for their enlargement, are never refused exactly when the enlarged longer side is at most 2799, one pixel below the aspect bound |
| BBox.UnluckyRefused | verl/verl/tools/image_zoom_in_tool.py:259-297 | for a longer side above 2799 the place and the image where the request is refused |
| BBox.WithoutRoom | verl/verl/tools/image_zoom_in_tool.py:246-297 | in an image without room a small request is refused exactly when the image is below 28 by 28 or the smaller side of the target covers fewer than 28 pixels after rounding; the aspect bound never refuses it |
| BBox.WithoutRoomIff | verl/verl/tools/image_zoom_in_tool.py:246-297 | small requests of one size in one such image: never refused exactly when the target's smaller side is more than 27, always refused exactly when it is at most 26 or the image is below 28 by 28 |
| BBox.RefusedAtTheBound | verl/verl/tools/image_zoom_in_tool.py:279-285 | a request of 100 by 1 in a 10000 by 28 image meets the aspect bound and is refused: rounded outwards its enlargement is 2801 by 28 |
| WeaknessMemory.RunGood | ttsr/memory.py:57-75 | after any updates with non-decreasing iterations: size, order, window, first seen before last seen, persistence at least one, and of any two entries the one inserted later did not match the other |
| WeaknessMemory.LaterDidNotMatch | ttsr/memory.py:60-71 | of any two entries of a good memory, also of one update, the one inserted later was below the merge threshold against the other |
| WeaknessMemory.UpdateGood | ttsr/memory.py:57-75 | one update establishes all that |
| WeaknessMemory.PersistenceConserved | ttsr/memory.py:58-71 | every non-blank reflection adds exactly one to the total persistence |
| WeaknessMemory.DroppedRightly | ttsr/memory.py:73-75 | what an update drops was too old, or no more persistent than anything kept in a full memory |
| WeaknessMemory.SortStable | ttsr/memory.py:74 | sorting keeps the order of equally persistent entries |
| WeaknessMemory.SortedDescends | ttsr/memory.py:74 | sorting permutes the entries into descending persistence |
| WeaknessMemory.Memory.Update | ttsr/memory.py:57-75 | the update's loops compute the specification, and keep a memory good when iterations do not go back |
| WeaknessMemory.Memory.AbsorbOne | ttsr/memory.py:58-71 | a blank reflection changes nothing; another refreshes the first entry it matches, last seen now and one more persistent, or adds an entry seen now; everything else stays |
| WeaknessMemory.RunLastSeen | ttsr/memory.py:57-75 | over any run an entry was last seen in the last round that created it or merged into it |
| WeaknessMemory.ExpiredIff | ttsr/memory.py:73 | an update drops an entry as expired exactly when that round is more than the window back |
| WeaknessMemory.RecentConcat | ttsr/memory.py:73 | expiry keeps the order of the entries |
| WeaknessMemory.Memory.Top | ttsr/memory.py:77-78 | of a memory in order, the first n entries |
| DataRows.PadToDivisor | verl/verl/protocol.py:73-98 | row i of the padded data is row i mod n, in every column; the length is divisible and less than a divisor was added |
| DataRows.UnpadOfPadded | verl/verl/protocol.py:101-105 | unpadding the padded data by the reported size restores the data |
| DataRows.Unpad | verl/verl/protocol.py:101-105 | the last rows of every column are gone and the others stay in place; all are gone when there are fewer |
| DataRows.Concat | verl/verl/protocol.py:916-933 | pieces with the same columns: each column is the pieces' columns one after the other; an empty list fails |
| DataRows.JoinedAt | verl/verl/protocol.py:916-933 | row k of piece i comes after all rows of the pieces before it, in every column |
| DataRows.JoinedSelections | verl/verl/protocol.py:916-933 | concatenating selections of one container selects along their row lists one after the other |
| DataRows.Chunk | verl/verl/protocol.py:863-902 | succeeds exactly for a divisor of the length, and gives consecutive rows |
| DataRows.ConcatOfChunks | verl/verl/protocol.py:863-933 | concatenating the chunks gives the data back |
| DataRows.ChunkAndConcat | verl/verl/protocol.py:863-933 | the two methods in sequence: chunking and concatenating changes nothing |
| DataRows.RepeatRows | verl/verl/protocol.py:970-1012 | row i of a repetition is row i div k when interleaved and i mod n otherwise, in every column |
| DataRows.FoldAt | verl/verl/protocol.py:201-218 | new row g holds the old rows g w, ..., g w + w - 1 |
| DataRows.UnfoldAt | verl/verl/protocol.py:221-237 | and unfolding puts them there again |
| DataRows.UnfoldOfFolded | verl/verl/protocol.py:201-237 | unfolding undoes folding |
| DataRows.FoldOfUnfolded | verl/verl/protocol.py:201-237 | folding undoes unfolding of rows of one size |
| DataRows.SliceIsGather | verl/verl/protocol.py:674-718 | a slice takes one range of rows, in every column |
| DataRows.SelectRows | verl/verl/protocol.py:634-672 | row i of the selection is the i-th listed row, in every column, and nothing else is selected |
| DataRows.ReorderBack | verl/verl/protocol.py:962-968 | reordering by a permutation and its inverse changes nothing |
| ShardedLoad.LoadShards | verl/verl/utils/fsdp_utils.py:296-315 | a rank ends up with the tensors of its own files and the holder's rank for every other name |
| ShardedLoad.RanksAgree | verl/verl/utils/fsdp_utils.py:302-315 | any two ranks know the same names and the same source for each, the rank that has the tensor |
| ShardedLoad.OneReader | verl/verl/utils/fsdp_utils.py:296-300 | every file is read by exactly one rank |
| ShardedLoad.InitModule | verl/verl/utils/fsdp_utils.py:331-397 | succeeds exactly when the first name of every reached state, and the name each reached buffer takes, is loaded; every reached state is broadcast once, and exactly the names taken are used up |
| ShardedLoad.ReachedNames | verl/verl/utils/fsdp_utils.py:331-361 | the reached slots of a state take the first of its names, in order |
| ShardedLoad.ReachedDistinct | verl/verl/utils/fsdp_utils.py:361 | no name is taken twice |
| ShardedLoad.ReachedAll | verl/verl/utils/fsdp_utils.py:331-361 | when every slot is reached, each takes its own name |
| ShardedLoad.UsedAllIff | verl/verl/utils/fsdp_utils.py:331-389 | every name is used up exactly when every slot is reached; a tie inside one submodule or a shared submodule leaves names behind |
| ShardedLoad.NameStates | verl/verl/utils/fsdp_utils.py:331-337 | every state is listed with all its names in order, and is shared exactly when it has more than one |
| ShardedLoad.FillSlot | verl/verl/utils/fsdp_utils.py:360-389 | one parameter or buffer |
| ShardedLoad.SameBroadcasts | verl/verl/utils/fsdp_utils.py:341-358 | all ranks fail at the same slot or finish after the same broadcasts with the same sources |
| MoeStacking.SplitOfMerged | verl/scripts/veomni/moe_split.py:73-83 | splitting what was merged restores the dictionary exactly when it held no stacked keys in the model's layers |
| MoeStacking.MergeOfSplit | verl/scripts/veomni/moe_merge.py:95-110 | merging what was split restores a stacked dictionary |
| MoeStacking.MergedIsStackable | verl/scripts/veomni/moe_split.py:75-83 | the splitter accepts what the merger writes |
| MoeStacking.Merge | verl/scripts/veomni/moe_merge.py:95-110 | succeeds exactly when all expert keys are there and there is an expert; every expert of a mixture layer moves into its stack and nothing else changes |
| MoeStacking.Split | verl/scripts/veomni/moe_split.py:75-83 | succeeds exactly when every stack has a part for every expert; parts become experts and nothing else changes |
| MoeStacking.MergeOne | verl/scripts/veomni/moe_merge.py:96-100 | one layer and projection |
| MoeStacking.SplitOne | verl/scripts/veomni/moe_split.py:77-83 | one layer and projection |

## Left out

- NixlSafety.Delivery: assumes the connections of the prepared chain: reliable FIFO messages, one completion notification per read, and the same bucket size on every rank; transfer errors, which end the process, are not modelled.
- NixlSetup.TopologyIff: `metadata` is taken to hold one entry per worker, as the caller builds it.
- Nccl.NcclSender.SendWeights: the completion of a broadcast is an event of the collective; a rank that dies is not modelled.
- KimiReceive.ReceiveTensor: takes the bucket plan as given, any plan whose buckets fit the buffer; `_gen_h2d_buckets` belongs to a library that is not part of this model, as is the padding of its offsets to an alignment.
- Kimi.GetNamedTensorBuckets: the cast to the rollout type is applied before; only the sizes after it matter.
- Offload.AsyncOffloadHandler.TensorPush: asks that tensors of one group with equal storage keys have equal contents, which the key (address and element type) is meant to ensure; OffloadSpec.SharedCopyIff shows that it is needed. Two views that start at one address but cover different elements are therefore outside.
- Offload.AsyncOffloadHandler.TensorPop: contents and shape of a tensor are compared, not its address; streams and events are not modelled, copies happen at the call.
- OffloadStep.TrainingStep: one commit per layer and matching pops, as the hooks make them; the hooks and activation checkpointing are not modelled.
- GroupMachine.RunEnds: time is not modelled, so a timeout may come at any moment; the fallback group id computed from a hash is a parameter.
- StudentReward.StudentManager.FinalizeGroup: the Student manager has no await between taking a group and answering it, so both happen in one call; the Teacher manager's queue is the same code and is covered by GroupMachine, where taking and answering are separate steps.
- TeacherReward.FinalizeGroup: evaluations are records; a list element that is not a dict, or an explicit null, is not modelled.
- Vote.Majority: `strip` removes white space among the ASCII characters only.
- TensorMerge.SplitTensor: rows are opaque, so type, width and the reshaping of biases with other trailing shapes are not modelled.
- TensorParallel.MergeTensors: the plain concatenation and first-rank cases of the merger are left out, as are expert-parallel ranks.
- PipelineShards.DynamicShards: `sorted` is modelled by taking the first minimal candidate, which is all that is used of it.
- LayerNumbering.MergeStages: keys are structured instead of dotted strings; entries the merger skips are not part of a stage, and entries without a layer number may overwrite each other as in the code.
- LayerNumbering.ArraySplit: asks for at least one file, which a rank with a layer has.
- BBox.MaybeResizeBbox: coordinates are mathematical reals; floating-point rounding, infinities and NaN are not modelled.
- TeacherReward.RSim: rewards and similarities are mathematical reals.
- WeaknessMemory.LaterDidNotMatch: entries carry a serial number of their insertion, larger than all it finds in the memory; the code keeps none and nothing but this property depends on it.
- WeaknessMemory.Memory.Update: entries are values with the fields that matter for merging and ranking; conditions, signatures and summaries are carried along unchanged, and aliasing of entries returned by `top` is not modelled.
- DataRows.SelectRows: row lists hold valid non-negative numbers; boolean masks are not modelled, and `reorder` and `fold_batch_dim` return new data instead of replacing columns in place.
- DataRows.Concat: asks for pieces with the same columns; meta information, which concatenation reshapes, is not modelled.
- DataRows.Chunk: automatic padding is left out; chunking no rows gives empty chunks.
- ShardedLoad.LoadShards: the index is taken to list for every file the names that the file holds, and a name to be in one file.
- ShardedLoad.InitModule: the module tree is given by its named slots, all of them on the meta device, and by which of them the traversal reaches, any set of them; how identity of submodules and parameters decides that is not modelled, nor that an unreached parameter may stay on the meta device. Names and traversal are taken to follow one order.
- MoeStacking.Merge: experts of one layer have tensors of one shape; keys are structured instead of strings.
- The HCCL engine repeats the NCCL algorithm, and the Mooncake engine acknowledges inside the data buffer; neither is modelled.
- Tokenisation, JSON and tag extraction, the HTTP evaluator, training loops, configuration, command lines and file copying.
