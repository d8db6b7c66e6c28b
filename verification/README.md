# Verified models of the ADK/AAF messaging core

This project models the parts of ADK and AAF that decide message order and message
loss, in Dafny 4.11, and proves what they keep over every run:

| file | component |
|---|---|
| `ShardSort.dfy` | sharded execution with output merged back into the global order |
| `Follower.dfy` | the trial process, the realtime process that follows it, and restarts after a crash |
| `SeqLockSteps.dfy` | `ShmSeqLock`, each shared-memory access a step of its own |
| `SeqLockLoss.dfy` | which interleavings of those accesses can lose an unlock |
| `SeqLock.dfy` | `ShmSeqLock` as a class, whole calls atomic |
| `Replication.dfy`, `AsyncRing.dfy` | `AsyncAmiExecutor`: leader, loop-back topic and replicas; the send thread's ring |
| `Scheduler.dfy` | the `ThreadBase` message scheduler: blocked tags, cache queues, budgets |
| `SchedulerRuns.dfy` | runs of a new thread that reach the scheduler's bounds |
| `SchedulerTurns.dfy` | the turns of the released cache queues |
| `TopologySort.dfy` | `topologySort` of the pipeline |
| `ReorderBuffer.dfy` | the ring and overflow set of received sequence numbers |
| `ByteBuffer.dfy` | the single-producer single-consumer double byte buffer |
| `Deframer.dfy` | the recv loops that cut the local-socket stream into messages |
| `RateControl.dfy` | the rate controller |
| `FormData.dfy`, `Base64.dfy` | form-data and Base64 codecs |
| `Common.dfy` | types and sequence facts that the others share |

Verify everything with `dafny verify dfyconfig.toml`.

Concurrent protocols are transition systems: a state, a function for one step, an
invariant that every step keeps, and theorems over every finite run.  Objects whose
methods update fields are classes; each method is proved against a specification
function or a set-like reference.  Queues between processes are FIFO sequences.
Clocks, `recv` results and what application handlers do are parameters, so the
theorems hold for all of them.

## What the models show about the code

* `ShmSeqLock` is safe under every interleaving, but the store that clears a ring
  entry (seq_lock.h:222) can erase an unlock that was cached after the word moved:
  `SeqLockSteps.ClearLosesUnlock` is such a run, and `SeqLockLoss` shows that within the
  ring window nothing is lost in any other way.  With atomic calls no unlock is lost
  exactly when the caller holds the lock or its number has a ring entry of its own
  (`SeqLock.ShmSeqLock.UnLock`).
* A trial forked from the waiting path follows its own queue and the follower
  protocol is safe.  The idle path (sharding_proxy.cpp:524-528) goes on with the local
  queue address it already had, so the new trial polls the realtime queue.  Every such
  restart has a continuation that loses a message (`Follower.IdleRestartLosesMessage`),
  and it happens exactly in the window between the two posts of one message.
* The guard of the async ring compares `pos_end` only; `AsyncRing.SafeIsExact` gives the
  exact condition under which a copy leaves all unread records alone, and
  `AsyncRing.GuardAdmitsOverrun` leads a new ring of the code's size to an overwritten record.
* A disaster node that takes over before it has received all of the loop-back topic drops
  the rest of it, which other followers run (`Replication.LateTakeoverDrops`); it agrees with
  the topic exactly when it has received all of it (`Replication.TakeoverIsExact`).
* A poll that has reached `mq_cont_process_limit_` skips the normal queue, so up to twice
  `oob_msg_budget_` out-of-band deliveries can come between two attempts on it, and with a
  limit of zero any number (`SchedulerRuns.TwiceTheBudget`, `SchedulerRuns.NoAttemptAtAll`).
* `topologySort` expands the base stage a second time once all its connectors were seen, so
  it accepts pipelines whose cycles all go through base (`TopologySort.CyclesThroughBasePass`).
* One `GetNextSqn` moves the head over at most one lap of overflow numbers; the exact
  answer is `ReorderBuffer.Answer`.
* The agent reads all local-socket connections into one buffer.  It never mixes them,
  because it stays with a connection until nothing of it waits.
* `ParsePostData` of the empty string gives one entry, and an item without `=` is its own
  key and value.

## Model

| member | source | states |
|---|---|---|
| `ShardSort.OutputIsOrdered` | ADK_CODE/aaf/code/sharding/sharding_agent.cpp:1328-1455 | in every run of agent, shards and sorter, the output is one block per freed sort entry in sort-queue order, each closed by that delivery's own Done, then the front of the next block of the entry being drained; if shards post only inside message handlers it is exactly what the handlers sent |
| `ShardSort.StepKeeps` | ADK_CODE/aaf/code/sharding/sharding_agent.cpp:1164-1230 | every step of agent, shard or sorter keeps the invariant that ties sort queue, deliveries, tx queues and output together |
| `ShardSort.RunKeeps` | ADK_CODE/aaf/code/sharding/sharding_agent.cpp:1164-1230 | so does every run |
| `ShardSort.OnMessageKeeps` | ADK_CODE/aaf/code/sharding/sharding_agent.h:291-336 | routing to one shard, to all shards or to none keeps the invariant |
| `ShardSort.PushSortKeeps` | ADK_CODE/aaf/code/sharding/sharding_agent.cpp:1164-1230 | the push to the sort queue, before the push to the shard, keeps it |
| `ShardSort.FinishKeeps` | ADK_CODE/aaf/code/sharding/sharding_proxy.cpp:816-842 | the Done posted when a handler returns closes the delivery's block |
| `ShardSort.PostKeeps` | ADK_CODE/aaf/code/sharding/sharding_proxy.cpp:776-814 | a send goes behind everything posted before it, whether or not a delivery is being handled |
| `ShardSort.NextBlock` | ADK_CODE/aaf/code/sharding/sharding_agent.cpp:1328-1416 | a Done at the head of a tx queue closes exactly the next block of that shard, never another delivery's |
| `ShardSort.BlockIsDelivery` | ADK_CODE/aaf/code/sharding/sharding_agent.cpp:1418-1455 | the block emitted for sort entry i is that delivery's: what its handler sent, then its Done |
| `ShardSort.SorterWaitsForWork` | ADK_CODE/aaf/code/sharding/sharding_agent.cpp:1418-1455 | the sorter never waits for nothing: an empty tx queue for the next entry means its delivery is being handled, queued or about to be pushed |
| `ShardSort.Agent.ProcessTxMsg` | ADK_CODE/aaf/code/sharding/sharding_agent.cpp:1328-1416 | takes a shard's tx entries up to and including the first Done, in order, and nothing else |
| `ShardSort.EachShardGetsItsOwn` | ADK_CODE/aaf/code/sharding/sharding_agent.h:291-336 | in every run each shard is delivered, with what the agent is about to deliver to it, exactly the messages routed to it or to all shards, in order; a message routed nowhere reaches none |
| `ShardSort.NothingPostedIsLost` | ADK_CODE/aaf/code/sharding/sharding_proxy.cpp:776-814 | in every run a shard's blocks and what it has posted since hold exactly what it posted, in order; so do its handlers' sends if it posted only inside handlers |
| `ShardSort.QuietIsComplete` | ADK_CODE/aaf/code/sharding/sharding_agent.cpp:1164-1230 | nothing gets stuck: when agent, shards and sorter can do nothing more, every message routed to a shard was delivered and handled and its block emitted |
| `Follower.FollowerIsSafe` | ADK_CODE/aaf/code/sharding/sharding_proxy.cpp:382-537 | in every run with crashes inside callbacks and no idle restart, realtime runs an item only after a trial completed it and never a message that killed a trial, the two queues stay in lockstep, exactly the messages that killed a trial are discarded, each message gets one Done in order, and the asserts of the restart hold |
| `Follower.StepKeeps` | ADK_CODE/aaf/code/sharding/sharding_proxy.cpp:382-537 | every step of agent, trial or realtime except the idle restart keeps the invariant |
| `Follower.RunKeeps` | ADK_CODE/aaf/code/sharding/sharding_proxy.cpp:382-537 | so does every run |
| `Follower.PostKeeps` | ADK_CODE/aaf/code/sharding/sharding_agent.cpp:1085-1161 | a message posted to the trial queue first and to the realtime queue second keeps the queues in step |
| `Follower.PostOthersOk` | ADK_CODE/aaf/code/sharding/sharding_agent.cpp:1232-1283 | a post or event, which goes to the realtime queue first, disturbs neither realtime nor the history |
| `Follower.FixAsserts` | ADK_CODE/aaf/code/sharding/sharding_proxy.cpp:1096-1161 | the asserts of OnTrialError hold: both queues have the same message at their heads and it is the one delivered last |
| `Follower.SkipKeeps` | ADK_CODE/aaf/code/sharding/sharding_proxy.cpp:1096-1161 | skipping frees one entry of each queue, discards it once, reports it done once and keeps the invariant |
| `Follower.ForkKeeps` | ADK_CODE/aaf/code/sharding/sharding_proxy.cpp:1208-1299 | the trial forked from the waiting path continues with the entry after the skipped one |
| `Follower.RealtimeKeeps` | ADK_CODE/aaf/code/sharding/sharding_proxy.cpp:967-1038 | waiting for the trial keeps the invariant that realtime is behind the published progress |
| `Follower.DonesOfRender` | ADK_CODE/aaf/code/sharding/sharding_proxy.cpp:816-869 | the tx queue holds one Done for each message dealt with, in queue order |
| `Follower.IdleRestartNeedsSplitPost` | ADK_CODE/aaf/code/sharding/sharding_proxy.cpp:1068-1094 | the idle poll restarts a trial only if a message is in the trial queue, killed the trial, and has not reached the realtime queue |
| `Follower.IdleRestartLosesMessage` | ADK_CODE/aaf/code/sharding/sharding_proxy.cpp:518-530 | every idle restart has a continuation in which the new trial frees a realtime entry that realtime never runs, discards or reports |
| `Follower.IdleRestartIsReachable` | ADK_CODE/aaf/code/sharding/sharding_proxy.cpp:518-530 | a safe run reaches the idle restart |
| `Follower.NothingIsLost` | ADK_CODE/aaf/code/sharding/sharding_agent.cpp:1085-1161 | in every run without an idle restart the queues hold exactly what the agent posted, in order, and the outcomes exactly what realtime's callbacks sent, in order |
| `Follower.QuietIsComplete` | ADK_CODE/aaf/code/sharding/sharding_proxy.cpp:382-537 | nothing gets stuck: when agent, trial and realtime can do nothing more, every item posted was handled or discarded and every message reported done once |
| `SeqLockSteps.LockIsSafe` | ADK_CODE/aaf/code/sharding/seq_lock.h:72-141 | in every disciplined interleaving of single accesses there is at most one holder, the word is negative exactly while there is one, and every number below a held one has had UnLock called |
| `SeqLockSteps.FrontierIsMonotone` | ADK_CODE/aaf/code/sharding/seq_lock.h:72-141 | the released frontier never decreases over any continuation, the re-lock path included |
| `SeqLockSteps.StepKeeps` | ADK_CODE/aaf/code/sharding/seq_lock.h:178-228 | every single compare-and-swap, load or store keeps the safety invariant and the frontier |
| `SeqLockSteps.RunKeeps` | ADK_CODE/aaf/code/sharding/seq_lock.h:72-228 | so does every schedule |
| `SeqLockSteps.ClearLosesUnlock` | ADK_CODE/aaf/code/sharding/seq_lock.h:207-228 | a run in which the clearing store erases UnLock(3): all threads idle, 1 and 3 unlocked, no entry remembers 3 |
| `SeqLockSteps.StrayUnlockBreaksExclusion` | ADK_CODE/aaf/code/sharding/seq_lock.h:123-141 | without the client rule (only the holder unlocks its number while the word is -n) two threads can hold the lock |
| `SeqLockSteps.WaiterReleases` | ADK_CODE/aaf/code/sharding/seq_lock.h:207-228 | a waiting Lock moves the free word over the next number whose unlock is in its entry, and clears the entry |
| `SeqLockSteps.WaiterTakes` | ADK_CODE/aaf/code/sharding/seq_lock.h:72-112 | a Lock whose number is next, or already released, takes the free word |
| `SeqLockSteps.LockReturnsHolding` | ADK_CODE/aaf/code/sharding/seq_lock.h:72-112 | a call of Lock returns only with the lock |
| `SeqLockSteps.UnlockReturnsStored` | ADK_CODE/aaf/code/sharding/seq_lock.h:178-204 | UnlockCache goes on until its entry holds its number or a larger one |
| `SeqLockLoss.NothingLostWithoutClash` | ADK_CODE/aaf/code/sharding/seq_lock.h:123-228 | in every disciplined interleaving with unlocks at most a ring ahead, in which no unlock ahead of the frontier is stored in an entry another thread is about to clear, every unlock ahead of the frontier is in its entry or on its way, and in it once all calls returned |
| `SeqLockLoss.LossStepKeeps` | ADK_CODE/aaf/code/sharding/seq_lock.h:123-228 | every such step keeps that invariant |
| `SeqLockLoss.ClashErases` | ADK_CODE/aaf/code/sharding/seq_lock.h:207-228 | conversely, after such a store the clearing thread's next step loses the unlock, unless another call of the same number is still on its way |
| `SeqLock.ShmSeqLock.constructor` | ADK_CODE/aaf/code/sharding/seq_lock.h:47-64 | a new lock is exact, with nothing unlocked |
| `SeqLock.ShmSeqLock.Lock` | ADK_CODE/aaf/code/sharding/seq_lock.h:72-112 | on an exact lock, succeeds exactly when the word is free and every smaller number is unlocked; keeps exactness and the frontier |
| `SeqLock.ShmSeqLock.UnLock` | ADK_CODE/aaf/code/sharding/seq_lock.h:123-141 | records the unlock; exactness is kept exactly when the caller holds the lock or its number has a ring entry of its own |
| `SeqLock.ShmSeqLock.UnlockCache` | ADK_CODE/aaf/code/sharding/seq_lock.h:178-204 | the entries become those of the specification: the larger number wins an entry |
| `SeqLock.ShmSeqLock.TryRelease` | ADK_CODE/aaf/code/sharding/seq_lock.h:207-228 | a lock that has lost nothing becomes exact: the free word is the largest k with 1..k unlocked; exactly the entries it passed are cleared |
| `SeqLock.CacheKeeps` | ADK_CODE/aaf/code/sharding/seq_lock.h:178-204 | caching an unlock loses nothing if and only if no other pending number shares its entry |
| `SeqLock.WithinRing` | ADK_CODE/aaf/code/sharding/seq_lock.h:168-176 | unlocks at most a ring's length ahead of the frontier never share an entry |
| `SeqLock.FrontierDecidesLock` | ADK_CODE/aaf/code/sharding/seq_lock.h:72-112 | the frontier is unique, and all numbers below n are unlocked exactly when n - 1 does not exceed it |
| `Replication.ReplicasFollowLeader` | ADK_CODE/aaf/code/src/async_ami_executor.h:68-213 | in every run of any number of nodes whose copies into the byte ring are safe, each node's lock order is what it sent, then its ring, then at most one outstanding message; it runs them in that order, after what it ran as a follower; a disaster or QE node, or a leader in recovery that was not at work before, has run exactly what the topic brought it; and with one ordering node every other one has run a prefix of its order |
| `Replication.StepKeeps` | ADK_CODE/aaf/code/src/async_ami_executor.h:68-213 | every step of callers, send threads, receivers, takeover and recovery keeps the invariant, if a copy is safe |
| `Replication.RunKeeps` | ADK_CODE/aaf/code/src/async_ami_executor.h:68-213 | so does every run |
| `Replication.HookKeeps` | ADK_CODE/aaf/code/src/async_ami_executor.h:68-157 | a follower that strips the header of a loop-back message re-runs exactly the next message sent; an active leader drops it |
| `Replication.FlushKeeps` | ADK_CODE/aaf/code/src/async_ami_executor.h:305-317 | the bytes read back from the ring are the payload of its oldest message, which goes on the topic |
| `Replication.OtherOk` | ADK_CODE/aaf/code/src/async_ami_executor.h:97-105 | an active leader orders a message of another topic; a disaster or QE node or a recovering leader drops it |
| `Replication.CopyOk` | ADK_CODE/aaf/code/src/async_ami_executor.h:279-296 | a safe copy writes the outstanding message behind the unread records of the ring, which stay readable |
| `Replication.OneLeader` | ADK_CODE/aaf/code/src/async_ami_executor.h:68-213 | if one node only has ordered messages, what any other has run is a prefix of its lock order |
| `Replication.TakeoverAgrees` | ADK_CODE/aaf/code/src/async_ami_executor.h:384-389 | in any state, a node that took over agrees with the topic if and only if all messages it did not run as a follower are its own |
| `Replication.FollowersOfTakeover` | ADK_CODE/aaf/code/src/async_ami_executor.h:384-389 | then every node that still follows has run a prefix of what it runs |
| `Replication.ActiveFollowsNoMore` | ADK_CODE/aaf/code/src/async_ami_executor.h:75-102 | an active leader runs no further message of the topic in any continuation |
| `Replication.LateTakeoverDrops` | ADK_CODE/aaf/code/src/async_ami_executor.h:384-389 | a disaster node that takes over before it received the whole topic never runs the message it was to receive next, which every follower that receives it runs in that place |
| `Replication.TakeoverIsExact` | ADK_CODE/aaf/code/src/async_ami_executor.h:384-389 | known when OnDisasterFailover is called: as long as no other node sends, the new leader agrees with the topic in every continuation if and only if it has received all of the topic by then |
| `Replication.TakeoverFreezes` | ADK_CODE/aaf/code/src/async_ami_executor.h:384-389 | in every continuation the new leader has run exactly what it had received at the takeover, and then its own order |
| `Replication.LateTakeoverHappens` | ADK_CODE/aaf/code/src/async_ami_executor.h:384-389 | three steps of a new leader and disaster node lead to such a takeover |
| `Replication.HookOk` | ADK_CODE/aaf/code/src/async_ami_executor.h:68-157 | a disaster or QE node or a recovering leader runs exactly the next message of the topic; an active leader drops it |
| `Replication.OrderIsCalls` | ADK_CODE/aaf/code/src/async_ami_executor.h:159-213 | the lock order is the application's calls and the messages of other topics that came while the node was an active leader |
| `Replication.HandlerRunsAtOnce` | ADK_CODE/aaf/code/src/async_ami_executor.h:159-179 | the handler of an ordered message can run before or after the message is copied |
| `Replication.RolesSwitch` | ADK_CODE/aaf/code/src/async_ami_executor.h:384-410 | a failover makes a disaster node an active leader and changes no other; recovery makes an active leader follow, and its success makes a leader active |
| `Replication.QuietIsComplete` | ADK_CODE/aaf/code/src/async_ami_executor.h:272-320 | nothing gets stuck: when no node can move, and records are at most a spill long, every message ordered was run and sent and every node has received all of the topic |
| `AsyncRing.StripUndoesPayload` | ADK_CODE/aaf/code/src/async_ami_executor.h:68-157 | stripping the handler id undoes the payload the send thread puts on the wire |
| `AsyncRing.SafeCopyIsIntact` | ADK_CODE/aaf/code/src/async_ami_executor.h:275-320 | a safe copy keeps every unread record, spilled ones included, and adds the new one behind them |
| `AsyncRing.SafeIsExact` | ADK_CODE/aaf/code/src/async_ami_executor.h:275-320 | whenever the guard admits a copy, it touches no unread record if and only if the ring is empty, both ends are in one lap, or pos_end + record <= pos_begin + size |
| `AsyncRing.GuardAdmitsOverrun` | ADK_CODE/aaf/code/src/async_ami_executor.h:275-320 | from a new ring of the code's size, admitted copies of records of at most a spill and one send reach a state in which the oldest unread record is overwritten |
| `AsyncRing.AsyncSender.constructor` | ADK_CODE/aaf/code/src/async_ami_executor.h:272-278 | the ring has its size and the spill area, and nothing unread |
| `AsyncRing.AsyncSender.Copy` | ADK_CODE/aaf/code/src/async_ami_executor.h:279-296 | writes the record and advances pos_end; a ring that holds its unread messages still does if the record is Safe |
| `AsyncRing.AsyncSender.SendOne` | ADK_CODE/aaf/code/src/async_ami_executor.h:305-317 | sends the bytes at pos_begin by the length found there; from a ring that holds its messages, that is the oldest one's handler id and data |
| `AsyncRing.OldestRecord` | ADK_CODE/aaf/code/src/async_ami_executor.h:305-317 | the length field and the payload read back are those of the oldest unread message |
| `Scheduler.ThreadBase.Poll` | ADK_CODE/adk/src/thread.cpp:1229-1265 | one poll does the events and sets the counters that the model of the loop gives, says which message leaves which queue and what its handler's calls do, and keeps bookkeeping, per-tag order and the service bounds |
| `Scheduler.ThreadBase.PollOOBMessage` | ADK_CODE/adk/src/thread.cpp:354-371 | delivers an out-of-band message exactly when the budget allows and one waits, otherwise resets both counters |
| `Scheduler.ThreadBase.DeliverMessage` | ADK_CODE/adk/src/thread.cpp:398-441 | for any handler behaviour the message is completed once or goes to the end of its tag's cache queue; a message of a cached tag goes straight to that queue; per-tag order is kept |
| `Scheduler.ThreadBase.DeliverCachedMessage` | ADK_CODE/adk/src/thread.cpp:443-469 | a cached message is completed once, or stays at the head of its queue if its tag was blocked again; per-tag order is kept |
| `Scheduler.ThreadBase.PopCachedMessage` | ADK_CODE/adk/src/thread.cpp:471-516 | takes the head of the current or next released queue, whose tag is not blocked; the turn ends exactly when the count reaches the budget and the tag then goes behind the others; an empty queue is retired and its tag no longer cached |
| `Scheduler.ThreadBase.ReleaseMessageProcess` | ADK_CODE/adk/src/thread.cpp:525-549 | a blocked tag is scheduled once at the end of the release queue; the bookkeeping invariant is kept |
| `Scheduler.ThreadBase.BlockMessageProcess` | ADK_CODE/adk/src/thread.cpp:551-603 | the tag is blocked and cached and no longer scheduled; the bookkeeping invariant is kept |
| `Scheduler.ThreadBase.Unschedule` | ADK_CODE/adk/src/thread.cpp:551-603 | the rotation ends by finding its tag, so the assert behind it is never reached, and leaves the other tags in rotated order |
| `Scheduler.ThreadBase.RunHandler` | ADK_CODE/adk/src/thread.cpp:525-603 | any sequence of block, release and accept calls keeps the bookkeeping and every cache queue |
| `Scheduler.BypassIsBounded` | ADK_CODE/adk/src/thread.cpp:1229-1265 | any stretch of a run has at most msg_budget_ (at least one) deliveries without an out-of-band poll, mq_cont_process_limit_ normal deliveries without a cache attempt, and oob_msg_budget_ out-of-band deliveries without an attempt or skipped attempt on the normal queue; without an attempt twice that, if the limit is not zero |
| `Scheduler.CompletedInOrder` | ADK_CODE/adk/src/thread.cpp:398-441 | completing the first pending message of a tag with no cached ones keeps arrival order |
| `Scheduler.CachedInOrder` | ADK_CODE/adk/src/thread.cpp:398-441 | moving the first pending message to its cache queue keeps arrival order |
| `Scheduler.PoppedInOrder` | ADK_CODE/adk/src/thread.cpp:443-469 | completing the head of a cache queue keeps arrival order |
| `Scheduler.RunIsCounted` | ADK_CODE/adk/src/thread.cpp:1229-1265 | every run of the poll loop, whatever waits at each poll, meets those bounds |
| `SchedulerRuns.TwiceTheBudget` | ADK_CODE/adk/src/thread.cpp:1229-1265 | for all budgets with a limit of at least one, a new thread has a run with twice oob_msg_budget_ out-of-band deliveries between two attempts on the normal queue, so the budget itself bounds all runs only when it is zero |
| `SchedulerRuns.NoAttemptAtAll` | ADK_CODE/adk/src/thread.cpp:1229-1265 | with a limit of zero and a non-zero out-of-band budget, a new thread has runs with any number of out-of-band deliveries and no attempt |
| `SchedulerTurns.TurnIsBounded` | ADK_CODE/adk/src/thread.cpp:471-516 | in every run of pops, while another tag is scheduled, at most nr_cq_srv_budget_ (at least one) consecutive pops are of one tag |
| `SchedulerTurns.EveryTagIsReached` | ADK_CODE/adk/src/thread.cpp:471-516 | without a block in between, among as many pops as scheduled tags times that budget, one is of each scheduled tag |
| `SchedulerTurns.PopNearer` | ADK_CODE/adk/src/thread.cpp:471-516 | a pop is of a given tag or brings it nearer to its turn |
| `SchedulerTurns.ThreadIsProper` | ADK_CODE/adk/src/thread.cpp:471-516 | a thread's turns are of this kind at all times between polls |
| `SchedulerTurns.BlockPostpones` | ADK_CODE/adk/src/thread.cpp:551-603 | blocking a tag rotates the others, so one that was first in line can end up last |
| `TopologySort.Sort` | ADK_CODE/adk/src/pipeline_variant.cpp:46-86 | for every graph and base: terminates; if no reachable stage connects into base, succeeds if and only if no cycle goes through a reachable stage and connectors into reachable stages other than base start at reachable ones, and then lists each reachable stage but base once after its predecessors; if one does, fails if and only if a set of stages blocks it |
| `TopologySort.VisitStage` | ADK_CODE/adk/src/pipeline_variant.cpp:58-77 | one stage's connectors, over all outputs, keep the counts, the order and the element counter |
| `TopologySort.VisitConnectors` | ADK_CODE/adk/src/pipeline_variant.cpp:60-77 | one output's connectors do |
| `TopologySort.VisitKeeps` | ADK_CODE/adk/src/pipeline_variant.cpp:63-76 | one more connector keeps the 32-bit counts exact, wrapped ones included, and appends a stage exactly when its last connector is seen |
| `TopologySort.Verdict` | ADK_CODE/adk/src/pipeline_variant.cpp:80-85 | no element is left over if and only if the graph is accepted |
| `TopologySort.NothingLeft` | ADK_CODE/adk/src/pipeline_variant.cpp:80-85 | if base is on no cycle, a stage left over means a cycle or a connector from elsewhere |
| `TopologySort.WalkClimbs` | ADK_CODE/adk/src/pipeline_variant.cpp:70-76 | in a complete order positions strictly grow along every walk |
| `TopologySort.KeptOut` | ADK_CODE/adk/src/pipeline_variant.cpp:58-77 | stages that keep each other and base from losing their last connector are never listed, nor is base again |
| `TopologySort.OutweighedOut` | ADK_CODE/adk/src/pipeline_variant.cpp:58-77 | stages with more connectors from among themselves or from elsewhere than from base are never listed, even if base is expanded twice |
| `TopologySort.ReturnsIsCycle` | ADK_CODE/adk/src/pipeline_variant.cpp:46-86 | if a reachable stage connects into base, the pipeline has a cycle, so success is wrong |
| `TopologySort.CyclesThroughBasePass` | ADK_CODE/adk/src/pipeline_variant.cpp:46-86 | the sort accepts every pipeline whose cycles all go through base and whose stages have only reachable predecessors |
| `TopologySort.SortsTwoStageCycle` | ADK_CODE/adk/src/pipeline_variant.cpp:46-86 | it accepts two stages that connect to each other |
| `ReorderBuffer.Buffer.PutSqn` | ADK_CODE/aaf/code/sharding/reorder_buffer.h:20-46 | no received number at or above the head is overwritten or dropped; a number more than a ring ahead goes to overflow |
| `ReorderBuffer.Buffer.PushHead` | ADK_CODE/aaf/code/sharding/reorder_buffer.h:48-59 | terminates within one lap at the end of what is contiguous outside overflow |
| `ReorderBuffer.Buffer.MoveOverflow` | ADK_CODE/aaf/code/sharding/reorder_buffer.h:61-79 | exactly the overflow numbers within one lap of the head move into the ring |
| `ReorderBuffer.Buffer.GetNextSqn` | ADK_CODE/aaf/code/sharding/reorder_buffer.h:61-83 | returns the largest contiguous received number or, if that is more than a lap ahead of the numbers not in overflow, the end of that lap; it is the former exactly when the head is not in overflow, so whenever overflow is empty or the head did not move |
| `ReorderBuffer.OneLap` | ADK_CODE/aaf/code/sharding/reorder_buffer.h:61-83 | with only the numbers beyond one lap waiting, the frontier outside overflow is the answer |
| `ReorderBuffer.AnswerFallsShort` | ADK_CODE/aaf/code/sharding/reorder_buffer.h:61-83 | with three laps received and two of them in overflow the answer is the end of the second lap |
| `ReorderBuffer.PutBelow` | ADK_CODE/aaf/code/sharding/reorder_buffer.h:20-46 | a new buffer that receives 0..n - 1 has exactly the numbers from one ring length on in overflow |
| `ReorderBuffer.ThreeLaps` | ADK_CODE/aaf/code/sharding/reorder_buffer.h:61-83 | a new buffer that receives three laps answers its first GetNextSqn with the end of the second, not with the frontier |
| `ByteBuffer.StreamIsFifo` | ADK_CODE/adk/src/spsc_byte_buffer.cpp:85-150 | in every interleaving, bytes consumed plus bytes readable are the bytes declared valid, in order, and those are a prefix of the bytes appended |
| `ByteBuffer.StepKeeps` | ADK_CODE/adk/src/spsc_byte_buffer.cpp:85-150 | every load, copy and store of RenewBuffer and UpdateBuffer keeps the invariant |
| `ByteBuffer.RunKeeps` | ADK_CODE/adk/src/spsc_byte_buffer.cpp:85-150 | so does every run |
| `ByteBuffer.RenewIsExclusive` | ADK_CODE/adk/src/spsc_byte_buffer.cpp:90-114 | while the producer renews, it writes only the buffer that the consumer has left |
| `ByteBuffer.ViewIsStable` | ADK_CODE/adk/src/spsc_byte_buffer.cpp:85-114 | no producer step changes a validated byte of the buffer being read, nor the consumer's view |
| `ByteBuffer.SetValidKeeps` | ADK_CODE/adk/src/spsc_byte_buffer.cpp:85-88 | flushing makes exactly the newly validated bytes readable |
| `ByteBuffer.LoadedIsAhead` | ADK_CODE/adk/src/spsc_byte_buffer.cpp:116-131 | the assert in UpdateBuffer holds |
| `ByteBuffer.Remaining` | ADK_CODE/adk/src/spsc_byte_buffer.cpp:116-150 | run alone, remaining() reports nothing exactly when every validated byte was consumed |
| `ByteBuffer.StreamsGrow` | ADK_CODE/adk/src/spsc_byte_buffer.cpp:85-150 | no step takes back a consumed or validated byte, and only Clear drops appended ones |
| `ByteBuffer.ProducerCalls` | ADK_CODE/adk/include/adk/spsc_byte_buffer.h:66-171 | an append goes behind the bytes not yet valid, declaring bytes valid moves exactly those, and Clear drops the rest |
| `ByteBuffer.WrittenIsAppended` | ADK_CODE/adk/include/adk/spsc_byte_buffer.h:117-128 | in every run without Clear the stream written is what the calls appended, in order |
| `ByteBuffer.RenewSucceeds` | ADK_CODE/adk/src/spsc_byte_buffer.cpp:90-114 | RenewBuffer goes through if and only if the consumer has caught up, and then fills the other buffer, which starts with the bytes not yet valid |
| `Deframer.Receiver.ProxyLoop` | ADK_CODE/adk/src/shm_cont_channel.cpp:861-905 | for any stream of messages and any cuts, the bytes received are the messages delivered, in order, and a proper part of the next one; each call with data takes some |
| `Deframer.Receiver.AgentEvent` | ADK_CODE/adk/src/shm_cont_channel.cpp:538-585 | the same for one readable connection, and the agent leaves it exactly when it is closed or nothing of it waits, so connections sharing the buffer never mix |
| `Deframer.Receiver.Receive` | ADK_CODE/adk/src/shm_cont_channel.cpp:541-561 | one recv with data delivers every message that became whole and leaves room for the next recv |
| `Deframer.Receiver.DeliverOne` | ADK_CODE/adk/src/shm_cont_channel.cpp:545-561 | delivers the first message and moves the bytes behind it to the front |
| `Deframer.CutsDoNotMatter` | ADK_CODE/adk/src/shm_cont_channel.cpp:538-563 | what was delivered and what waits is determined by the bytes received alone |
| `Deframer.TurnKeeps` | ADK_CODE/adk/src/shm_cont_channel.cpp:545-561 | the length the loop reads is that of the next message sent, whose first four bytes are its length, and one turn delivers that message |
| `Deframer.ZeroLengthSpins` | ADK_CODE/adk/src/shm_cont_channel.cpp:545-561 | with a length of zero every turn of the loop leaves the buffer as it was |
| `Deframer.PositiveLengthsEnd` | ADK_CODE/adk/src/shm_cont_channel.cpp:545-561 | with positive lengths the loop ends |
| `Deframer.Receiver.OversizeStalls` | ADK_CODE/adk/src/shm_cont_channel.cpp:861-905 | a stream whose first length is above 256 is never delivered; once enough calls had data the buffer is full and recv is asked for nothing |
| `Deframer.Receiver.RecvOversize` | ADK_CODE/adk/src/shm_cont_channel.cpp:865-888 | each recv of it adds to the buffer, and a full buffer takes no more |
| `Deframer.LengthOfInt32` | ADK_CODE/adk/src/shm_cont_channel.cpp:107-118 | the length read from four bytes is the int32_t that a little-endian machine keeps in them, for every value |
| `RateControl.RateController.Create` | ADK_CODE/adk/src/rate_control.cpp:8-33 | refuses exactly a negative rate, an empty unit or a rate below one unit; the burst is four units, capped by the millisecond or second rate |
| `RateControl.RateController.Wait` | ADK_CODE/adk/src/rate_control.cpp:40-122 | over any mix of calls with a monotone clock, credit stays non-negative between calls and grants plus credit grow by at most rate_per_sec_ times the elapsed time; a request of at most the burst passes at once if the elapsed time covers what is missing; rate 0 grants everything |
| `RateControl.RateController.WaitLoop` | ADK_CODE/adk/src/rate_control.cpp:94-114 | a blocking wait ends with a release, which resets the credit to zero and grants nothing, or with the first poll that earned enough; no poll before that had a time that covers the deficit |
| `RateControl.EarnedBound` | ADK_CODE/adk/src/rate_control.cpp:107-111 | the binary time units never earn more than the rate allows |
| `RateControl.RefillBound` | ADK_CODE/adk/src/rate_control.cpp:58-85 | a refill, burst resets included, adds at most the rate over the elapsed time and never exceeds the burst |
| `RateControl.RefillAtLeast` | ADK_CODE/adk/src/rate_control.cpp:58-85 | a refill gives the burst, or at least what the elapsed time covers at the rate per second or millisecond, with 1024 ns to spare for rounding |
| `RateControl.EarnedAtLeast` | ADK_CODE/adk/src/rate_control.cpp:107-111 | so does the wait |
| `FormData.RoundTrip` | ADK_CODE/adk/src/http_util.cpp:58-97 | UrlDecode(UrlEncode(s)) == s for every byte string, and no assert of the decoder fails |
| `FormData.HexRoundTrip` | ADK_CODE/adk/src/http_util.cpp:42-56 | FromHex undoes ToHex |
| `FormData.EncodeIsSafe` | ADK_CODE/adk/src/http_util.cpp:58-80 | an encoded string holds only unreserved characters of RFC 3986, + and % |
| `FormData.UrlEncode` | ADK_CODE/adk/src/http_util.cpp:58-80 | the loop computes the encoding that RoundTrip speaks of |
| `FormData.UrlDecode` | ADK_CODE/adk/src/http_util.cpp:82-97 | the loop computes the decoding, failing exactly where an assert fails |
| `FormData.ParsePostData` | ADK_CODE/adk/src/http_util.cpp:99-111 | the loop computes the map that ParsePrint speaks of |
| `FormData.ParsePrint` | ADK_CODE/adk/src/http_util.cpp:99-111 | parsing any non-empty list of encoded key=value pairs joined by & gives the last-wins map |
| `FormData.LastWinsIs` | ADK_CODE/adk/src/http_util.cpp:104-108 | that map has exactly the keys of the pairs, each with the value of its last pair |
| `FormData.EmptyDataHasOneEntry` | ADK_CODE/adk/src/http_util.cpp:99-111 | the empty string parses to one empty key with an empty value |
| `FormData.UnreservedAre` | ADK_CODE/adk/src/http_util.cpp:64-68 | the bytes that stand for themselves are the letters, digits and four marks |
| `FormData.CodeOf` | ADK_CODE/adk/src/http_util.cpp:58-80 | the code of each byte: itself, + for a space, or % and two upper-case digits of its value |
| `FormData.EncodeConcat` | ADK_CODE/adk/src/http_util.cpp:58-80 | each byte is encoded by itself |
| `FormData.LowerHex` | ADK_CODE/adk/src/http_util.cpp:47-56 | lower-case digits decode like upper-case ones |
| `FormData.SplitAtFirst` | ADK_CODE/adk/src/http_util.cpp:104-108 | an item is split at its first =, whatever follows; without one it is its own key and value |
| `Base64.RoundTrip` | ADK_CODE/adk/src/etcd_http_client.cpp:274-378 | Base64Decode(Base64Encode(x)) == x for every byte string, although the tail looks up zero bytes and gets 255 |
| `Base64.EncodeShape` | ADK_CODE/adk/src/etcd_http_client.cpp:274-323 | 4 * ceil(n / 3) characters, the first ceil(4 * n / 3) of the alphabet and the rest padding, as in section 4 of RFC 4648 |
| `Base64.AlphabetIs` | ADK_CODE/adk/src/etcd_http_client.cpp:23-26 | the symbol of each sextet is the alphabet's character at that place |
| `Base64.LookupIsFind` | ADK_CODE/adk/src/etcd_http_client.cpp:339-342 | looking a character up gives its only place in the alphabet, or 255 exactly for characters outside it |
| `Base64.Base64Encode` | ADK_CODE/adk/src/etcd_http_client.cpp:274-323 | the loop computes the encoding that RoundTrip speaks of |
| `Base64.Base64Decode` | ADK_CODE/adk/src/etcd_http_client.cpp:325-378 | the loop computes the decoding, stopping at the first character outside the alphabet |
| `Base64.UnusedBitsAreZero` | ADK_CODE/adk/src/etcd_http_client.cpp:302-322 | the bits of the last sextet that no byte uses are zero |

## Left out

- Weak memory ordering: steps are sequentially consistent, as the barriers and atomics of the code ask for.
- Integer widths: sequence numbers, positions and service counters are unbounded; the counters of topologySort, the header fields of the ring, the length field of the socket stream and byte values have their width.
- Queue internals and capacities (MPSC and SPSC queues, `ContinueMemory`, WAL): FIFO queues without a limit, so back-pressure and full-queue errors are not modelled.
- RDMA, sockets, pipes, shared-memory mapping, signals, logging, monitoring and property trees: I/O.
- Timers, thread pools, object and memory pools: they would add only bump-allocator members or rest on containers not shown.
- Latency statistics, futex hints and indicators of the sharding code: they do not affect order.
- Follower: the trial dies only inside application callbacks; realtime itself does not crash.
- Follower.FollowerIsSafe: excludes runs with an idle restart, after each of which a message can be lost.
- SeqLockSteps: exactness of the word is stated with atomic calls only, since ClearLosesUnlock refutes it for single accesses; index masks are remainders by a power of two.
- SeqLockLoss.NothingLostWithoutClash: excludes steps that store an unlock in an entry about to be cleared, after which ClashErases loses it.
- AsyncRing.AsyncSender.Copy: asks that the record stay inside ring and spill; the code would write outside its memory.
- AsyncRing.AsyncSender.SendOne: asks that the record read stay inside ring and spill, which an overwritten length need not.
- Replication.ReplicasFollowLeader: covers runs whose copies are Safe, since GuardAdmitsOverrun overwrites a record without that.
- Replication: applications call SendMsg on the active leader only, and the transport of the loop-back topic is one FIFO for all nodes; of a leader that begins a recovery while it is at work only its own order and the multiset of its runs are stated; the drop counters of the kinds are one.
- SchedulerTurns.EveryTagIsReached: for pops between which no tag is blocked, since BlockPostpones can put off a tag each time.
- Scheduler: budgets are not negative; a tag's bit maps are sets, so the limit on tags is not modelled; the exit path and message drop at exit.
- ByteBuffer: callers append within the memory, declare valid only appended bytes and consume at most what remaining() reported.
- Deframer: the loops are proved for streams of messages whose length is between the header size and 256; for other lengths only what ZeroLengthSpins, PositiveLengthsEnd and OversizeStalls state, and a negative length, which makes the code read outside its buffer, not at all.
- RateControl: a wait that is still polling when the list of polls ends is reported as Waiting; grants of concurrent callers are not modelled.
- FormData, Base64: the locale-dependent character classes are those of the C locale; a failed assert is a result of its own.
