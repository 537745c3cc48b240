# Llumnix: a verified model

This project models the parts of the Llumnix gateway, scheduler and vLLM connector where state is shared,
moved or counted, and proves what they keep. Each module stands for one component:

- **Batch service** (`BatchStatus`, `BatchProtocol`, `BatchSafety`, `BatchResults`, `BatchTheorems`,
  `BatchDelivery`, `BatchCounterexamples`, `BatchStore`, `BatchPipeline`, `BatchFinalize`, `BatchEndToEnd`). One task
  is worked on by any number of validators, shard workers, finalizers, cancel handlers, cancel reactors and expirers
  that share Redis sets, a task hash, lock keys and an object store. Every Redis command or script is one atomic
  event; results hold for every schedule of events, store errors, crashes and lock expiries included. The file
  pipeline (read lines, shard, answer, concatenate) is modelled byte by byte, from the input to the final files.
- **KV transfer** (`BlockTransfer`): the coalesced copies of the mooncake connector against one copy per block.
- **Migration** (`MigrationProtocol`, `MigrationConnector`): handing a generating request to another engine.
- **Scheduler ledger** (`LocalAccount`, `RequestIndex`, `LocalAccountEditor`, `LedgerRuns`): five in-flight
  counters, per-request accounts and a reverse index whose backing array is shifted while it is walked.
- **Local realtime state** (`RealtimeState`, `RealtimeStore`): three indexes over shared request objects, refining
  a plain set of records.
- **Prefix cache** (`TokenHasher`, `PrefixKeys`, `RunningKeys`, `PrefixHits`, `PrefixLookup`): block keys,
  hit lengths and both together.
- **Rescheduling** (`Balance`, `Failover`): pairing by load, round robin, conflict checks, failover domains.
- **Connection pool** (`ClientPool`), **gateway retry** (`GatewayRetry`), **prediction** (`Prediction`).

`Wrappers`, `Lists` and `Arithmetic` hold shared types and facts. `dafny verify dfyconfig.toml` checks everything.

## What the code does not keep

Some promises are false of the code. For each, a lemma gives the exact condition and, where the failing run is
not obvious, another gives a concrete one:

- A task leaves all status sets iff an expirer moves it from expired to expired
  (`ExactlyOneSetIff`, `ExpiredTwiceIsLost`).
- A finalizer whose first move hits a store error deletes the shard sets of a task that stays in finalizing, and the
  next finalizer completes the task with no output. The completed set is complete iff this has not happened
  (`FinalizingMeansAllCompletedIff`, `FailedFirstMoveLosesAll`, `FailedFirstMoveFromInitial`); at the move itself it
  always is (`MoveToFinalizingMeansAllCompleted`).
- A worker that recovers a shard which has meanwhile completed deletes that shard's results before it processes it
  again; the step keeps the results iff the shard is not completed (`DeletingKeepsResultsIff`,
  `StaleRecoveryLosesResults`).
- What a completed task delivers is complete iff its finalizer left no shard out (`DeliversAllIff`); without the two
  accidents above it never does (`CompletedDeliversAll`).
- A cancel reactor goes on when a pending shard cannot be moved; its clean-up starts on a drained task iff no such
  shard is still pending (`CleanUpStartsDrainedIff`, `CleanUpCanStartUndrained`).
- A completed task stays completed iff no expirer that read that status moves it (`CompletedStaysIff`,
  `CompletedTaskCanExpire`).
- A pull that reaches the source worker before it knows the blocks is acknowledged and never answered; a settled
  migration is decided iff this has not happened (`SettledMeansDecidedIff`, `EarlyPullStrands`).
- A full connection pool refuses although another connection is idle iff its last one is borrowed
  (`CreateClient`, `RejectsWithIdleConnection`).
- Writing no lines does not read back as no lines (`RoundTripIff`).
- A revert leaves the request counter one too high and forgets the index entries of other instances; a release
  after the request was found counts twice; a release clears the index only for up to two instances
  (`RevertUndoesAllButOne`, `RevertKeepsIndexIff`, `ReleaseExactIff`, `ReleaseClearsIff`).
- A realtime-state release trusts the caller's instance and gateway (`ReleaseKeepsValidIff`).
- Zero padding makes distinct incomplete blocks share a key (`PaddingCollides`, `LastXxKeyIff`), and hit lengths
  count a first run that need not start at block 0 (`CountsPrefixIff`).
- With mixed data-parallel settings an instance can be failover source and destination (`AlwaysDisjointIff`), and in
  the node domains a marked instance without a node id is failed over only if another mark reaches its unit
  (`MarkedIsFailedOverIff`).
- The predicted progress is compared with the backlog that is left instead of the one at the start, so that hardly
  any elapsed time is reported as progress (`ReportedIff`); a running batch larger than the backlog makes the
  report negative (`ReportedNegativeIff`).
- A whole block is credited for an incomplete last block, so the miss count can be negative (`MissNegativeIff`); an
  instance without any hit keeps a miss count of zero and so looks better than one with a partial hit
  (`MissIsUncreditedIff`, `MoreCreditFewerMissesIff`).

Where comments and code disagree the model follows the code: the comment in the ledger says a duplicate add cannot
happen, but the code skips one and so does the model; the comment on retries says all states of a request are
released before a retry, which `ReleaseClearsEveryAccountIff` shows for at most two instances only; the store's
`WriteLines` also appends a newline to an empty list of lines.

## Model

| member | source | states |
|---|---|---|
| `BatchStatus.MoveMeaning` | pkg/gateway/batch/redis_store.go:583-643 | What the move script does to the sets that hold an id: with distinct source and destination the id moves iff the source holds it, and a failed move changes nothing; with equal ones the id is dropped and success is still reported. |
| `BatchStatus.MoveKeepsSingleIffDistinct` | pkg/gateway/batch/redis_store.go:583-643 | An id held by exactly its source set is afterwards in exactly one set iff source and destination differ. |
| `BatchStore.RedisStore.CreateTask` | pkg/gateway/batch/redis_store.go:227-229 | A new task enters the pending set and the global set, its status field is written, and no other task is touched. |
| `BatchStore.RedisStore.AddTask` | pkg/gateway/batch/redis_store.go:1124-1127 | SADD: the id is in that set afterwards, and the result says whether it was new. |
| `BatchStore.RedisStore.RemoveTask` | pkg/gateway/batch/redis_store.go:1130-1133 | SREM: the id is not in that set afterwards, and the result says whether it was there. |
| `BatchStore.RedisStore.MoveTaskAtomically` | pkg/gateway/batch/redis_store.go:646-675 | The script run command by command, with its compensating SREM, equals the one-shot meaning of a move; other ids are untouched. |
| `BatchStore.RedisStore.MoveTaskAndUpdateStatusAtomically` | pkg/gateway/batch/redis_store.go:583-643 | As the plain move; the status field and the time stamps are written iff the move succeeds, the arrival in progress only the first time. |
| `BatchStore.FirstArrivalIsKept` | pkg/gateway/batch/redis_store.go:607-632 | Over any run of moves the first arrival in progress is kept and no time stamp is removed. |
| `BatchStore.RedisStore.AddShard` | pkg/gateway/batch/redis_store.go:834-837 | SADD on a shard set. |
| `BatchStore.RedisStore.RemoveShard` | pkg/gateway/batch/redis_store.go:846-862 | SREM on a shard set. |
| `BatchStore.RedisStore.AddShardToPendingList` | pkg/gateway/batch/redis_store.go:834-837 | The shard is pending afterwards; other shard sets are untouched. |
| `BatchStore.RedisStore.MoveShardAtomically` | pkg/gateway/batch/redis_store.go:840-870 | The shard move script equals the one-shot meaning of a move for that shard and leaves all others alone. |
| `BatchStore.RedisStore.CheckIfAllShardsAreCompleted` | pkg/gateway/batch/redis_store.go:895-932 | True iff no shard of the task is pending or in progress. |
| `BatchStore.RedisStore.DeleteShards` | pkg/gateway/batch/redis_store.go:1157-1164 | Deletes one shard set and the records of the listed shards, and nothing else. |
| `BatchStore.RedisStore.RemoveShardInfo` | pkg/gateway/batch/redis_store.go:1152-1165 | Deletes one shard set of the task and the records of the shards in it, and nothing else. |
| `BatchStore.RedisStore.AcquireLock` | pkg/gateway/batch/redis_store.go:937-940 | SETNX with expiry: succeeds iff no live lock is there. |
| `BatchStore.RedisStore.ExtendLock` | pkg/gateway/batch/redis_store.go:965-985 | Extends iff the caller owns the live lock. |
| `BatchStore.RedisStore.AcquireOrRecoverShardLock` | pkg/gateway/batch/redis_store.go:1021-1065 | Takes the lock when it is free, the caller's own, or reported with no time left. |
| `BatchStore.RedisStore.ReleaseLock` | pkg/gateway/batch/redis_store.go:943-962 | Deletes the lock iff the caller owns it. |
| `BatchStore.LockOutlivesOthers` | pkg/gateway/batch/redis_store.go:937-1087 | Until it expires, no run of commands by other owners reassigns, shortens or deletes a lock, as long as no recovery reads a time to live of zero. |
| `BatchStore.RecoveryRespectsIff` | pkg/gateway/batch/redis_store.go:1021-1065 | Recovery leaves the live lock of another owner alone iff the reported time to live is positive. |
| `BatchStore.LastHalfSecond` | pkg/gateway/batch/redis_store.go:1021-1065 | With times to live rounded to the nearest second, a lock in its last half second can be taken over; on a whole-second clock it cannot. |
| `BatchSafety.ShardMovesAreScript` | pkg/gateway/batch/redis_store.go:840-870 | The shard commands of the protocol are the move script, seen from the shard they name, and leave every other shard alone. |
| `BatchSafety.ValidatorOk` | pkg/gateway/batch/reactor.go:202-271 | Every step of a validator keeps the protocol invariant and respects all other actors. |
| `BatchSafety.WorkerOk` | pkg/gateway/batch/reactor.go:393-540 | The same for every step of a shard worker, its recovery of in-progress shards included. |
| `BatchSafety.CancelHandlerOk` | pkg/gateway/batch/handlers.go:548-588 | The same for the cancel request handler. |
| `BatchSafety.CancelReactorOk` | pkg/gateway/batch/reactor.go:1190-1283 | The same for the cancel reactor, which goes on when the move of a shard fails. |
| `BatchSafety.ExpirerOk` | pkg/gateway/batch/reactor.go:936-962 | The same for the expirer. |
| `BatchSafety.FinalizerOk` | pkg/gateway/batch/reactor.go:1017-1187 | The same for the finalizer, which cleans up whatever its processing ended in. |
| `BatchSafety.EventKeeps` | pkg/gateway/batch/reactor.go:151-1338 | Every event of every actor, a store error, a crash or a lock expiry included, keeps the protocol invariant. |
| `BatchSafety.Reachable` | pkg/gateway/batch/reactor.go:151-1338 | The invariant holds after every schedule of any number of actors. |
| `BatchResults.ReachableResults` | pkg/gateway/batch/reactor.go:683-800 | After every schedule in which no worker deleted the files of a completed shard and no first move of a finalizer hit a store error, result files and request counts are where the actors rely on them. |
| `BatchTheorems.FinalizingMeansAllCompletedIff` | pkg/gateway/batch/reactor.go:393-422 | Checking the shards and moving the task are separate steps, yet whenever the task is in finalizing no shard is pending, in progress or failed, and every shard is completed iff no finalizer has wiped the completed set, which takes a failed first move. |
| `BatchTheorems.MoveToFinalizingMeansAllCompleted` | pkg/gateway/batch/reactor.go:393-422 | At the very event that moves the task from in_progress to finalizing, in every schedule and without exception, every shard of the input is completed and none is pending, in progress or failed. |
| `BatchTheorems.LogRecordsMishaps` | pkg/gateway/batch/reactor.go:151-1338 | For every schedule: the task was dropped, a first move failed, the completed set was wiped, completed results were deleted, or a shard was left out, iff the schedule has the event that does so. |
| `BatchTheorems.CleanedOnlyWhenDrained` | pkg/gateway/batch/reactor.go:1221-1283 | The shard sets of a finalized task are deleted only when no shard is pending or in progress; while those of a cancelled task are deleted, at most shards are left whose move to failed hit a store error in that round. |
| `BatchTheorems.CleanUpStartsDrainedIff` | pkg/gateway/batch/reactor.go:1248-1283 | The clean-up of a cancelled task starts with no shard pending or in progress iff no shard that could not be moved is still pending. |
| `BatchTheorems.EachShardRunsOnce` | pkg/gateway/batch/reactor.go:485-501 | However many workers race and recover, each shard enters in_progress at most once and leaves it at most once, and exactly once when the task is finalizing, finalize or completed, whatever went wrong. |
| `BatchTheorems.CompletedDeliversAll` | pkg/gateway/batch/reactor.go:1073-1118 | A task recorded as completed delivers the results of every shard, unless a worker deleted the files of a completed shard or the first move of a finalizer hit a store error. |
| `BatchDelivery.ReachableDelivery` | pkg/gateway/batch/reactor.go:1040-1118 | After every schedule, what a finalizer has appended and still will append is everything iff it has left nothing out, and only one finalizer ever delivers. |
| `BatchDelivery.DeliversAllIff` | pkg/gateway/batch/reactor.go:1040-1118 | Over every schedule a task recorded as completed delivers the results of every shard iff its finalizer listed every shard and found the result files of each when it appended them. |
| `BatchTheorems.DeletingKeepsResultsIff` | pkg/gateway/batch/reactor.go:702-707 | The clean-up before processing keeps the results of completed shards iff the shard is not itself completed: the exact guard of the step that can lose results. |
| `BatchTheorems.StatusOnlyRises` | pkg/gateway/batch/reactor.go:212-293 | Every change of the task's status strictly raises its rank, or drops it out of expired. |
| `BatchTheorems.CompletedLeavesIff` | pkg/gateway/batch/reactor.go:936-962 | A completed task leaves completed by an event iff that event is the move of an expirer that read the status completed. |
| `BatchTheorems.CompletedStaysIff` | pkg/gateway/batch/reactor.go:915-962 | Over every schedule: once completed, a task is still completed iff the schedule has no such move. |
| `BatchTheorems.ExactlyOneSetIff` | pkg/gateway/batch/redis_store.go:583-675 | After every schedule the task is in exactly one status set iff no such self-move happened, and in none otherwise. |
| `BatchTheorems.BoundedMoves` | pkg/gateway/batch/reactor.go:212-1234 | A task makes at most seven moves, eight with a self-move, so it never revisits a status. |
| `BatchCounterexamples.ExpiredTwiceIsLost` | pkg/gateway/batch/reactor.go:950-956 | A schedule of two expirers that leaves the task in no status set. |
| `BatchCounterexamples.StaleRecoveryLosesResults` | pkg/gateway/batch/reactor.go:807-838 | A schedule in which a task is recorded as completed although the result of its shard was not delivered. |
| `BatchCounterexamples.FailedFirstMoveLosesAll` | pkg/gateway/batch/reactor.go:876-883 | From every reachable state in which a finalizer is about to make its first move, a store error there can empty the completed set of a task in finalizing and complete the task with no output. |
| `BatchCounterexamples.FailedFirstMoveFromInitial` | pkg/gateway/batch/reactor.go:1017-1023 | Such a run from the start, for a task with one shard. |
| `BatchCounterexamples.CleanUpCanStartUndrained` | pkg/gateway/batch/reactor.go:1258-1276 | A schedule in which the clean-up of a cancelled task starts while a shard is pending. |
| `BatchCounterexamples.CompletedTaskCanExpire` | pkg/gateway/batch/reactor.go:915-962 | A schedule in which a task that completed and delivered everything is moved to expired. |
| `BatchPipeline.RoundTripIff` | pkg/gateway/batch/oss_client.go:169-194 | Reading back written lines gives the lines iff there is at least one and none holds a newline. |
| `BatchPipeline.ReadAppended` | pkg/gateway/batch/oss_client.go:197-219 | Appending written files concatenates their lines. |
| `BatchPipeline.ObjectStore.AppendToObject` | pkg/gateway/batch/oss_client.go:197-219 | Appends at the caller's position iff that is the length of the object; a missing source changes nothing. |
| `BatchPipeline.ObjectStore.Put` | pkg/gateway/batch/oss_client.go:187-194 | Writing lines replaces exactly one object. |
| `BatchPipeline.ObjectStore.Delete` | pkg/gateway/batch/oss_client.go:99-119 | Deletes exactly the named objects. |
| `BatchPipeline.NonBlankLines` | pkg/gateway/batch/reactor.go:303-325 | The kept lines begin and end with a byte that is not white space, are not blank and are free of newlines. |
| `BatchPipeline.CreateFileShard` | pkg/gateway/batch/reactor.go:350-374 | Stores one more shard under the next number and keeps all earlier ones. |
| `BatchPipeline.AddLine` | pkg/gateway/batch/reactor.go:326-338 | Adds a line and closes the shard when it is full; no line is lost, moved or repeated. |
| `BatchPipeline.CloseLastShard` | pkg/gateway/batch/reactor.go:339-347 | The left-over lines make the last shard, and the whole is a sharding of all lines. |
| `BatchPipeline.ShardInputFile` | pkg/gateway/batch/reactor.go:303-347 | The stored shards are the non-blank lines in order, all full but the last, none empty; the call stops iff a look at the status before a kept line shows a change. |
| `BatchPipeline.ShardingIsUnique` | pkg/gateway/batch/reactor.go:303-347 | There is only one such sharding, so the contract determines every stored byte. |
| `BatchFinalize.ProcessShard` | pkg/gateway/batch/reactor.go:702-800 | Output and error file of the shard hold exactly the lines of its successful and failed answers, absent when there are none, and the counts say how many; the call stops iff the status changed. |
| `BatchFinalize.StoredShardReadsBack` | pkg/gateway/batch/reactor.go:350-374 | A stored shard reads back as itself, so exactly its lines are answered. |
| `BatchFinalize.AppendShard` | pkg/gateway/batch/reactor.go:1073-1101 | Appending a listed shard file at the tracked position always succeeds and extends the final file by it. |
| `BatchFinalize.AppendBoth` | pkg/gateway/batch/reactor.go:1073-1101 | The same for the output and the error file of a shard. |
| `BatchFinalize.Finalize` | pkg/gateway/batch/reactor.go:1040-1125 | No append is ever rejected; the final files are the shard files in listing order, absent when no shard has one, and the counts are the sums; it stops iff the status changed. |
| `BatchFinalize.GatherAnyOrder` | pkg/gateway/batch/reactor.go:1073-1118 | Whatever order the shards are listed in, the same answers are gathered. |
| `BatchFinalize.AllAnswered` | pkg/gateway/batch/reactor.go:742-770 | Line k of the batch is answered once, as request k modulo size of shard k divided by size. |
| `BatchFinalize.EveryLineAnsweredOnce` | pkg/gateway/batch/reactor.go:303-1118 | For every input, shard size, answers and listing order: once all shards are done, the final files read back as one answer per non-blank line, and Completed and Failed are their lengths and add up to Total, the number of lines. |
| `BatchEndToEnd.ProcessAll` | pkg/gateway/batch/reactor.go:461-540 | Whatever shard is taken next, in the end every shard has its result files and its counts, and processing one leaves the others alone; it stops iff the status changed during a line. |
| `BatchEndToEnd.GatherAll` | pkg/gateway/batch/reactor.go:1040-1118 | The completed shards listed in any order give final files with one answer per line and their counts; it stops iff the status changed. |
| `BatchEndToEnd.RunBatch` | pkg/gateway/batch/reactor.go:202-1118 | From the input bytes to the final files: an uninterrupted batch leaves two files that read back as exactly one answer for every non-blank line, with their counts, and it is interrupted iff some look at the task status says so. |
| `BlockTransfer.GroupsAreMaximalRuns` | patches/vllm/mooncake/mooncake_connector_v1.py:1148-1163 | Grouping loses, reorders and repeats nothing; every group is contiguous on both sides; the groups are maximal. |
| `BlockTransfer.RunIsBlocks` | patches/vllm/mooncake/mooncake_connector_v1.py:898-952 | A contiguous run copied at once leaves memory as its blocks copied one by one. |
| `BlockTransfer.LayerRefinesPerBlock` | patches/vllm/mooncake/mooncake_connector_v1.py:925-947 | One layer of a request: grouped copies have the effect of per-block copies. |
| `BlockTransfer.EqualLengthsGroup` | patches/vllm/mooncake/mooncake_connector_v1.py:1148-1163 | For equally long lists the array operations give the grouping into maximal runs. |
| `BlockTransfer.FewerBlocksGroup` | patches/vllm/mooncake/mooncake_connector_v1.py:1148-1163 | For fewer local than remote blocks: when the array operations raise an error, when they leave an empty group, and otherwise which groups they give. |
| `BlockTransfer.RequestRefinesPlain` | patches/vllm/mooncake/mooncake_connector_v1.py:910-947 | A whole request: grouped copies of the aligned local suffix have the effect of per-block copies. |
| `BlockTransfer.GroupedRefinesPlain` | patches/vllm/mooncake/mooncake_connector_v1.py:898-952 | For all block lists, layers and memories the grouped batch leaves every remote byte as the plain batch does. |
| `BlockTransfer.AppendLayer` | patches/vllm/mooncake/mooncake_connector_v1.py:925-947 | The loop over the groups of a layer appends exactly its grouped copies, and raises an error iff a local group is empty. |
| `BlockTransfer.AppendRequest` | patches/vllm/mooncake/mooncake_connector_v1.py:910-947 | The loop over the layers appends exactly the request's grouped copies, and raises an error iff the request is mismatched. |
| `BlockTransfer.SendBlocks` | patches/vllm/mooncake/mooncake_connector_v1.py:898-952 | The built batch is the grouped batch and has the effect of the plain one; it fails iff some request has fewer local than remote blocks, array broadcasting of one or two local blocks excepted. |
| `MigrationProtocol.RunKeeps` | patches/vllm/mooncake/mooncake_connector_v1.py:419-578 | The two-engine invariant holds along every run. |
| `MigrationProtocol.ExactlyOneOwner` | patches/vllm/mooncake/mooncake_connector_v1.py:536-571 | In every reachable state exactly one of source, hand-over message and destination has the request; it is never runnable on both engines. |
| `MigrationProtocol.AtMostOneVerdict` | patches/vllm/mooncake/mooncake_connector_v1.py:484-571 | Every accepted migration is announced, registered or answered, one place at a time, and gets at most one verdict. |
| `MigrationProtocol.MovingOnIsBounded` | patches/vllm/mooncake/mooncake_connector_v1.py:419-578 | Every migration event changes nothing or lowers a rank of at most eight. |
| `MigrationProtocol.SettledMeansDecidedIff` | patches/vllm/mooncake/mooncake_connector_v1.py:866-896 | When nothing more can move, an accepted migration has exactly one verdict, handled by both engines, iff its pull was not answered without sending; otherwise the source keeps the request and the copy waits. |
| `MigrationProtocol.EarlyPullStrands` | patches/vllm/mooncake/mooncake_connector_v1.py:870-876 | A run in which the destination pulls before the source worker knows the blocks, and nothing can move any more. |
| `MigrationProtocol.HandoverIsExact` | patches/vllm/mooncake/mooncake_connector_v1.py:489-500 | A hand-over finds the copy waiting, and leaves it with exactly the tokens the source released. |
| `MigrationProtocol.OutputIsTheStream` | patches/vllm/mooncake/mooncake_connector_v1.py:419-578 | Across any run the owner's output is the initial tokens followed by every generated token once, in order. |
| `MigrationProtocol.FinishedIsNeverHandedOver` | patches/vllm/mooncake/mooncake_connector_v1.py:536-557 | A request that finished at its source never becomes runnable at the destination. |
| `MigrationConnector.SourceConnector.HandleRegister` | patches/vllm/mooncake/mooncake_connector_v1.py:484-487 | Exactly the listed requests get the path. |
| `MigrationConnector.SourceConnector.UpdateConnectorOutput` | patches/vllm/mooncake/mooncake_connector_v1.py:419-438 | Transfer results are sorted into success queue, failed queue and unrelated results, in order. |
| `MigrationConnector.SourceConnector.ProcessSuccessQueue` | patches/vllm/mooncake/mooncake_connector_v1.py:536-557 | The loop acts entry by entry as the success step. |
| `MigrationConnector.SourceConnector.ProcessFailedQueue` | patches/vllm/mooncake/mooncake_connector_v1.py:559-571 | The loop acts entry by entry as the failed step. |
| `MigrationConnector.SuccessQueueIsStep` | patches/vllm/mooncake/mooncake_connector_v1.py:536-557 | Processing the whole success queue is, for each request, one step of the protocol or nothing. |
| `MigrationConnector.FailedQueueIsStep` | patches/vllm/mooncake/mooncake_connector_v1.py:559-571 | Processing the whole failed queue is, for each request, one step of the protocol or nothing. |
| `LocalAccount.AddChangesDrift` | pkg/cms/instance_status_local_account.go:177-236 | An add changes the distance of a counter from its sum by exactly the stated amount: none, except for a second stage. |
| `LocalAccount.SecondStageExactIff` | pkg/cms/instance_status_local_account.go:189-235 | A second-stage add leaves all counters exact iff the account is unfound and the relevant count is equal. |
| `LocalAccount.ReconcileKeepsDrift` | pkg/cms/instance_status_local_account.go:57-92 | Reconciling an account, found, finished or stale, changes no counter's distance from its sum. |
| `LocalAccount.ReleaseChangesDrift` | pkg/cms/instance_status_local_account.go:125-156 | A release of an already found account takes its weight off a second time, and nothing else changes. |
| `LocalAccount.ReleaseExactIff` | pkg/cms/instance_status_local_account.go:265-267 | A release leaves all counters exact iff the account, if any, was not found before. |
| `LocalAccount.RevertChangesDrift` | pkg/cms/instance_status_local_account.go:238-248 | The exact effect of a revert on every counter's distance from its sum. |
| `LocalAccount.RevertUndoesAllButOne` | pkg/scheduler/policy/scheduling_policy.go:364-393 | Reverting a fresh prefill add restores the ledger except for the request counter, which stays one too high. |
| `LocalAccount.ReleaseUndoesAdd` | pkg/cms/instance_status_local_account.go:177-236 | Releasing a fresh add restores the ledger. |
| `LocalAccount.RunDrift` | pkg/cms/instance_status_local_account.go:57-287 | Over any run the counters are off by exactly the sum of the single effects. |
| `LocalAccount.OrderlyRunDrift` | pkg/cms/instance_status_local_account.go:57-248 | In every orderly run four counters equal their sums over unfound accounts and the request counter exceeds its sum by the number of reverts. |
| `LocalAccount.OrderlyRunExactIff` | pkg/cms/instance_status_local_account.go:57-248 | In an orderly run all five counters are exact iff there was no revert. |
| `RequestIndex.DropIsWithout` | pkg/cms/instance_status_local_account.go:276-287 | Shifting the backing array down removes exactly the first occurrence from the slice. |
| `RequestIndex.ReleaseLeavesSurvivors` | pkg/cms/instance_status_local_account.go:252-272 | The release loop over the shifting array leaves exactly every second instance without the last, for any number of instances. |
| `RequestIndex.ReleaseClearsIff` | pkg/cms/instance_status_local_account.go:252-287 | A release clears the entry iff it lists at most two instances; otherwise (n-1)/2 stay. |
| `LocalAccountEditor.AppendKeepsIndex` | pkg/cms/instance_status_local_account.go:206-218 | Appending the instance of a new account keeps the index exact. |
| `LocalAccountEditor.RemoveKeepsIndex` | pkg/cms/instance_status_local_account.go:276-287 | Removing an instance with its account keeps the index exact. |
| `LocalAccountEditor.RevertKeepsIndexIff` | pkg/cms/instance_status_local_account.go:238-248 | A revert, which forgets the whole entry, keeps the index exact iff no other instance holds the request. |
| `LocalAccountEditor.ReleaseKeepsIndex` | pkg/cms/instance_status_local_account.go:252-272 | A release keeps the index exact, survivors included. |
| `LocalAccountEditor.ShiftOut` | pkg/cms/instance_status_local_account.go:278-283 | The search-and-shift loop equals the shift of the backing array. |
| `LocalAccountEditor.Editor.AppendInstance` | pkg/cms/instance_status_local_account.go:206-218 | Appends to the entry, reusing a spare cell when there is one. |
| `LocalAccountEditor.Editor.RemoveInstance` | pkg/cms/instance_status_local_account.go:276-287 | Removes the instance from the entry, and the entry when it becomes empty. |
| `LocalAccountEditor.Editor.DeleteRequest` | pkg/cms/instance_status_local_account.go:125-156 | Takes the account's weight off the counters and, if asked, removes account and index entry. |
| `LocalAccountEditor.Editor.AddRequest` | pkg/cms/instance_status_local_account.go:177-236 | Ledger and index after an add: first stage, second stage or duplicate. |
| `LocalAccountEditor.Editor.RevertRequest` | pkg/cms/instance_status_local_account.go:238-248 | Ledger and index after a revert. |
| `LocalAccountEditor.Editor.ReconcileRequest` | pkg/cms/instance_status_local_account.go:64-92 | Ledger and index after one account met a report. |
| `LocalAccountEditor.Editor.Reconcile` | pkg/cms/instance_status_local_account.go:57-92 | All accounts of an instance against a report, in any order: which stay, which are found, which leave the index; no counter drifts. |
| `LocalAccountEditor.Editor.ReleaseRequest` | pkg/cms/instance_status_local_account.go:252-272 | The loop that walks a slice while it shifts: index entry and every ledger afterwards. |
| `LedgerRuns.RunStaysInStep` | pkg/cms/instance_status_local_account.go:57-287 | Over every run, reverts only while nobody else holds the request, each entry lists without repeats exactly the instances holding the account. |
| `LedgerRuns.RevertInStepIff` | pkg/cms/instance_status_local_account.go:238-248 | A revert keeps ledgers and index in step iff no other instance holds the request. |
| `LedgerRuns.ReleaseClearsEveryAccountIff` | pkg/cms/instance_status_local_account.go:252-272 | After a release no instance holds the request iff its entry named at most two. |
| `RealtimeState.AllocateKeepsValid` | pkg/lrs/local_realtime_state.go:332-367 | An allocation keeps the three indexes in agreement and the total exact. |
| `RealtimeState.ChangeKeepsValid` | pkg/lrs/local_realtime_state.go:147-179 | A change of a request object keeps the agreement and adjusts the total by the difference. |
| `RealtimeState.RemoveKeepsValid` | pkg/lrs/local_realtime_state.go:181-193 | A release under the recorded ids keeps the agreement; the total always covers the request, so the clamp at zero is never needed. |
| `RealtimeState.ReclaimKeepsValid` | pkg/lrs/local_realtime_state.go:244-259 | Removing an instance takes exactly its requests out of all indexes. |
| `RealtimeStore.AllocateRefines` | pkg/lrs/local_realtime_state.go:332-367 | Allocating on the three indexes is the allocation on the set of records. |
| `RealtimeStore.UpdateRefines` | pkg/lrs/local_realtime_state.go:369-388 | An update changes something iff the message names the recorded instance and gateway and more tokens; otherwise the result is the first check it does not pass. |
| `RealtimeStore.PrefillDoneRefines` | pkg/lrs/local_realtime_state.go:391-411 | A prefill-done message marks the record iff it names the recorded instance and a known gateway. |
| `RealtimeStore.ReleaseRefines` | pkg/lrs/local_realtime_state.go:413-432 | A matching release removes exactly the record. |
| `RealtimeStore.ReleaseKeepsValidIff` | pkg/lrs/local_realtime_state.go:413-432 | A release keeps the indexes in agreement iff it is turned away or names the recorded instance and gateway. |
| `RealtimeStore.RemoveInstanceRefines` | pkg/lrs/local_realtime_state.go:244-259 | Removing an instance removes exactly its records. |
| `RealtimeStore.AddInstanceRefines` | pkg/lrs/local_realtime_state.go:261-278 | A newer version replaces the instance and reclaims its records; an older one changes nothing. |
| `RealtimeStore.AddGatewayRefines` | pkg/lrs/local_realtime_state.go:284-288 | A new gateway starts with no requests. |
| `RealtimeStore.RemoveGatewayRefines` | pkg/lrs/local_realtime_state.go:290-308 | Removing a gateway removes exactly its records, in whatever order its set is walked. |
| `RealtimeStore.RunRefines` | pkg/lrs/local_realtime_state.go:244-432 | Over every run the store refines the plain set of records, so the indexes agree and totals are sums in every reachable state. |
| `RealtimeStore.TotalsAreSums` | pkg/lrs/local_realtime_state.go:48-53 | The total of every instance is the sum over its live requests and not negative. |
| `RealtimeStore.ExactlyOneOfEach` | pkg/lrs/local_realtime_state.go:209-216 | A request is recorded iff exactly one instance map holds it, as the same object, and exactly one gateway set. |
| `RealtimeStore.LateMessagesAreIgnored` | pkg/lrs/local_realtime_state.go:369-432 | Messages about a reclaimed request change nothing until its id is allocated again: the run equals the run without them. |
| `RealtimeStore.FailoverTotals` | pkg/lrs/local_realtime_state.go:244-308 | On the records: after removing or replacing an instance or removing a gateway, every total is the sum over the survivors. |
| `RealtimeStore.LateMessagesLeaveTotals` | pkg/lrs/local_realtime_state.go:369-432 | On the store: after a run with late messages the indexes agree and every total is that of the run without them. |
| `RealtimeStore.InstanceFailoverLeavesTotals` | pkg/lrs/local_realtime_state.go:244-278 | On the store: removing or replacing an instance leaves the totals of the others, and a replaced one starts at zero. |
| `RealtimeStore.GatewayFailoverLeavesTotals` | pkg/lrs/local_realtime_state.go:290-308 | On the store: removing a gateway takes exactly its requests out of every total. |
| `RealtimeStore.LocalRealtimeState.AllocateRequest` | pkg/lrs/local_realtime_state.go:332-367 | Outcome and all four maps after an allocation, error cases included. |
| `RealtimeStore.LocalRealtimeState.UpdateRequest` | pkg/lrs/local_realtime_state.go:369-388 | Outcome and all four maps after an update, error cases included. |
| `RealtimeStore.LocalRealtimeState.MarkPrefillComplete` | pkg/lrs/local_realtime_state.go:391-411 | Outcome and all four maps after a prefill-done message. |
| `RealtimeStore.LocalRealtimeState.ForgetRequest` | pkg/lrs/local_realtime_state.go:181-193 | Takes a request and its tokens off one instance, clamping as the code does. |
| `RealtimeStore.LocalRealtimeState.ReleaseRequest` | pkg/lrs/local_realtime_state.go:413-432 | All four maps after a release, whatever ids it names. |
| `RealtimeStore.LocalRealtimeState.AddGateway` | pkg/lrs/local_realtime_state.go:284-288 | A known gateway is left as it is. |
| `RealtimeStore.LocalRealtimeState.RemoveInstance` | pkg/lrs/local_realtime_state.go:244-259 | The loop over the requests of the instance reclaims all of them. |
| `RealtimeStore.LocalRealtimeState.AddInstance` | pkg/lrs/local_realtime_state.go:261-278 | Replaces only for a newer version. |
| `RealtimeStore.LocalRealtimeState.RemoveGateway` | pkg/lrs/local_realtime_state.go:290-308 | The loop over the gateway's set drops its requests one by one and then the gateway. |
| `TokenHasher.EncodeInjective` | pkg/scheduler/hasher/hash_func.go:58-66 | Fixed-width little-endian encodings of equally many in-range tokens are equal iff the tokens are. |
| `TokenHasher.HexRoundTrip` | pkg/scheduler/hasher/hash_func.go:47-55 | Decoding a hexadecimal digest gives the digest back. |
| `TokenHasher.Divide` | pkg/scheduler/hasher/token_hasher.go:58-63 | Integer division gives the number of full blocks, and the remainder says whether tokens are left. |
| `PrefixKeys.WriteTokens` | pkg/scheduler/hasher/hash_func.go:58-66 | Fails iff a token is outside the unsigned 32-bit range; otherwise the bytes of all tokens. |
| `PrefixKeys.HashBlockSha256Hex` | pkg/scheduler/hasher/hash_func.go:44-69 | Fails iff a token is out of range or the prior key is not a 32-byte digest; otherwise the digest of prior and block. |
| `PrefixKeys.HashFullBlocks` | pkg/scheduler/hasher/token_hasher.go:70-79 | The loop over the full blocks chains every key to the one before. |
| `PrefixKeys.HashTokensSha256Hex` | pkg/scheduler/hasher/token_hasher.go:55-92 | The keys of all blocks, the incomplete one with its suffix; fails iff the input is empty, the block size not positive or a used token out of range. |
| `PrefixKeys.ShaDigestIff` | pkg/scheduler/hasher/token_hasher.go:70-79 | Without collisions, the digest of a full block identifies every block up to it. |
| `PrefixKeys.SharedShaKeysIff` | pkg/scheduler/hasher/token_hasher.go:55-92 | Two prompts share their first k full-block keys iff they share the tokens of their first k blocks. |
| `PrefixKeys.FirstShaKeys` | pkg/scheduler/hasher/token_hasher.go:55-92 | The keys of the first k blocks are the first k keys of the prompt. |
| `RunningKeys.HashTokensSha256CBOR` | pkg/scheduler/hasher/token_hasher.go:94-135 | The loop computes the CBOR chain of all blocks, an incomplete last one included. |
| `RunningKeys.CborKeysIff` | pkg/scheduler/hasher/token_hasher.go:94-135 | Key lists of equal length are equal iff the blocks are, an incomplete last block included. |
| `RunningKeys.WriteBlock` | pkg/scheduler/hasher/hash_func.go:88-108 | Each key hashes everything written so far, an incomplete block padded with zeros. |
| `RunningKeys.HashTokensXxhash` | pkg/scheduler/hasher/token_hasher.go:141-155 | The running hash yields the key of every block. |
| `RunningKeys.XxKeyIff` | pkg/scheduler/hasher/hash_func.go:72-111 | Two keys of the same rank are equal iff everything written, padding included, is equal. |
| `RunningKeys.FullXxKeyIff` | pkg/scheduler/hasher/hash_func.go:88-94 | The key of a full block alone identifies the prompt up to its end. |
| `RunningKeys.PaddingCollides` | pkg/scheduler/hasher/hash_func.go:96-108 | An incomplete block and the same block with a zero appended get the same keys, whatever the hash. |
| `RunningKeys.SamePaddingIff` | pkg/scheduler/hasher/hash_func.go:96-108 | Blocks are padded to the same thing iff the longer is the shorter followed by zeros. |
| `RunningKeys.LastXxKeyIff` | pkg/scheduler/hasher/hash_func.go:88-108 | For whole prompts with the same number of blocks, the last one possibly incomplete: the last keys are equal iff the longer prompt is the shorter followed by zeros. |
| `PrefixHits.CalcInstancesPrefixCacheHitLen` | pkg/scheduler/policy/prefix_cache_utils.go:17-49 | The nested loop over keys and instances gives every instance the block size times its tracked run. |
| `PrefixHits.CountsFirstRun` | pkg/scheduler/policy/prefix_cache_utils.go:26-47 | What is tracked is the length of the first maximal run of hits. |
| `PrefixHits.CountsPrefixIff` | pkg/scheduler/policy/prefix_cache_utils.go:34-43 | It is the length of the cached block prefix iff block 0 hits or nothing does. |
| `PrefixHits.CountsLongestPrefix` | pkg/scheduler/policy/prefix_cache_utils.go:17-49 | For a prefix-closed cache it is the longest cached prefix. |
| `PrefixHits.GapIsCounted` | pkg/scheduler/policy/prefix_cache_utils.go:34-36 | A cache that misses block 0 but holds block 1 is credited with a block that is no prefix. |
| `PrefixLookup.DigestIdentifies` | pkg/scheduler/hasher/token_hasher.go:70-79 | Without collisions, the digest of full blocks identifies the blocks and how many they are, also across positions. |
| `PrefixLookup.KeyIsListed` | pkg/scheduler/hasher/token_hasher.go:70-92 | The key of the first n blocks is the key the hasher returns at position n-1. |
| `PrefixLookup.CachedIff` | pkg/scheduler/hasher/token_hasher.go:55-92 | A key is cached iff some cached prompt shares the new prompt up to that block. |
| `PrefixLookup.CachesArePrefixClosed` | pkg/scheduler/policy/prefix_cache_utils.go:17-49 | Caches of whole prompts are prefix-closed. |
| `PrefixLookup.CreditIsSharedPrefix` | pkg/scheduler/policy/prefix_cache_utils.go:17-49 | End to end: an instance is credited with exactly the longest block prefix the new prompt shares with any prompt it cached. |
| `PrefixLookup.MissNegativeIff` | pkg/scheduler/policy/prefix_cache_utils.go:107-118 | The miss count is negative iff incomplete blocks are saved, the prompt ends inside a block and the instance has every block; it is then below zero by the padding of the last block. |
| `PrefixLookup.MissIsUncreditedIff` | pkg/scheduler/policy/prefix_cache_utils.go:107-118 | The miss count is the number of tokens not credited iff some block hits or the prompt is empty; an instance without hits keeps the initial zero. |
| `PrefixLookup.MoreCreditFewerMissesIff` | pkg/scheduler/policy/prefix_cache_utils.go:107-118 | Of two instances the one with more credit has the smaller miss count iff the other has a hit too or the credit exceeds the prompt. |
| `Balance.PairLists` | pkg/scheduler/policy/rescheduling_selectors.go:105-124 | Sorts both lists and pairs equal indexes up to the first that does not move load downwards. |
| `Balance.StoppingLosesNothing` | pkg/scheduler/policy/rescheduling_selectors.go:111-117 | An index improves iff it is before the stop, so stopping loses no improving pair. |
| `Balance.NobodyTwice` | pkg/scheduler/policy/rescheduling_selectors.go:105-124 | No instance occurs in two pairs, not even as a source and a destination. |
| `Balance.SelectInCluster` | pkg/scheduler/policy/rescheduling_selectors.go:127-137 | Cluster scope: candidates only, downwards only, nobody twice, and some pair iff some source is heavier than some destination. |
| `Balance.SelectInUnits` | pkg/scheduler/policy/rescheduling_selectors.go:139-170 | Unit scope: the same inside every unit, and instances without a unit are left alone. |
| `Balance.SelectRoundRobin` | pkg/scheduler/policy/rescheduling_selectors.go:180-229 | Sources and destinations each once, in id order, paired modulo the number of destinations. |
| `Balance.RoundRobinIsFair` | pkg/scheduler/policy/rescheduling_selectors.go:180-229 | With disjoint candidates every source is paired exactly once. |
| `Balance.ReceivedIsShare` | pkg/scheduler/policy/rescheduling_selectors.go:212-215 | With disjoint candidates a destination receives exactly the sources of its residue. |
| `Balance.RoundRobinIsEven` | pkg/scheduler/policy/rescheduling_selectors.go:212-215 | Of two destinations the earlier receives as many sources as the later or one more, and which of the two is decided by the remainder. |
| `Balance.RoundRobinSpreads` | pkg/scheduler/policy/rescheduling_selectors.go:180-229 | With disjoint candidates the numbers of sources any two destinations receive differ by at most one. |
| `Balance.SharesAreEven` | pkg/scheduler/policy/rescheduling_selectors.go:212-215 | The numbers of indexes with two given residues differ by at most one, and exactly when. |
| `Balance.ValidateAndAppendPairs` | pkg/scheduler/policy/rescheduling_policy.go:151-176 | The nested loop keeps a pair iff it reverses none kept before. |
| `Balance.DroppedOnlyForReversal` | pkg/scheduler/policy/rescheduling_policy.go:151-176 | A selected pair is missing only if its reverse is in the list. |
| `Balance.FinalListHasNoReversal` | pkg/scheduler/policy/rescheduling_policy.go:136-149 | However many policies select pairs, the final list never holds both a to b and b to a. |
| `Failover.FailoverSetGrows` | pkg/scheduler/policy/filters.go:288-333 | More marks, or taking units into account, never shrinks the failover set, in every domain. |
| `Failover.MarkedIsFailedOverIff` | pkg/scheduler/policy/filters.go:220-253 | For all marks: a marked instance is itself failed over iff the domain is no node domain, or its node is known, or the node-unit domain reaches its unit from the node of another mark. |
| `Failover.CandidatesAreDisjoint` | pkg/scheduler/policy/filters.go:358-382 | Sources and destinations are disjoint in every domain even if health flips between the passes, provided that a first pass that took units into account is followed by one that does so too. |
| `Failover.AlwaysDisjointIff` | pkg/scheduler/policy/filters.go:191-202 | For each domain: sources and destinations are disjoint for all marks, looks and iteration orders iff the parallel settings agree or no unit leads from what one instance marks to an instance of the type outside it. |
| `Failover.BridgeOverlaps` | pkg/scheduler/policy/filters.go:191-202 | With mixed settings, an instance reached through a shared unit can be source and destination at once. |
| `Failover.FailoverRescheduling.MarkAll` | pkg/scheduler/policy/filters.go:108-117 | One look marks every unschedulable or stale instance and takes no mark back. |
| `Failover.FailoverRescheduling.FilterSources` | pkg/scheduler/policy/filters.go:358-382 | Sources are the instances of the type inside the failover set. |
| `Failover.FailoverRescheduling.FilterDestinations` | pkg/scheduler/policy/filters.go:14-55 | Destinations are the healthy instances of the type outside the failover set. |
| `Failover.FailoverRescheduling.SelectPairs` | pkg/scheduler/policy/rescheduling_policy_registry.go:219-249 | Candidates after both passes; every pair goes from a source to another instance among the destinations, and unless units were taken into account in the first pass only, from the failover set to a healthy instance outside it, every source exactly once if there is a destination, evenly spread. |
| `ClientPool.EvictKeepsOk` | pkg/scheduler/llumlet/llumlet_client_manager.go:98-114 | Closing the idle last connection keeps list, map and counts in agreement and no borrowed connection is lost. |
| `ClientPool.BorrowKeepsValid` | pkg/scheduler/llumlet/llumlet_client_manager.go:89-135 | Asking for a connection keeps list, map and counts in agreement, the pool within its size and every borrowed connection open, and is one loan iff a connection is returned. |
| `ClientPool.RunKeepsLoans` | pkg/scheduler/llumlet/llumlet_client_manager.go:58-135 | Over every run of requests and returns the counts are the numbers of loans, the pool stays within its size, and a connection borrowed and not returned is neither closed nor replaced. |
| `ClientPool.ClientManager.DecrClientConnectionRequestCnt` | pkg/scheduler/llumlet/llumlet_client_manager.go:58-66 | Returning a connection lowers its count by one; a return without a loan changes nothing. |
| `ClientPool.ClientManager.GetClient` | pkg/scheduler/llumlet/llumlet_client_manager.go:77-87 | Hands out the connection if there is one, moves it to the front and counts the loan. |
| `ClientPool.ClientManager.MakeRoom` | pkg/scheduler/llumlet/llumlet_client_manager.go:98-114 | The eviction loop ends; it closes at most one connection, never a borrowed one, and rejects iff the pool is full and the last one busy. |
| `ClientPool.ClientManager.CreateClient` | pkg/scheduler/llumlet/llumlet_client_manager.go:89-135 | The second look-up, eviction and creation under the lock: the whole pool afterwards, and the answer; refused iff there is no connection, the pool is full and the last one is borrowed. |
| `ClientPool.ClientManager.GetOrCreateClient` | pkg/scheduler/llumlet/llumlet_client_manager.go:68-75 | The whole pool afterwards and the answer, whatever other callers do between the look-up and the creation. |
| `ClientPool.RejectsWithIdleConnection` | pkg/scheduler/llumlet/llumlet_client_manager.go:103-106 | A sequence of calls after which a request is refused although a connection is idle. |
| `GatewayRetry.Routing.ReleaseResults` | pkg/gateway/service/gateway_service.go:386-389 | Every current instance is released once. |
| `GatewayRetry.Routing.Reschedule` | pkg/gateway/service/gateway_service.go:385-404 | All earlier instances are released before new ones are scheduled. |
| `GatewayRetry.Routing.ScheduleDecode` | pkg/gateway/service/gateway_service.go:882-895 | Decode instances scheduled while an attempt is under way join its results and are accounted for. |
| `GatewayRetry.Routing.Forward` | pkg/gateway/service/gateway_service.go:407-467 | One attempt ends the routing or asks for another, and which is determined by its result; instances scheduled on the way join the results. |
| `GatewayRetry.Routing.TryFallback` | pkg/gateway/service/gateway_service.go:475-580 | Endpoints are tried in order, each at most once, none skipped except those marked; the walk ends. |
| `GatewayRetry.Routing.Attempts` | pkg/gateway/service/gateway_service.go:369-469 | At most one response, at most RetryMaxCount+1 attempts, and everything scheduled is released or current. |
| `GatewayRetry.Routing.InternalRouteRequest` | pkg/gateway/service/gateway_service.go:369-469 | The channel is closed once; in full mode everything scheduled, decode instances added on the way included, is released exactly once except the instances of a successful attempt. |
| `Prediction.PredictTtftLatencyByChunkPrefill` | pkg/scheduler/policy/predict_utils.go:242-280 | The loop sums the chunk latencies and fails iff a needed prediction is missing. |
| `Prediction.StepsAndSum` | pkg/scheduler/policy/predict_utils.go:257-271 | It takes exactly ceil(n/M) steps and equals the closed form. |
| `Prediction.LatencyMonotone` | pkg/scheduler/policy/predict_utils.go:257-271 | It is monotone in the tokens for a monotone non-negative predictor. |
| `Prediction.PredictNumComputed` | pkg/scheduler/policy/predict_utils.go:43-87 | The loop, which ends because a step lasts at least a microsecond, computes the simulated progress cut down to the backlog left. |
| `Prediction.BacklogIsConserved` | pkg/scheduler/policy/predict_utils.go:43-78 | Counted and left-over tokens add up to the backlog after every full step. |
| `Prediction.ReportedIff` | pkg/scheduler/policy/predict_utils.go:43-87 | Progress is reported iff the elapsed time is exactly that of the running batch and a number of full batches that leave some of the backlog; then the smaller of what is computed and what is left is reported, so all of it iff that is at most half of the backlog. |
| `Prediction.ReportedNegativeIff` | pkg/scheduler/policy/predict_utils.go:43-87 | The reported count is negative iff the batch said to be running is smaller than the batch limit, larger than the whole backlog, has a valid duration and fits into the elapsed time. |
| `Prediction.OneBatchReportsNothing` | pkg/scheduler/policy/predict_utils.go:79-87 | A backlog that fits into one batch is never reported as progress. |

## Left out

- EventKeeps: assumes that a lock key expires only when its owner crashed or left the section the lock protects; a holder that outlives its own lock is not modelled.
- EachShardRunsOnce: is about the in_progress set; a stale recovery can process a completed shard again without moving it, which is the run in `StaleRecoveryLosesResults`.
- CompletedDeliversAll: excludes the two accidents after which it can be false; `DeliversAllIff` is the exact condition.
- LockOutlivesOthers: how Redis rounds a remaining time to seconds is a parameter, because the client library is not part of this model.
- BatchProtocol: the output and the error file of a shard are put in two commands; the protocol has one event for both, and its `results` set is not linked to the files of `RunBatch`. A reader between the two commands finds half of the results, which the protocol counts as none.
- BatchProtocol: a store command that takes effect and is nevertheless reported as failed is not modelled.
- BatchProtocol: the stale write-back of the whole task hash by a validator is modelled for the status field only; other fields of the hash are not part of this model.
- Trim: only the ASCII white space bytes are trimmed; other Unicode white space is not modelled.
- EveryLineAnsweredOnce: what the model service answers is a parameter; HTTP calls, JSON and the validation of request lines are not modelled.
- MigrationProtocol: the worker learns of a request's blocks only while the scheduler still holds the request; a remote call that fails after the destination accepted it, a destination that drops a waiting copy on its own and preemption at the source are not modelled; block allocation and computed-token counts are left out.
- LocalAccount: 32-bit wrap-around of the counters is not modelled, because it would need more than two billion tokens in flight; the recomputed waiting-prefill metric is left out as a plain sum.
- OrderlyRunDrift: covers runs in which a revert follows its prefill add and the other operations meet the stated guards; `RunDrift` covers all runs.
- LocalAccountEditor: each index entry holds its backing array as a value; arrays are never shared between entries, so no aliasing is lost.
- RealtimeStore: request objects are held in a map from addresses, so that sharing stays visible; update times and metrics are left out.
- SharedShaKeysIff: assumes that the inputs hashed for the two prompts do not collide at the same block; the hash functions and the CBOR encoder are parameters.
- CreditIsSharedPrefix: is stated for the chained SHA-256 keys of full blocks; the lookup is assumed to answer truthfully.
- PrefixHits: the key-value store lookup and the translation of addresses to instances are not part of this model.
- Balance: covers one load metric for sources and destinations; instance ids are numbers in their order; the bin-packing and aggregate selectors are left out.
- CreateClient: dialling is a parameter, and closing a connection always works.
- GatewayRetry: full mode of the scheduler; the lite-mode release of neutral and decode instances is left out.
- PredictNumComputed: durations are real numbers; rounding of floating point is not modelled.
- PredictTtftLatencyByChunkPrefill: with tokens to compute it requires a positive batch limit, because the loop does not end otherwise.
- Task and file records, expiry times, metrics, logging, configuration, tokenizers, parsers and all network clients: plumbing, or easy members only.
- CloseAll of the connection pool: easy.
- Liveness of the batch service under crashes: only safety and bounded progress are stated.
