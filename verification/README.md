# queue_workflows: a verified model of the durable queue engine

`queue_workflows` runs workflow DAGs on a durable job queue. Workers claim node-job rows under leases,
write terminal marks together with outbox events, and an orchestrator turns the events into DAG fan-out;
sweeps and a reconciler repair what crashed workers leave behind. This project models that protocol as a
transition system in which every SQL statement, transaction, Lua script or dispatcher callback is one
atomic step, and proves what holds over every history of such steps. Around it sit the smaller cores:
the workflow-to-DAG compiler, the Redis storage backend, the ingest seam, the outbox drain, the scheduler,
the SQL literal splitter, the GPU health watchdog and the GPU admission rules.

`dafny verify dfyconfig.toml` checks everything.

## Layout

| modules | what they hold |
|---|---|
| `Options`, `Lexical`, `Arithmetic`, `FiniteSets` | nullable columns; the string order; products, quotients and sizes |
| `Workflow`, `Expansion`, `Dispatcher` | DAG nodes and rows; fan-out as a least fixed point; callbacks and the reconciler |
| `Protocol`, `ProtocolInvariant`, `Guarantees` | the twenty steps of a run; the inductive invariant; the theorems over all histories |
| `StatementContract`, `CallbackContract`, `Progress` | what each step promises on the columns alone; why no reachable run is stuck for good |
| `Routing`, `Lease`, `Broker`, `JobStore` | tenant and queue routing, stopped runs; lease timing; many runs on one broker; the store as an object updated in place |
| `Reachability`, `DagCompiler`, `DagNames`, `DagOrder` | walks in a graph; inlining pipelines; when node ids coincide; order preservation |
| `MemberKeys`, `SortedSet`, `RedisBackend`, `RedisAgreement`, `StorageContract`, `RedisServer`, `IngestSeam` | queue members and sorted sets; the six scripts; index agreement; the backend contract; the scripts in place; the priority-negating seam |
| `OutboxDrain`, `OutboxDelay`, `Scheduler`, `SqlLiterals`, `HealthWatchdog`, `VlmPool`, `GpuSlots` | the drain, also under late commits; one self-contained core each |

## Reading the protocol model

- A run carries its own rows and events. Rows are keyed by node, since (run, node) is unique. A row id is
  the node and the generation of the action that inserted it, which stands for a fresh random id.
- Terminal marks are not scoped to the owner. A worker may therefore complete, fail or park, at any later
  time, any row id it was ever handed (`handed`), including after the row was re-queued and claimed by
  another host.
- A lapsed lease is re-queued only under a `running` run. Under any other run status, `queued` after a
  resume included, the row is cancelled.
- A missing or empty `skip_if` is `None`.
- `expanded` marks a run that the tick has expanded since it was created or last restarted.
- A fan-out may raise halfway: `ExpandRunRaises` and `DrainRaises` leave any legal part of it behind.

## What turned out not to hold

- A run that was flipped to `completed` is not safe in that status. `on_node_failed` returns early only for
  cancelled and failed runs and for patch rows that still exist, so a stale `failed` event fails the run when
  its row belonged to a workflow node, or to a patch the reconciler has since deleted.
  `Guarantees.CompletedStatusFate` says exactly which completed runs can still lose the status in some later
  history, `Guarantees.CompletedRunCanFlipToFailed` reaches one. The rows stay finished in any case
  (`Guarantees.CompletedMeansDone`).
- Fill-before-spill can starve the pool. The gate counts only no-model jobs, while a box's feeder also yields a
  slot to a model-backed inline job. A box whose last slot is such a job's makes every lower-ranked box defer
  and cannot claim itself; a no-model inline job is counted by both sides and blocks nobody.
  `VlmPool.WhenThePoolStarves` and `VlmPool.OnlyModelJobsStarve` give the exact condition,
  `VlmPool.DiffusionStarvesThePool` a two-box fleet.
- A machine too small for every registered model leaves heavy no-model jobs unclaimed too:
  `GpuSlots.LanesPartition` says exactly which, `GpuSlots.TooSmallForAnEraser` is one.
- A schedule entry with no allowed hour is meant never to fire. It does not as long as some entry of the
  schedule can match; if none can, the ticker fires it a day later (`Scheduler.NeverMatchingStillFires`).
- The Redis terminal and requeue scripts accept a queued job but leave its queue member behind, and the
  claim script does not look at the status again. `RedisAgreement.AgreementKeptExactly` gives the exact
  condition, `StorageContract.CompletedJobRunsAgain` a three-script history that hands out a completed job.
- Two reconciler calls do not always suffice (`Dispatcher.TwoCallsCanBeTooFew`); three do.
- A step id with a slash can collide with an inlined node (`DagNames.SlashInAStepIdCollides`);
  `DagNames.CollisionsExactly` says exactly when.
- SQL translation does not always keep literals apart: a cast erased between two of them fuses them
  (`SqlLiterals.ErasedChunkFusesLiterals`). `SqlLiterals.TranslationKeepsLiterals` gives the exact condition; for
  the date rewrite it comes down to erased chunks, which only malformed statements have between constants.
- The drain never finishes with an event of an unknown kind, and fifty of them would stop everything younger
  (`OutboxDrain.OtherwiseStuckForever`). The check constraint of the table admits only the three known kinds,
  so this branch is not reached under that schema.

## Model

| member | source | states |
|---|---|---|
| `Expansion.ProcessReady` | queue_workflows/dispatcher.py:341-386 | the fan-out loop terminates in `Expand` and meets `FansOut`: old rows kept, a node without one gets a row exactly when its dependencies are finished by the end, every new row skipped or queued as the merged context decides; it counts the new rows, none exactly when nothing was ready |
| `Expansion.ExpandDecides` | queue_workflows/dispatcher.py:275-386 | the same of the rows themselves, column by column: a node with a `skip_if` is skipped exactly when the reference is truthy in the base context overlaid with every completed row's non-empty delta, any other node is queued at the run's priority with its own queue and model |
| `Expansion.SkipContext` | queue_workflows/dispatcher.py:297-308 | a completed row contributes its non-empty delta under its node id, every other key is as in the base context, and there are no further keys |
| `Expansion.ReadyNodes` | queue_workflows/dispatcher.py:275-294 | the ready list holds exactly the nodes without a row whose dependencies are all completed or skipped |
| `Expansion.ExpandIsLeastFixedPoint` | queue_workflows/dispatcher.py:341-386 | a fan-out ends with nothing ready, keeps every old row, and is contained in every closed table that makes the same decisions |
| `Expansion.OrderDoesNotMatter` | queue_workflows/dispatcher.py:297-386 | any two maximal processing orders leave the same queued/skipped decision for every node |
| `Expansion.InsertKeepsDecisions` | queue_workflows/dispatcher.py:297-338 | inserting a fan-out row never changes a later skip decision, because those read completed rows only |
| `Expansion.ByModelKeepsOrder` | queue_workflows/dispatcher.py:358-370 | the model-affinity sort keeps ids distinct, leaves no node after one it sorts before, and keeps the workflow order inside every model group |
| `Dispatcher.ReconcileNeverFails` | queue_workflows/dispatcher.py:634-710 | on a non-empty acyclic workflow whose dependencies exist the reconciler never takes its "failed" branch |
| `Dispatcher.ReconcileConverges` | queue_workflows/dispatcher.py:634-710 | three calls in a row leave a non-terminal run completed or with a queued, running or awaiting row |
| `Dispatcher.TwoCallsCanBeTooFew` | queue_workflows/dispatcher.py:634-710 | some workflow and state need the third call |
| `Dispatcher.Frontier` | queue_workflows/dispatcher.py:283-294 | an unfinished acyclic DAG has an unfinished node all of whose dependencies are finished |
| `Dispatcher.DroppingDeadRowsFreesANode` | queue_workflows/dispatcher.py:671-697 | behind a closed, unfinished frontier, deleting the dead rows makes a node ready again |
| `ProtocolInvariant.StepKeepsInv` | queue_workflows/node_queue.py:1227-1311 | every one of the twenty steps keeps the invariant and only advances rows and outbox |
| `ProtocolInvariant.ExecKeepsInv` | queue_workflows/node_pool.py:463-545 | the same over every history |
| `Guarantees.DeadlockFreedom` | queue_workflows/dispatcher.py:536-600 | an expanded, active run with a drained outbox and no dead row has live work or has every node finished, in every reachable state |
| `Guarantees.DependencySafety` | queue_workflows/dispatcher.py:283-294 | a node has a row only when all its dependencies are finished, and no later history takes that away, the reconciler's deletion included |
| `Guarantees.CompletedMeansDone` | queue_workflows/dispatcher.py:565-571 | a completed run has every node completed or skipped, and keeps it so |
| `Guarantees.CompletedStatusFate` | queue_workflows/dispatcher.py:575-600 | a completed run, as any history leaves it, can lose that status in some later history if and only if it has an unprocessed `failed` event whose node has no patch row |
| `Guarantees.CompletedRunCanFlipToFailed` | queue_workflows/dispatcher.py:575-600 | such a state is reachable on a well-formed workflow with a drain that takes events oldest first |
| `Guarantees.TerminalAbsorption` | queue_workflows/node_queue.py:1240-1259 | no history, late writes by displaced workers included, changes a completed or skipped row; a failed or cancelled one is unchanged or gone |
| `Guarantees.DeletedForGood` | queue_workflows/node_queue.py:1681-1713 | a deleted row id never comes back |
| `Guarantees.OutboxAtMostOnce` | queue_workflows/node_executor.py:347-362 | each row id has at most one terminal event, of the kind that matches the row's status |
| `Guarantees.OutboxExactlyOnce` | queue_workflows/node_executor.py:440-457 | a row finished by the executor or a watchdog has its one event at a fixed place for ever |
| `Guarantees.ClaimsBalanceReleases` | queue_workflows/node_queue.py:259-282 | over every history, queued means claims equal releases, running means one more claim, otherwise the difference is 0 or 1 |
| `Guarantees.NoSecondHandoutWithoutRelease` | queue_workflows/node_queue.py:259-282 | from a running row on, every further claim is covered by a release |
| `Guarantees.ClaimersShareTheProject` | queue_workflows/node_queue.py:776-805 | whoever claims a row, after any history, asked for the project the row was created with |
| `Routing.ClaimsFollowTheNode` | queue_workflows/node_queue.py:268-275 | whenever a workflow node's row is claimed, after any history, the claimer asked for the run's own project and the queue its node declares, and the row names the node's model |
| `Routing.StoppedRunsHandOutNothing` | queue_workflows/node_queue.py:271-275 | a failed or cancelled run hands out no job over any history in which the host does not restart it |
| `Routing.FailureStopsTheRun` | queue_workflows/dispatcher.py:575-600 | draining a node's failure fails the run, cancels exactly its queued rows, and nothing is handed out afterwards |
| `Lease.LeaseFollowsBeat` | queue_workflows/claim_worker.py:260-280 | a running row's lease is always the last effective claim or renewal plus the lease time |
| `Lease.SweepTakesExactlyTheLate` | queue_workflows/node_queue.py:734-805 | a sweep takes a running row exactly when that last beat is more than the lease ago, re-queues it under a running run and cancels it otherwise, and leaves every other running row untouched |
| `Lease.AttendedRowKeepsRunning` | queue_workflows/claim_worker.py:260-280 | an owner that issues its renewals at most the lease apart keeps its row through any history, sweeps at any time included: every renewal takes effect and the row still runs under it at the end |
| `Lease.DisplacedRenewalsAreVoid` | queue_workflows/claim_worker.py:260-280 | striking every renewal by a host that does not own the row out of any interleaved history changes no state it reaches |
| `Broker.BrokerRunsAreReachable` | queue_workflows/node_queue.py:734-805 | with any number of runs, tenants and broker-wide sweeps, every run stays a run of the single-run protocol |
| `StatementContract.StatementsKeepTheirPromise` | queue_workflows/node_queue.py:259-1343 | each of the twelve statements changes every row exactly as `Fate` says on the columns, writes exactly its news to the outbox, hands over exactly the claimed id, and touches nothing else of the run |
| `StatementContract.ClaimKeeps` | queue_workflows/node_queue.py:259-282 | a claim starts the queued row of the queue and project asked for, under a run neither cancelled nor failed, and changes nothing otherwise |
| `StatementContract.CompleteKeeps` | queue_workflows/node_queue.py:1240-1259 | a completion marks a row that is not completed, failed or cancelled, stores the delta and writes one event; otherwise nothing |
| `StatementContract.ExpiredKeeps` | queue_workflows/node_queue.py:774-803 | row by row: a running row whose lease ended before now is queued at priority 10 or better under a running run and cancelled otherwise |
| `StatementContract.ResumeKeeps` | queue_workflows/node_queue.py:1009-1031 | row by row: a running row of the project whose owner does not beat on the row's queue is queued at priority 10 or better |
| `StatementContract.WorkerKeeps` | queue_workflows/node_queue.py:1035-1098 | row by row: the running rows of one host, queue and project are queued at priority 10 or better, without a retry counted |
| `CallbackContract.CallbacksKeepTheirContract` | queue_workflows/dispatcher.py:389-710 | each of the other eight steps does what its contract says on the columns; with the statements this pins all twenty steps |
| `CallbackContract.CompletionKept` | queue_workflows/dispatcher.py:550-572 | unless the run is stopped or the row is a patch, a completion fans out, and the run is completed exactly when the fan-out leaves every node completed or skipped |
| `CallbackContract.FailureKept` | queue_workflows/dispatcher.py:575-600 | unless the run is stopped or the row is a patch, a failure fails the run and cancels exactly its queued rows |
| `CallbackContract.TickKept` | queue_workflows/dispatcher.py:389-410 | a queued run is failed when a GPU node neither names a model nor is exempt, otherwise expanded, and running exactly when something was ready |
| `CallbackContract.RaisedDrainKept` | queue_workflows/node_pool.py:352-393 | a raising callback costs one attempt; the tenth gives the event up and fails the run if it is queued or running; rows it left are as the whole fan-out would have them |
| `CallbackContract.SubmissionKept` | queue_workflows/dispatcher.py:1197-1226 | an answered input completes its row with the submitted value and fans out at once |
| `CallbackContract.ReconcileKept` | queue_workflows/dispatcher.py:663-710 | the five outcomes of the reconciler with their exact conditions and the rows each leaves: nothing, completed, enqueued from what is ready, unfinished rows dropped and re-expanded, failed |
| `Progress.QueuedRowIsHandedOut` | queue_workflows/node_queue.py:259-282 | in every reachable run neither cancelled nor failed, any host that asks for a queued row's queue and project gets it and runs it, and nothing else changes |
| `Progress.QueuedNodeIsHandedOut` | queue_workflows/node_queue.py:268-275 | so a queued workflow node is there for whoever asks for the run's project on the queue its node declares |
| `Progress.ResultIsKept` | queue_workflows/node_queue.py:1240-1259 | the delta of an effective completion is in the row after every later history |
| `Progress.ActiveRunsCanComplete` | queue_workflows/dispatcher.py:634-710 | no trap: from every reachable state of a queued or running run some history of claims, completions, retries, answered inputs and reconciler calls completes it with every node finished |
| `Progress.StoppedRunsCanComplete` | queue_workflows/node_queue.py:1681-1713 | the same for failed and cancelled runs once the host restarts them |
| `JobStore.RunStore.Claim` | queue_workflows/node_queue.py:259-282 | it returns a row exactly when the row is there, queued, on the queue and project asked for, under a run neither cancelled nor failed; the row is the old one with status, owner and lease stamped, and nothing else changes |
| `JobStore.RunStore.RenewOnce` | queue_workflows/claim_worker.py:260-280 | it moves the lease exactly when the host owns the running row, and otherwise changes nothing |
| `JobStore.RunStore.FinishCompleted` | queue_workflows/node_executor.py:347-362 | exactly when the row is not completed, failed or cancelled it is marked, holds the delta, and the event is appended; otherwise nothing changes; the protocol invariant is kept |
| `JobStore.RunStore.FinishFailed` | queue_workflows/node_executor.py:440-457 | exactly when the row is not completed, failed or cancelled it is marked and the event is appended; otherwise nothing changes; the protocol invariant is kept |
| `JobStore.RunStore.RequeueForRetry` | queue_workflows/node_queue.py:808-848 | exactly a running row goes back to the queue, without owner and lease, at priority 10 or better, with one retry more; the protocol invariant is kept |
| `JobStore.RunStore.ReclaimExpiredLeases` | queue_workflows/node_queue.py:734-805 | it takes exactly the running rows whose lease ended before now, clears owner and lease, queues them at priority 10 or better under a running run and cancels them otherwise, touches no other row and keeps the protocol invariant |
| `JobStore.RunStore.Start` | queue_workflows/dispatcher.py:389-429 | the tick's expansion through the fan-out loop is the protocol step and meets `Tick`; it keeps the invariant and reports the new rows |
| `JobStore.RunStore.NodeCompleted` | queue_workflows/dispatcher.py:536-572 | the completion callback in place is the protocol step and meets `Completion`; it reports the new rows |
| `JobStore.RunStore.NodeFailed` | queue_workflows/dispatcher.py:575-600 | the failure callback in place meets `Failure`; afterwards nothing of the run is claimable |
| `JobStore.RunStore.DrainEvent` | queue_workflows/node_pool.py:328-351 | draining one event in place is the protocol step, meets `Drained` and keeps the invariant |
| `JobStore.RunStore.ReconcileStuck` | queue_workflows/dispatcher.py:634-710 | one call in place meets `Reconciled`, keeps the invariant and never reports failed on a well-formed workflow |
| `JobStore.RunStore.SweepStuckThrice` | queue_workflows/node_pool.py:577-614 | three sweeps leave an active run completed or with live work |
| `JobStore.RunStore.DrainAll` | queue_workflows/node_pool.py:304-351 | draining oldest first leaves no unprocessed event, keeps the invariant, and an expanded, active run without dead rows then has live work or is finished |
| `DagCompiler.NodesOf` | queue_workflows/dispatcher.py:70-169 | the two passes raise exactly when some pipeline is empty and otherwise return the compiled nodes, laid out as `CompiledNodes` says |
| `DagCompiler.CompiledNodes` | queue_workflows/dispatcher.py:115-169 | the list position by position: steps in order, schema nodes in order; a pipeline node has the qualified id, its schema's gpu, model and module (or its id), its own `skip_if` or else the step's; an input step has one input node with the step's id and `skip_if`; nothing else is in the list |
| `DagCompiler.LeavesExactly` | queue_workflows/dispatcher.py:96-104 | a pipeline is over with the schema nodes no other one depends on, or with its last node when there is none; an input step with itself |
| `DagCompiler.CollectLeaves` | queue_workflows/dispatcher.py:90-104 | the first pass builds the map from steps to the nodes that finish them |
| `DagOrder.CompilationKeepsMeaning` | queue_workflows/dispatcher.py:87-140 | whatever the dependencies name, a node is an ancestor of another in the compiled DAG if and only if the workflow puts it before: a step begins after the steps and nodes it depends on and is over after all its nodes |
| `DagOrder.CompilationPreservesOrder` | queue_workflows/dispatcher.py:87-140 | a node of one step is an ancestor of a node of another only if the first step is a transitive dependency of the second, and exactly then when dependencies name whole steps |
| `DagOrder.DependenciesExistExactly` | queue_workflows/dispatcher.py:106-113 | every compiled dependency exists if and only if every dependency of an expanding step names an expanding step or an inlined node |
| `DagOrder.CompiledWellFormed` | queue_workflows/dispatcher.py:87-140 | unique node ids, every dependency present, acyclic; and a workflow the dispatcher accepts exactly when some step expands |
| `DagOrder.CompiledHasNoCycle` | queue_workflows/dispatcher.py:87-140 | no compiled node is its own ancestor |
| `DagNames.CollisionsExactly` | queue_workflows/dispatcher.py:115-134 | compiled ids are distinct if and only if no step id continues the name of another step's inlined node |
| `DagNames.SlashInAStepIdCollides` | queue_workflows/dispatcher.py:115-134 | a concrete workflow in which two nodes get one id |
| `MemberKeys.TextRoundTrip` | queue_workflows/backends/redis.py:46-60 | splitting a member at its first bar gives back number and id, whatever the id contains |
| `MemberKeys.TextOrder` | queue_workflows/backends/redis.py:46-46 | below 10^20, members sort as strings exactly as their numbers do |
| `MemberKeys.IncrIsOrdered` | queue_workflows/backends/redis.py:40-40 | every number INCR can return lies below that bound |
| `RedisAgreement.AgreementKeptExactly` | queue_workflows/backends/redis.py:38-142 | from agreeing indexes a script leads to agreeing indexes if and only if the id is fresh and no terminal or requeue script hits a queued job |
| `RedisAgreement.ReclaimLoop` | queue_workflows/backends/redis.py:123-142 | the reclaim loop's one-by-one updates are one simultaneous release of every listed row |
| `StorageContract.StepRefines` | queue_workflows/backends/base.py:142-202 | every script does to rows and outbox what the backend contract says, column by column, with the promised reply: a claim stamps owner and lease and bumps attempts, a release clears owner and lease and keeps attempts, a mark and its event go together |
| `StorageContract.StepKeepsOrder` | queue_workflows/backends/base.py:142-175 | a claim takes the oldest waiting job of the highest priority, an enqueued or requeued job joins at the back, reclaimed jobs join in order, and nothing else moves |
| `StorageContract.HistoryRefines` | queue_workflows/backends/base.py:142-202 | over every legal history the indexes agree after every script and every script meets that contract, oldest first included |
| `StorageContract.ClaimIsExclusive` | queue_workflows/backends/base.py:142-157 | exactly once under contention: after a claim returned a job, no claim returns it again through any legal history that neither releases nor finishes it, and renewals by the claimer, and by no one else, are answered and move the lease |
| `StorageContract.HeadIsFirstOfTopPriority` | queue_workflows/backends/redis.py:55-59 | the popped job has the highest priority and among those the earliest number |
| `StorageContract.FinishedHeadIsHandedOutAgain` | queue_workflows/backends/redis.py:92-97 | a terminal script on the queued head is undone by the next claim |
| `StorageContract.CompletedJobRunsAgain` | queue_workflows/backends/redis.py:55-65 | enqueue, complete, claim hands out a completed job |
| `RedisServer.Server.EnqueueJob` | queue_workflows/backends/redis.py:38-51 | the script in place is the script function and adds a fresh queued row |
| `RedisServer.Server.ClaimJob` | queue_workflows/backends/redis.py:53-70 | the script in place is the script function; from agreeing indexes it meets the claim contract: a queued job of top priority starts under the claimer with its lease and one attempt more |
| `RedisServer.Server.RenewJob` | queue_workflows/backends/redis.py:72-84 | the script in place is the script function and meets the renewal contract |
| `RedisServer.Server.FinishJob` | queue_workflows/backends/redis.py:89-105 | the script in place is the script function and meets the terminal contract: row and event together, or neither |
| `RedisServer.Server.RequeueJob` | queue_workflows/backends/redis.py:107-121 | the script in place is the script function and meets the requeue contract: back without owner and lease, attempts kept |
| `RedisServer.Server.ReclaimExpired` | queue_workflows/backends/redis.py:123-142 | the sweep in place releases the expired range in order; from agreeing indexes it meets the reclaim contract: exactly the lapsed rows of the queue, all of them reported |
| `RedisServer.Server.Counts` | queue_workflows/backends/redis.py:252-259 | with agreeing indexes the reported count is the true number of jobs in that status |
| `IngestSeam.SeamClaimsLikeTheTable` | queue_workflows/ingest_store.py:137-165 | after any requeue-free history a claim through the seam returns the job the relational table would hand out, shown with the priority it was enqueued with |
| `IngestSeam.HistorySimulates` | queue_workflows/node_queue.py:631-645 | the Redis store under the seam simulates the relational ingest table |
| `OutboxDrain.LeavesInTime` | queue_workflows/node_pool.py:286-393 | a known event at position p with u < 50 unknown ones ahead is gone after 10 * ((p - u) / (50 - u) + 1) passes, whatever the callbacks do |
| `OutboxDrain.PassLeavesExactly` | queue_workflows/node_pool.py:304-393 | of the fifty oldest events exactly those of an unknown kind or raising below the tenth attempt stay, each with one attempt more; everything younger is untouched and the order is kept |
| `OutboxDrain.GivingUpFailsTheRun` | queue_workflows/node_pool.py:366-393 | when callbacks leave the run rows alone, a pass fails exactly the active runs with an event that raises for the tenth time |
| `OutboxDelay.LeavesDespiteLateCommits` | queue_workflows/node_pool.py:306-320 | when k events of late commits land ahead of a known event at position p, it is gone after 10 + (p + k) / 5 passes, whatever the callbacks do |
| `OutboxDrain.OtherwiseStuckForever` | queue_workflows/node_pool.py:331-346 | in every other case it never leaves |
| `OutboxDrain.Drainer.DrainDispatchEvents` | queue_workflows/node_pool.py:304-393 | one pass of the loop is `Pass`, the run rows are `RunsAfter`, and every event given up leaves a run that is terminal at that moment |
| `OutboxDrain.Drainer.Finalise` | queue_workflows/node_pool.py:352-393 | an event stays, with one attempt more, exactly while it is of an unknown kind or raises below the tenth attempt; the tenth failure fails its run if that is active, and no other run |
| `Scheduler.NextFireAt` | queue_workflows/scheduler.py:47-63 | the least matching instant strictly after now, at most a day away; exactly what happens when no hour can match |
| `Scheduler.Soonest` | queue_workflows/scheduler.py:73-82 | the least instant any entry matches, with all entries due then, in order; an entry that never matches is due if and only if no entry can match |
| `Scheduler.RunForever` | queue_workflows/scheduler.py:139-177 | the ticker's fires are the turns its clock reads determine, for every schedule, the empty one included |
| `Scheduler.NeverMatchingStillFires` | queue_workflows/scheduler.py:56-63 | with no entry that can match, every turn fires something 24 to 25 hours after its clock read, at an instant that matches nothing |
| `Scheduler.FollowsRan` | queue_workflows/scheduler.py:160-177 | with a clock that never goes back the turns form an increasing chain |
| `Scheduler.FiresExactlyOutsideGaps` | queue_workflows/scheduler.py:160-177 | a matching instant is fired exactly when it does not fall between a fire and the next clock read |
| `Scheduler.FiresExactlyOnce` | queue_workflows/scheduler.py:160-177 | with a re-read under 60 s after each fire, every scheduled instant is fired once with everything due |
| `SqlLiterals.Split` | queue_workflows/db.py:287-313 | the segments spell the input, strictly alternate, every closed literal is well formed and only the last may be open |
| `SqlLiterals.SegmentationUnique` | queue_workflows/db.py:287-313 | no other segmentation has these properties |
| `SqlLiterals.Translate` | queue_workflows/db.py:394-399 | the result is the unique segmentation of the pre-processed text with exactly its non-literal chunks rewritten |
| `SqlLiterals.TranslationKeepsLiterals` | queue_workflows/db.py:361-399 | for rewrites that close the quotes they open, every input literal is found again unchanged and at its place if and only if no rewritten chunk touches a literal next to it with a quote or vanishes between two |
| `SqlLiterals.DateRewriteIsClean` | queue_workflows/db.py:341-370 | quote-free text with any number of clock and interval calls closes its quotes and has none at its ends |
| `SqlLiterals.DateRewriteKeepsLiterals` | queue_workflows/db.py:361-399 | for such a rewrite every literal survives if and only if no chunk between two literals is erased |
| `SqlLiterals.ErasedChunkFusesLiterals` | queue_workflows/db.py:371-371 | for any two literals with an erased chunk between them, the translated text has one literal |
| `SqlLiterals.CastBetweenLiterals` | queue_workflows/db.py:371-371 | a concrete, malformed text with a bare cast between two constants is such an input |
| `HealthWatchdog.TripsExactly` | queue_workflows/claim_worker.py:993-1029 | a poll trips exactly when the window is over, every sample since its opening was idle and, if both were read, the memory at its opening and now differ by at most the threshold |
| `HealthWatchdog.WedgeIsCaught` | queue_workflows/claim_worker.py:939-1029 | without beats, idle and static from t0, it trips by t0 + max(grace, interval) + interval + 2 polls (plus the time spent inside polls) |
| `HealthWatchdog.Watchdog.StartAt` | queue_workflows/claim_worker.py:976-986 | arming opens an empty window of the grace period |
| `HealthWatchdog.Watchdog.BeatAt` | queue_workflows/claim_worker.py:950-959 | a beat opens an empty window of one interval |
| `HealthWatchdog.Watchdog.PollOnce` | queue_workflows/claim_worker.py:993-1006 | one loop iteration in place is the step function; unarmed it does nothing |
| `HealthWatchdog.Watchdog.EvaluateWindow` | queue_workflows/claim_worker.py:1008-1029 | it trips exactly on an idle, static window and otherwise opens a new one |
| `VlmPool.ExactlyOneMayClaim` | queue_workflows/node_queue.py:451-523 | among the recent boxes with fewer running no-model jobs than they advertise exactly one is not told to defer: none of them advertises more, and among equals its label sorts first |
| `VlmPool.DefersExactly` | queue_workflows/node_queue.py:494-512 | a caller defers exactly when a recent box that advertises more, or the same under an earlier label, holds fewer running no-model jobs than it advertises |
| `VlmPool.WhenThePoolStarves` | queue_workflows/claim_worker.py:1871-1889 | some box whose own counter has room passes the gate if and only if no recent box that advertises more than the best of them, or the same under an earlier label, is free for the gate |
| `VlmPool.OnlyModelJobsStarve` | queue_workflows/node_queue.py:494-512 | with rows and counters in step, the pool starves exactly when a recent box above the best has given its last slot to a model-backed inline job |
| `VlmPool.WithoutModelJobsNeverStarves` | queue_workflows/node_queue.py:408-418 | without a model-backed inline job some box with room always passes, no-model inline jobs notwithstanding |
| `VlmPool.RoomIsReservable` | queue_workflows/claim_worker.py:1881-1889 | having room is exactly what the feeder's reservation tests |
| `VlmPool.DiffusionStarvesThePool` | queue_workflows/node_queue.py:494-512 | one diffusion on the top-ranked of two single-slot boxes keeps the idle one waiting |
| `VlmPool.FillingPacks` | queue_workflows/claim_worker.py:1871-1889 | claims through the gate pack the fleet from the top: while a box, recent or stale, holds a job, every recent box that advertises more is full, and so is every one that advertises the same under an earlier label |
| `GpuSlots.LanesPartition` | queue_workflows/claim_worker.py:1438-1480 | no row is accepted by both lanes; the pool takes a no-model row exactly when its module is pool-eligible, and one lane takes it unless the machine is too small for every model and it is not; a model row exactly when the machine serves it |
| `GpuSlots.TooSmallForAnEraser` | queue_workflows/claim_worker.py:1438-1459 | a concrete machine whose lanes both leave a no-model job unclaimed |
| `GpuSlots.SlotsAreSound` | queue_workflows/claim_worker.py:1509-1556 | over every interleaving the in-flight counter equals the outstanding reservations and the total never exceeds the highest parallelism read |
| `GpuSlots.FixedParIsACap` | queue_workflows/claim_worker.py:1498-1507 | with a fixed parallelism the machine never runs more than that many node-jobs |
| `GpuSlots.AdmissionRespectsPar` | queue_workflows/claim_worker.py:1881-1889 | one more job is admitted exactly when inline plus pool jobs are below the parallelism read, and then they stay within it |
| `GpuSlots.NoSlotLeaks` | queue_workflows/claim_worker.py:1790-1805 | once all work is released both lanes can be admitted again |
| `GpuSlots.Worker.AdmitInline` | queue_workflows/claim_worker.py:1528-1535 | the inline reservation in place is the step function |
| `GpuSlots.Worker.ReleasePool` | queue_workflows/claim_worker.py:1801-1805 | releasing a pool slot in place is the step function |
| `GpuSlots.Worker.ReservePool` | queue_workflows/claim_worker.py:1881-1889 | the feeder's reservation in place is the step function |

## Left out

- Callback interleavings: `update_run` has no compare-and-set, so two orchestrator callbacks on one run could
  interleave between their statements; the model takes each dispatcher callback, tick expansion and
  reconciler call as one atomic step.
- Raising halfway is modelled for expansion and drain, not for `resume_after_input` and `reconcile_run`. A submitted
  input whose fan-out raises after the row was marked leaves no event behind; until the reconciler visits such a
  run, `Guarantees.DeadlockFreedom` does not speak about it.
- Claim selection inside one run: a claim may take any claimable row; the ordering terms (run-next flag, model
  affinity, priority band, host direction) choose among those and are not part of the protocol model. The
  order is modelled for Redis and ingest.
- The model-affinity sort treats a missing model as last; the original's sentinel also sorts an empty model
  name there, and a name beyond U+FFFF after it.
- The workflow definition of a run is constant; editing it mid-run is not modelled.
- The outbox stores the node of an event; the model also records which row wrote it.
- The order of two relational ingest rows with the same creation instant is not modelled; rows are stamped
  in insertion order, and the seam is compared within one project.
- `resolve_inputs_for_job`, `_build_input_spec`, `_ref_context` and patch-file copying: input references resolve
  through an arbitrary function, an answered input brings its delta, and patch rows are rows outside the DAG;
  their file handling is not modelled.
- Redis numbers: scripts compute in doubles and print leases with 14 digits; priorities, sequence numbers and
  leases are exact integers here. A sweep compares `lease <= now` as the script does; the relational backend
  compares strictly.
- Wakes (LISTEN/NOTIFY, pub/sub, change streams) are left out; nothing proved depends on them.
- The Mongo adapter, connection pools, migrations and the nested SQLite transaction wrapper.
- SQL rewriting beyond the splitter: the rewrite of a non-literal chunk and the fusion of the `interval '...'`
  form before splitting are arbitrary functions.
- Scheduler: a minute outside 0..59 makes the original raise and is excluded by `requires`; the boot kick and
  the enqueue itself are not modelled. Time is in whole microseconds.
- Health watchdog: the trip's own retry policy and process exit, and the stall watchdog.
- `GpuSlots.SlotsAreSound`: process shutdown, where a pool may drop submitted jobs, is not modelled.
- `VlmPool.FillingPacks`: gate and claim are one step; two boxes that read the same snapshot are not interleaved.
- Rendering, telemetry, the conductor and the model cache.
