# Verified model of the event-sourced CTF controller

The controller keeps its state as a projection of an append-only log. Its process can die between any
two appends, several threads append at once, and receipts are recomputed from the log by code that
does not trust the writers. This project models the five components where that is hard and proves
what every run keeps.

- **Attempt executor** (`ExecutorLog`, `ExecutorProtocol`, `ExecutorInvariant`, `ExecutorTheorems`,
  `ExecutorReports`, `ExecutorBoundaries`, `AttemptExecution`, `ResourceReceipt`, `ReceiptTheorems`,
  `ReceiptValidity`, `TakeoverReceipts`, `Teardown`, `SlotProtocol`, `AttemptRuntime`). A single owner reserves, launches, measures, tears down and records envelopes,
  and reconciles a dead owner's envelopes on takeover. It is a step system whose durable state is the
  log; a crash keeps any prefix of what a move was appending and drops the process. The executor's
  methods are classes over the log with a ghost trace that ties what they append to a run of the step
  system.
- **Board-profile authority gate** (`ProfilePhase`, `ProfileGate`, `ProfileBroker`,
  `ProfileDocuments`, `ProbeIndex`, `ProfileReceipt`, `ProbeCodec`, `ProbeRuns`,
  `ProbeValidity`, `ChallengeDetails`, `ProfileQualify`, `ProfileDecisions`). A partial fold over phase events, a two-pass probe, and a receipt that must
  rebuild the exact probe from what was recorded.
- **Attempt progress** (`AttemptProgress`, `ProgressDecisions`, `ProgressControl`). Evidence accepted once under a
  generation, with the digest of everything accepted carried in each record.
- **Board broker** (`BrokerReceipt`, `BrokerProtocol`, `BrokerPairing`, `BoardBroker`,
  `BrokerCodec`). Concurrent reserve, dispatch and classify; a receipt that does not depend on the
  interleaving; and results on the wire.
- **Stream, replay and the ledger table** (`Stream`, `Replay`, `TableMachine`, `LedgerTable`).

`Prelude`, `Ordering` and `Text` hold what these share. Verify everything with
`dafny verify dfyconfig.toml`.

The event store is a sequence whose positions are sequence numbers. The generation fence runs a commit
exactly when the generation is open and otherwise records a late event. Digests are injective, so a
document stands for its own digest. Clocks, inventories, worker replies, Board answers and thread
schedules are unknowns that every statement ranges over.

## Where the code does less than one might expect

Each of these is proved, with an input that shows it and the exact condition under which the promise
holds.

- A close of a generation can return while an envelope of that generation is still unfinished: `start`
  reserves under one lock and registers under another, and a thread that fails takes its handle with
  it. `CloseDrains` and `SnapshotMisses` say what a close can miss, and `CloseCanMissAStart` and
  `CloseCanMissAFailure` are runs that miss one of each kind. With reserve and register as one step
  an envelope is missed exactly when its thread failed (`CloseExact`), so a close drains its
  generation if none of its threads did (`CloseDrainsAll`).
- Takeover does not look again at a result whose cleanup was incomplete but left no known survivor
  (`TakeoverExamines`; `TakeoverIgnores` is a run), so it refuses such an envelope once only.
- `RuntimeBinding` admits digests without `sha256:`; with such a binding no receipt can ever be
  reconstructed (`PrefixedBinding`, `RunReceipt`; `UnprefixedRefused` is a run). A takeover that
  records a RESULT then raises although every observation settles its envelope, and so does one that
  finds results of another binding in the log (`Reconcile`).
- `_terminate` reports a kill it did not issue when an inventory first becomes unreadable after the
  point where it would have killed; `_cleanup` always kills but reports it only if it had found
  descendants (`Terminate`, `KillAndWait`; `KillNotIssued` and `KillNotReported` are hosts).
- Preparing an envelope that already holds a reservation overwrites it, and the old slot stays busy
  for good (`RunKeepsTight`, `LeaksAt`, `LeakedForever`; `OverwriteLeaks` is a run).
- A retry of the same checkpoint and evidence after a rejection raises instead of being judged, because
  the event id is spent (`ConfirmRaises`, `SpentForever`; `RetryRefused` is a run). Event ids built from
  parts that contain `:` can collide (`EventIdsCollide`); `EventIdsExact` says which do.
- The broker's serial restarts at the number of broker events. If an earlier id was drawn and never
  written, a later boot can draw an id already in the log, and since reservations have empty bodies
  the store swallows the reservation: a request is then dispatched without one (`DispatchesReserved`,
  `UnsafeBreaks`; `UnsafeReachable` is a run).
- A payload above the receiver's bound is refused, so a result survives the wire exactly when its
  payload fits (`BrokerCodec.WireRoundTrip`; `OversizedRefused` is a result).
- A step begun twice in a row and then ended twice leaves its first begin open; the second end becomes
  a Step of its own (`MissesExactly`; `SecondEndAppended` is a stream).

## Model

| member | source | states |
|---|---|---|
| ExecutorLog.GoodLifecycle | solver/attempt_executor.py:283-451 | on every log whose events were allowed when appended, each envelope's records are a prefix of RESERVED, optional LAUNCHED, then one RESULT or DISCARDED |
| ExecutorLog.IdentitiesDistinct | solver/attempt_executor.py:414-488 | no two such events share an identity: owner epoch, reservation, launch, result or discard, fence, and process observation per owner epoch |
| ExecutorLog.NoResultAfterClose | solver/attempt_executor.py:337-396 | no RESULT follows its own generation's close |
| ExecutorLog.DiscardFollowsClose | solver/attempt_executor.py:374-396 | every DISCARDED follows its generation's close |
| ExecutorLog.FenceNamesClose | solver/attempt_executor.py:237-261 | every fence carries the sequence number of its own generation's close event |
| ExecutorInvariant.WorklistFacts | solver/attempt_executor.py:159-163 | what takeover examines is every unfinished envelope and every finished one with survivors, each once |
| ExecutorInvariant.TakeoverSettles | solver/attempt_executor.py:159-182 | when takeover's worklist is used up, no envelope is unfinished or has left a process behind |
| ExecutorInvariant.MoveKeeps | solver/attempt_executor.py:103-412 | every move of every thread appends only allowed events and keeps what the process knows in step with the log |
| ExecutorInvariant.StepKeeps | solver/attempt_executor.py:103-412 | a move that completes, or a crash after any number of its appends, keeps the invariant |
| ExecutorInvariant.RunKeeps | solver/attempt_executor.py:103-412 | the invariant holds after any number of owners, interleavings and crashes |
| ExecutorTheorems.RunLifecycle | solver/attempt_executor.py:152-213 | in every run each envelope's records follow the lifecycle and no event identity is used twice |
| ExecutorTheorems.RunFences | solver/attempt_executor.py:233-271 | in every run no RESULT follows its generation's close, every DISCARDED does, and every fence names its own generation's close |
| ExecutorTheorems.LookSurvivors | solver/attempt_executor.py:499-509 | the projection remembers what the latest observation of an envelope left alive |
| ExecutorReports.SaidNew | solver/attempt_executor.py:283-330 | a thread or a survey reports at most once on an envelope under one owner, and only the owner that reserved it reports anything but a reconciliation |
| ExecutorReports.RunTracks | solver/attempt_executor.py:283-412 | in every run handles, worklist and log agree with what the steps reported, cancelled and prepared |
| ExecutorReports.RunTells | solver/attempt_executor.py:337-412 | every RESULT, DISCARDED and process observation of every run carries the outcome, cgroup, cleanup or process evidence reported under the owner that wrote it |
| ExecutorReports.RunLaunches | solver/attempt_executor.py:283-314 | every LAUNCHED names a cgroup that was prepared for its envelope |
| ExecutorReports.ReportStands | solver/attempt_executor.py:283-330 | what was reported on an envelope stands for the rest of its owner's time |
| ExecutorReports.ResultOfLaunch | solver/attempt_executor.py:308-372 | if a launch returned and a RESULT is in the log, its owner recorded the launch's own outcome, CANCELLED in place of EXITED exactly when a cancel came before the return; any other owner recorded a reconciliation |
| ExecutorReports.ResultOfFailure | solver/attempt_executor.py:286-299 | the RESULT of an envelope that could not be prepared says LAUNCH_FAILED with a complete cleanup, or a later owner reconciled it |
| ExecutorReports.RecordOfSurvey | solver/attempt_executor.py:159-182 | what takeover records of an envelope is what the survey reported for it |
| ExecutorTheorems.TakeoverExamines | solver/attempt_executor.py:491-509 | takeover re-examines an envelope exactly when it is unfinished or its latest observation has survivors |
| ExecutorTheorems.TakeoverReturns | solver/attempt_executor.py:130-182 | when a new owner's construction returns, every envelope is finished and its latest observation has no survivor |
| ExecutorTheorems.TakeoverRaises | solver/attempt_executor.py:130-182 | takeover raises exactly when what ends an item does not settle it, by an incomplete cleanup or missing evidence; the envelope is finished all the same, the next owner can open at once, and looks at it again exactly when its latest observation has survivors |
| ExecutorTheorems.CloseDrains | solver/attempt_executor.py:233-271 | when a close returns, every envelope of its generation is fenced, and finished unless its snapshot could not see it |
| ExecutorTheorems.SnapshotMisses | solver/attempt_executor.py:262-271 | what a close cannot see is exactly the unfinished envelopes of its generation that have no handle |
| ExecutorTheorems.AbandonedRun | solver/attempt_executor.py:328-335 | in every run the envelope of a thread that failed stays unfinished and without a handle while its owner serves |
| ExecutorTheorems.OneStartingRun | solver/attempt_executor.py:184-213 | if each start registers at once, at most one envelope is ever between its locks, and what a snapshot misses belongs to threads that failed |
| ExecutorTheorems.CloseExact | solver/attempt_executor.py:184-335 | under that condition a close that returns leaves every envelope of its generation fenced, and finished exactly when its snapshot did not miss it, which is exactly when its thread did not fail |
| ExecutorTheorems.AbandonedByStep | solver/attempt_executor.py:328-335 | only a thread that failed counts as failed |
| ExecutorTheorems.CloseDrainsAll | solver/attempt_executor.py:184-271 | so if no thread of the generation failed, a close that returns leaves every envelope of it fenced and finished |
| ExecutorBoundaries.CloseMissesAStart | solver/attempt_executor.py:184-271 | whenever a start is between its locks, the other threads can run to their ends and a close of its generation to a normal return, leaving it reserved |
| ExecutorBoundaries.CloseCanMissAStart | solver/attempt_executor.py:184-271 | such a run is reachable from the empty log |
| ExecutorBoundaries.CloseCanMissAFailure | solver/attempt_executor.py:262-335 | so is a close over an envelope whose thread failed, though every start registered at once |
| ExecutorBoundaries.RunOut | solver/attempt_executor.py:283-412 | from any state every thread of the executor can run to its end |
| ExecutorBoundaries.TakeoverIgnores | solver/attempt_executor.py:491-509 | a run in which a result of an incomplete cleanup is not looked at by the next owner, who serves |
| ExecutorBoundaries.FirstResult | solver/attempt_executor.py:283-412 | with any binding a result is reachable |
| ExecutorTheorems.StartedGate | solver/attempt_executor.py:184-211 | an envelope between its two locks is reserved under a generation the fence knows |
| AttemptExecution.EnvelopeStates | solver/attempt_executor.py:491-496 | one pass gives each envelope's latest record with its ownership and cgroup path, in order of first mention |
| AttemptExecution.ObservedStates | solver/attempt_executor.py:499-509 | one pass gives what each envelope's latest observation left alive |
| AttemptExecution.ResidueStates | solver/attempt_executor.py:499-509 | exactly the finished envelopes whose latest observation has survivors |
| AttemptExecution.TakeoverStates | solver/attempt_executor.py:159-163 | the unfinished envelopes, then the residue |
| AttemptExecution.NextOwnerEpoch | solver/attempt_executor.py:152-157 | one more than the owners the log has opened |
| AttemptExecution.NextEnvelope | solver/attempt_executor.py:446-451 | one more than the reservations in the log |
| AttemptExecution.GenerationState | solver/work_generation.py:120-211 | whether a generation is unknown, open or closed, by which Attempt and at which sequence |
| AttemptExecution.FencedEnvelopes | solver/attempt_executor.py:246-251 | exactly the envelopes that have a fence |
| AttemptExecution.FenceList | solver/attempt_executor.py:252-261 | one fence for each envelope of the generation that has none, in order, naming the close |
| AttemptExecution.AttemptExecutor.constructor | solver/attempt_executor.py:103-139 | a new owner appends its opening and continues a run of the protocol |
| AttemptExecution.AttemptExecutor.Perform | solver/attempt_executor.py:453-488 | appending one move's events extends the run; a move that raises frees the lock |
| AttemptExecution.AttemptExecutor.Raise | solver/attempt_executor.py:130-139 | an error outside any append writes nothing and frees the lock |
| AttemptExecution.AttemptExecutor.RecordEvidence | solver/attempt_executor.py:348-354 | the process observation is appended with the observation's own evidence if there is some, else nothing, and moves nothing the record depends on |
| AttemptExecution.AttemptExecutor.RecordLate | solver/attempt_executor.py:374-396 | a late completion leaves a late event and a DISCARDED with the observation's cgroup and cleanup |
| AttemptExecution.AttemptExecutor.RecordCommitted | solver/attempt_executor.py:355-412 | a result in time appends authority and a RESULT with the observation's own outcome, cgroup and cleanup, and its receipt succeeds exactly if the log then reconstructs |
| AttemptExecution.AttemptExecutor.RecordResult | solver/attempt_executor.py:337-412 | the result is accepted exactly while its generation is open; the log gains the observation's evidence and last a RESULT with its outcome, or a DISCARDED, with its cgroup and cleanup; after a RESULT the receipt is written exactly if it can be reconstructed, and a takeover that cannot write it raises |
| AttemptExecution.AttemptExecutor.RecordResidue | solver/attempt_executor.py:165-176 | a finished envelope gains only new process evidence, and takeover goes on exactly if there is some and the cleanup is complete |
| AttemptExecution.AttemptExecutor.RecordUnfinished | solver/attempt_executor.py:177-182 | an unfinished envelope is recorded; takeover goes on exactly if its cleanup was complete and the receipt of a RESULT reconstructs |
| AttemptExecution.AttemptExecutor.ReconcileItem | solver/attempt_executor.py:164-182 | one takeover item is recorded, and takeover goes on exactly if the observation settles it and the receipt of a RESULT reconstructs |
| AttemptExecution.AttemptExecutor.ReconcileItems | solver/attempt_executor.py:164-182 | the loop ends normally exactly when every observation settles its envelope and the starting log lets every receipt written on the way succeed |
| AttemptExecution.AttemptExecutor.Survey | solver/attempt_executor.py:159-163 | the runtime is handed exactly the worklist the log determines |
| AttemptExecution.AttemptExecutor.Reconcile | solver/attempt_executor.py:159-182 | takeover returns exactly when every observation settles its envelope and, if it completes any, the receipt admits its binding and every envelope completed, before or now, carries it in all its events; then every envelope is finished with no survivor, and otherwise the lock is free |
| AttemptExecution.AttemptExecutor.Start | solver/attempt_executor.py:184-213 | a start succeeds exactly for a usable command and workspace under the Attempt's own open generation; a refusal leaves no trace |
| AttemptExecution.AttemptExecutor.CheckStart | solver/attempt_executor.py:184-196 | which refusal is given, each exactly: not the Attempt's own open generation, then an unusable command, then no workspace |
| AttemptExecution.AttemptExecutor.Reserve | solver/attempt_executor.py:197-208 | authority and reservation are appended, and the envelope is starting |
| AttemptExecution.AttemptExecutor.RegisterHandle | solver/attempt_executor.py:209-213 | the starting envelope becomes a handle; the log is as it was |
| AttemptExecution.AttemptExecutor.Admit | solver/attempt_executor.py:197-213 | both together are two steps of the protocol |
| AttemptExecution.AttemptExecutor.CloseAndFence | solver/attempt_executor.py:233-261 | closing appends the close if the generation is open and exactly the missing fences; an unknown generation, or one closed with another disposition, is refused and leaves the log as it was |
| ResourceReceipt.PrefixedBinding | solver/attempt_executor_contracts.py:78-85 | of all bindings, the receipt admits exactly those of the admitted image that the runtime could accept and whose two digests carry the algorithm prefix |
| ResourceReceipt.GroupAgrees | solver/attempt_resource_receipt.py:140-155 | the writers keep ownership, profile and declared limits the same across an envelope's events |
| ResourceReceipt.ChildlessOutcome | solver/attempt_resource_receipt.py:135-139 | a result that skipped the launch is launch-failed or reconciled |
| ResourceReceipt.CompletedOnGood | solver/attempt_resource_receipt.py:127-155 | on a log the executor can write, a completed group is refused only for its candidate binding |
| ResourceReceipt.GoodCompleted | solver/attempt_resource_receipt.py:127-168 | its row then describes that envelope's own RESULT event |
| ResourceReceipt.RowsOnGood | solver/attempt_resource_receipt.py:107-111 | the rows are one for each completed envelope and fail only for a foreign image |
| ResourceReceipt.EpochsCount | solver/attempt_resource_receipt.py:99-121 | the owner epochs in the log are 1, 2, 3, … |
| ResourceReceipt.OneBindingExact | solver/attempt_resource_receipt.py:171-190 | one binding is found exactly when something completed and all of it carries one admitted binding |
| ResourceReceipt.ReceiptExact | solver/attempt_resource_receipt.py:92-124 | reconstruction succeeds exactly then, and lists each RESULT envelope once, in order, by its own RESULT event |
| ResourceReceipt.GroupEvents | solver/attempt_resource_receipt.py:97-106 | one pass collects the owner epochs and groups the envelope events by id |
| ResourceReceipt.CompleteRows | solver/attempt_resource_receipt.py:107-111 | the completed groups are validated in order of id |
| ResourceReceipt.ReconstructReceipt | solver/attempt_resource_receipt.py:92-124 | the loops compute the reconstruction that `ReceiptExact` is about |
| ReceiptValidity.CompletedExact | solver/attempt_resource_receipt.py:127-168 | on any log, a completed group is accepted exactly when its events are RESERVED, LAUNCHED unless nothing ran, RESULT, all of one ownership, binding, strict profile and limits, for the admitted image |
| ReceiptValidity.RowsAnywhere | solver/attempt_resource_receipt.py:107-111 | on any log the rows are made exactly when every completed envelope is valid, and describe their RESULT events |
| ReceiptValidity.ReceiptAnywhere | solver/attempt_resource_receipt.py:92-190 | on any log, whoever wrote it, reconstruction succeeds exactly when an owner opened, something completed, every completed envelope is valid and all end with one admitted binding; the receipt names it and describes each RESULT in order of id |
| ReceiptTheorems.RunBinds | solver/attempt_executor.py:453-488 | owners of one binding leave only events of that binding |
| ReceiptTheorems.ResultCompletes | solver/attempt_resource_receipt.py:107-111 | the envelope of any RESULT is a completed one |
| ReceiptTheorems.RunReceipt | solver/attempt_resource_receipt.py:92-190 | after any result of any run with one binding for the admitted image, reconstruction succeeds exactly when both digests are prefixed, and lists each completed envelope |
| ReceiptTheorems.UnprefixedRefused | solver/attempt_executor_contracts.py:78-85 | a run with a binding the runtime accepts and a result whose receipt cannot be reconstructed |
| TakeoverReceipts.ReceiptUnder | solver/attempt_resource_receipt.py:92-190 | once an envelope is completed under a binding, reconstruction succeeds exactly if that binding is admitted and all completed envelopes carry it |
| TakeoverReceipts.AlongMore | solver/attempt_executor.py:337-412 | each item takeover records completes its own envelope or none, and changes what no other carries |
| TakeoverReceipts.ReceiptAlong | solver/attempt_executor.py:397-399 | so the receipt after any item is decided by the log takeover started from |
| TakeoverReceipts.ReceiptedRead | solver/attempt_executor.py:159-182 | the envelopes takeover completes are the unfinished ones whose generation is open, and the receipts succeed exactly as the starting log says |
| Teardown.Host.constructor | solver/attempt_executor_runtime.py:113-144 | a host with arbitrary inventories, delays and worker reply |
| Teardown.Host.Inventory | solver/attempt_executor_runtime.py:709-713 | the next inventory, and whether it could be read |
| Teardown.Host.Term | solver/attempt_executor_runtime.py:830-847 | what the worker's reply to TERM means for acknowledgement and control EOF |
| Teardown.Host.PollShortens | solver/attempt_executor_runtime.py:737-740 | each wait shortens the remaining polls, so the polling loops halt |
| Teardown.Host.Poll | solver/attempt_executor_runtime.py:735-740 | polling stops at the deadline, at an empty inventory or at an unreadable one, and not before |
| Teardown.Host.TermPhase | solver/attempt_executor_runtime.py:716-740 | TERM is sent exactly when something ran; it looks again until nothing is left, an inventory fails or half the allowance is gone, and stays within it |
| Teardown.Host.KillPhase | solver/attempt_executor_runtime.py:742-750 | at most one kill, as needed, then looking again until nothing is left, an inventory fails or the allowance is gone |
| Teardown.Host.Terminate | solver/attempt_executor_runtime.py:715-770 | complete exactly when every inventory was readable, nothing survived and a TERM was acknowledged; what is reported left was there when its half of the allowance had gone; no kill goes unreported; with exact waits it stays within the declared seconds, so a complete cleanup qualifies |
| Teardown.Host.KillAndWait | solver/attempt_executor_runtime.py:772-799 | the failed-launch teardown kills once and is complete exactly when all inventories were readable and the last was empty; with punctual waits it stays within the allowance |
| Teardown.KillNotIssued | solver/attempt_executor_runtime.py:715-770 | a host on which the teardown reports a kill it did not issue |
| Teardown.KillNotReported | solver/attempt_executor_runtime.py:772-799 | a host on which the failed-launch teardown does not report its kill |
| SlotProtocol.StepKeepsInv | solver/attempt_executor_runtime.py:146-286 | every step of prepares and launches keeps live reservations on distinct busy slots |
| SlotProtocol.RunKeepsInv | solver/attempt_executor_runtime.py:146-286 | so does every interleaved run |
| SlotProtocol.StepKeepsTight | solver/attempt_executor_runtime.py:229-230 | a step leaks no slot exactly when it overwrites no live reservation |
| SlotProtocol.LeaksAt | solver/attempt_executor_runtime.py:229-230 | overwriting a reservation leaves its slot busy without an owner |
| SlotProtocol.OverwriteLeaks | solver/attempt_executor_runtime.py:229-230 | a run of two prepares of one envelope that leaves a slot busy with no owner |
| SlotProtocol.LeakedForever | solver/attempt_executor_pool.py:70-80 | a leaked slot stays busy and unowned whatever happens next |
| SlotProtocol.RunKeepsTight | solver/attempt_executor_runtime.py:146-286 | a run leaks nothing exactly when it never prepares an envelope whose reservation is live |
| SlotProtocol.InitTight | solver/attempt_executor_pool.py:52-60 | a new pool has nothing leaked |
| SlotProtocol.AllFree | solver/attempt_executor_runtime.py:619-626 | with nothing overwritten, every slot is free once no reservation and no prepare is live |
| SlotProtocol.CondemnedForever | solver/attempt_executor_pool.py:70-84 | a condemned slot is never handed out again and no later prepare begins |
| AttemptRuntime.AttemptPool.Acquire | solver/attempt_executor_pool.py:70-76 | the first free slot of a healthy worker becomes busy and nothing else changes; none exactly when there is none |
| AttemptRuntime.AttemptPool.Release | solver/attempt_executor_pool.py:78-80 | the slot is free again |
| AttemptRuntime.CausePriority | solver/attempt_executor_runtime.py:802-816 | cancellation outranks resource breaches, which outrank the deadline, in the declared order |
| AttemptRuntime.DecideExact | solver/attempt_executor_runtime.py:375-392 | a poll breaks exactly on a broken control descriptor, else blames the first cause in the sample it rests on, taken again after a frame |
| AttemptRuntime.Monitor | solver/attempt_executor_runtime.py:360-407 | watching halts at the first poll that is not quiet, with that poll's frame, sample and first cause; the deadline counts exactly when the clock read before it says so |
| AttemptRuntime.CompleteMonitor | solver/attempt_executor_runtime.py:432-499 | a cause is the outcome; without one LAUNCH_FAILED exactly on an error frame, FILESYSTEM exactly on a failed copy of a safe workspace after a complete cleanup, else EXITED; cleanup complete and slot usable exactly when the teardown was complete and an owed terminal frame came |
| AttemptRuntime.ReconcileOne | solver/attempt_executor_runtime.py:310-340 | takeover reports nothing to do without a cgroup, refuses one outside the pool, and else tears down; complete exactly accordingly |
| AttemptRuntime.PrepareRuns | solver/attempt_executor_runtime.py:146-230 | a prepare, successful or not, is a run of the slot protocol |
| AttemptRuntime.LaunchRuns | solver/attempt_executor_runtime.py:238-286 | so is a launch |
| AttemptRuntime.Watch | solver/attempt_executor_runtime.py:259-282 | process evidence is missing exactly on a fault or a control break, which is LAUNCH_FAILED with the slot lost; otherwise every earlier poll was quiet and the observation is what the last poll, the teardown and the copy come to; the slot is usable exactly when there is evidence of a complete cleanup |
| AttemptRuntime.Runtime.Prepare | solver/attempt_executor_runtime.py:146-230 | succeeds exactly when every check passes and a slot is free; every refusal leaves slots and reservations as they were |
| AttemptRuntime.Runtime.Cancel | solver/attempt_executor_runtime.py:232-236 | the envelope is remembered as cancelled |
| AttemptRuntime.Runtime.Launch | solver/attempt_executor_runtime.py:238-286 | a launch succeeds exactly on a live reservation, which is then gone and its slot free; the slot stays healthy exactly when it was and the observation has evidence of a complete cleanup; the observation accounts for what the watch saw |
| AttemptRuntime.Runtime.Finish | solver/attempt_executor_runtime.py:619-626 | the reservation is dropped and the slot freed, condemned unless usable |
| ProfilePhase.ProjectProfilePhase | solver/board_profile_phase.py:32-78 | the loop computes the fold that `AcceptsExactly` is about |
| ProfilePhase.RefusedStays | solver/board_profile_phase.py:32-78 | once refused, a log stays refused however it goes on |
| ProfilePhase.AcceptsExactly | solver/board_profile_phase.py:32-78 | accepted are exactly the logs of starts, then at most one decision matching the last start, then at most one opening after an authoritative decision with the same receipt |
| ProfileGate.FitsAfter | solver/board_profile_phase.py:81-156 | whatever a step of a boot appends, the fold accepts, and log, receipt file and boot still fit together |
| ProfileGate.StepKeeps | solver/board_broker.py:195-254 | every step of a boot, and its death between any two, keeps the gate's invariant |
| ProfileGate.RunKeeps | solver/board_broker.py:195-254 | so does every run over any number of boots |
| ProfileGate.DecidedForGood | solver/board_broker.py:195-235 | once decided, the decision never changes and the receipt on disk stays the one it names |
| ProfileGate.OperatingOpened | solver/board_broker.py:237-244 | a boot that operates opened operations itself |
| ProfileGate.DispatchAfterOpen | solver/board_broker.py:350-351 | with a profile required, an operation is dispatched only after the same boot's own open, with an authoritative decision in the log and its receipt on disk |
| ProfileGate.DispatchBeforeProbe | solver/board_broker.py:591-596 | without the requirement, a boot that has not opened dispatches exactly while no probe was ever started |
| ProfileGate.OnePeerPerBoot | solver/board_broker.py:246-254 | all authorised profile calls of one boot come from one peer |
| ProfileGate.OneProber | solver/board_broker.py:246-254 | across all boots every probe was started by the same peer |
| ProfileGate.RunAccepted | solver/board_profile_phase.py:94-156 | every run leaves a log the fold accepts, of the required shape |
| ProfileBroker.ProfileBroker.constructor | solver/board_broker.py:131-193 | a new boot starts with no peer and no operations over what earlier boots left |
| ProfileBroker.ProfileBroker.Authorise | solver/board_broker.py:246-254 | a call is authorised exactly with the right handle and, once there is one, the boot's own peer, else the undecided probe's |
| ProfileBroker.ProfileBroker.QualifyProfile | solver/board_broker.py:195-235 | a call is refused exactly if unauthorised; a decided phase is never probed again and answers with its own decision exactly for the same rules and source; an undecided one ends decided with its own receipt on disk |
| ProfileBroker.ProfileBroker.Probe | solver/board_broker.py:219-235 | one probe goes from its start to a decision that names the receipt on disk |
| ProfileBroker.ProfileBroker.StartProbe | solver/board_profile_phase.py:91-110 | the next probe's start is appended under the caller |
| ProfileBroker.ProfileBroker.ReadBack | solver/board_broker.py:206-218 | an existing decision is returned exactly for the same rules and the receipt's own source; for the same rules the boot takes the receipt on disk as its own |
| ProfileBroker.ProfileBroker.RecordObservations | solver/board_broker.py:302-324 | each document leaves one observation, and recording does not move the phase |
| ProfileBroker.ProfileBroker.SealAndDecide | solver/board_profile_phase.py:112-136 | the receipt is on disk before the decision that names it |
| ProfileBroker.ProfileBroker.OpenProfiledOperations | solver/board_broker.py:237-244 | which answer is given, each exactly: unauthorised, not authoritative, opened; a refusal leaves log and operations as they were |
| ProfileBroker.ProfileBroker.OpenForBoot | solver/board_profile_phase.py:138-156 | opening is appended once, and this boot operates |
| ProfileBroker.ProfileBroker.ProfileAllowsOperations | solver/board_broker.py:591-596 | operations are allowed exactly when this boot opened them, or none is required and no probe was ever started; if required, the log holds an authoritative decision |
| ProfileDocuments.KeyOfName | solver/board_profile_documents.py:23-55 | a document's name reads back as that document |
| ProfileDocuments.NameOfKey | solver/board_profile_documents.py:23-55 | every valid name is the name of exactly one document |
| ProfileDocuments.DetailBijection | solver/board_profile_documents.py:23-40 | detail names and detail endpoints determine each other |
| ProfileDocuments.ObservedNameOf | solver/board_broker.py:260-269 | the name taken from a request id is the name of the document asked for |
| ProbeIndex.TwoPasses | solver/board_profile_receipt.py:333-348 | two passes recorded one after the other are indexed apart, nothing repeated and nothing lost |
| ProbeIndex.HeldDetails | solver/board_profile.py:667-676 | the detail ids in the index, in numeric order, are the ids that were read |
| ProbeIndex.CountTells | solver/board_profile_receipt.py:338-340 | the index is smaller than the observations exactly when some were repeated |
| ProbeIndex.OfPassByName | solver/board_profile_receipt.py:342-360 | selecting a pass from the index gives its documents by name |
| ProbeIndex.Scan | solver/board_profile_receipt.py:333-340 | one scan keeps exactly the probe's own observations and indexes them |
| ProfileReceipt.FetchConsistent | solver/board_broker.py:275-300 | a document records its true size, and is complete exactly when nothing was cut, unreachable answers included |
| ProfileReceipt.FetchKeeps | solver/board_broker.py:275-300 | a document has the answer's own status, type and size, and its body or as much as the limit lets through; an unreachable Board leaves an empty one |
| ProfileReceipt.ReadAndRecord | solver/board_broker.py:256-273 | each document is in the log before the next is asked for, in reading order |
| ProfileReceipt.CollectCycle | solver/board_profile.py:145-174 | a pass returns its documents and leaves exactly their observations |
| ProfileReceipt.RebuildProbe | solver/board_profile_receipt.py:327-371 | the loop computes the reconstruction that `ProbeRebuilt` is about |
| ProfileReceipt.PassRebuilt | solver/board_profile.py:667-676 | one pass is assembled from its indexed documents as it was collected |
| ProfileReceipt.ProbeRebuilt | solver/board_profile_receipt.py:327-371 | reconstruction gives back exactly the collected probe, for any number of Challenges and whatever else the log holds |
| ProbeCodec.ProbeIdInjective | solver/board_profile_phase.py:91-92 | probe ids of different serials differ |
| ProbeCodec.EarlierFiltered | solver/board_profile_receipt.py:333-337 | observations of earlier, crashed probes are not taken for this probe's |
| ProbeCodec.RecordProbe | solver/board_broker.py:219-225 | a probe run after any earlier ones leaves a log from which exactly that probe is rebuilt |
| ProbeRuns.RunKeeps | solver/board_broker.py:195-324 | in every run of gate steps and recorded documents over any boots, the observations of the current probe are those read so far, and of later probes there are none |
| ProbeRuns.RunRebuilds | solver/board_profile_receipt.py:327-371 | in every such run, when a receipt can be sealed and ever after it was sealed or decided, the log rebuilds exactly the collected probe |
| ProbeCodec.WireRoundTrip | solver/board_profile_receipt.py:244-318 | a document survives the receipt exactly when its size and completeness agree with its body |
| ProbeCodec.RequestIdTells | solver/board_profile.py:145-174 | request ids tell passes and documents apart |
| ProbeCodec.FlattenPass | solver/board_profile.py:659-664 | a pass flattens to its documents by name, details in numeric order |
| ProbeCodec.WiresBack | solver/board_profile_receipt.py:258-279 | consistent documents are read back from the receipt as written |
| ProbeCodec.ProbeRoundTrip | solver/board_profile_receipt.py:233-279 | a collected probe written into the receipt and read back is the same probe |
| ProbeValidity.CycleExact | solver/board_profile_receipt.py:342-360 | a pass is assembled exactly from documents that include every control and all lie at their name's endpoint, and then out of all of them, details by id |
| ProbeValidity.RebuildExact | solver/board_profile_receipt.py:327-371 | on any log the probe is rebuilt exactly when none of its documents was observed twice and both passes were observed whole, and then out of what was observed |
| ProbeValidity.FromWireExact | solver/board_profile_receipt.py:282-318 | exactly the forms of consistent documents are read from a receipt, each as the document it is the form of |
| ProbeValidity.ProbeFromExact | solver/board_profile_receipt.py:258-279 | a probe document is read exactly when it is the form of two assembled passes that share no request id |
| ChallengeDetails.CorroborateDetails | solver/board_profile.py:515-544 | the two loops compute the corroboration that `CorroborateExact` is about |
| ChallengeDetails.CollectExact | solver/board_profile.py:521-533 | collecting succeeds exactly on sound documents asked for once each, and keeps each under its id |
| ChallengeDetails.RowsExact | solver/board_profile.py:536-544 | rows are made exactly when every listed Challenge agrees with its detail |
| ChallengeDetails.CorroborateExact | solver/board_profile.py:515-544 | it succeeds exactly when no id was asked for twice and details and listing confirm each other field by field, and yields what the details say strictly sorted by id |
| ChallengeDetails.CorroboratesPermuted | solver/board_profile.py:515-544 | corroboration does not depend on either order |
| ChallengeDetails.CorroboratePermuted | solver/board_profile.py:515-544 | permuting listing or details changes neither rows nor refusal |
| ProfileQualify.OrderedExact | solver/board_profile.py:709-711 | exactly the given fields, each once, in declared order |
| ProfileDecisions.DisagreementNamesFields | solver/board_profile.py:221-224 | the fields named for two disagreeing passes are exactly those in which their own facts differ |
| ProfileDecisions.ChangedExact | solver/board_profile.py:222-223 | the fields of the changed parts are those of the parts whose values differ |
| ProfileDecisions.SettledExact | solver/board_profile.py:363-445 | a pass settles exactly when it is sound |
| ProfileDecisions.SettledHolds | solver/board_profile.py:436-445 | the projection of a sound pass holds its own identity, windows, ledger, Mana, configs and anonymous read, the rows of its details by id, and the number instanced |
| ProfileDecisions.ProjectionsAgree | solver/board_profile.py:221-224 | two projections are equal exactly when their passes differ in no field |
| ProfileDecisions.InstancedDetails | solver/board_profile.py:363-445 | the rows count as many instanced Challenges as there are instanced details |
| ProfileDecisions.AuthorityExact | solver/board_profile.py:207-267 | authority is given exactly to two sound passes of a supported kind whose facts differ in no field, with agreeing windows and wrappers that compile; the profile holds the facts of both |
| ProfileDecisions.CutExact | solver/board_profile.py:112-122 | exactly which fields a cut document leaves unsettled |
| ProfileDecisions.PassLeavesExact | solver/board_profile.py:363-435 | exactly which fields the first failing check of a pass leaves unsettled |
| ProfileDecisions.RefusalExact | solver/board_profile.py:207-267 | every refusal names exactly the fields left unsettled, by the first unsound pass, by what changed or by the windows, each once, in declared order, and at least one |
| AttemptProgress.ConfirmKeeps | solver/attempt_progress.py:35-120 | every confirmation keeps each record fitting what was accepted before it |
| AttemptProgress.RunGood | solver/attempt_progress.py:35-120 | so does every run of confirmations, acquisitions and closes |
| ProgressDecisions.GateExact | solver/work_generation.py:120-211 | a generation is held by the Attempt of its last event if that opens it, and shut if that closes it |
| ProgressDecisions.ArtifactExact | solver/attempt_progress.py:168-177 | an artifact is confirmed exactly with a real judge, nothing empty and a digest of 64 hex digits |
| ProgressDecisions.AcceptedExactly | solver/attempt_progress.py:38-61 | a request is accepted exactly from the holder, with evidence new to the generation, at the present epoch, confirmed, well attested and under an unspent id |
| ProgressDecisions.RefusedExactly | solver/attempt_progress.py:43-59 | each recorded refusal has its own exact condition |
| ProgressDecisions.UnrecordedExactly | solver/attempt_progress.py:45-118 | so have late, repeated, unknown and duplicate |
| ProgressDecisions.ConfirmLeaves | solver/attempt_progress.py:62-99 | what each answer leaves in the log: nothing, a late event, the authority, or the authority and a record of the request's own checkpoint and evidence |
| ProgressDecisions.AnswerEpochs | solver/attempt_progress.py:61-99 | the epochs an answer names are the number accepted before and after it, and it carries as many checkpoints unless it came too late |
| AttemptProgress.EpochsCount | solver/attempt_progress.py:38-99 | a generation's accepted records carry epochs 0, 1, 2, … and distinct evidence |
| AttemptProgress.CarriesPrefix | solver/attempt_progress.py:150-167 | every record, whatever its status, carries the digest of what was accepted up to it |
| ProgressDecisions.CarryLists | solver/attempt_progress.py:150-167 | in every run a record's carry lists one checkpoint for each accepted record up to it, in epoch order, with that record's own contents |
| AttemptProgress.AcceptedStays | solver/attempt_progress.py:139-147 | events of other generations change nothing for this one |
| AttemptProgress.CarryAgrees | solver/attempt_progress.py:122-131 | on a current generation the carry is the one its latest record holds |
| AttemptProgress.ConfirmRaises | solver/attempt_progress.py:35-120 | the store refuses exactly when the generation is open, the id is taken, and the request is no repeat by the holder |
| AttemptProgress.SpentForever | solver/attempt_progress.py:38-99 | once recorded under any status, a checkpoint and evidence are never accepted again |
| AttemptProgress.RetryRefused | solver/attempt_progress.py:38-99 | a rejected request retried with the right epoch raises |
| AttemptProgress.ReceiptDocument | solver/attempt_progress_receipt.py:28-65 | the receipt's selections of accepted records, rejections and late requests |
| ProgressDecisions.DecisionsExact | solver/attempt_progress_receipt.py:28-65 | the receipt's decisions are the progress records of the log, all and in order |
| ProgressDecisions.AcceptedTotal | solver/attempt_progress_receipt.py:28-65 | its count is of the accepted ones |
| AttemptProgress.MembersCount | solver/attempt_progress_receipt.py:57-60 | comparing a list's length with its set's detects exactly repetition |
| AttemptProgress.RepeatsElsewhere | solver/attempt_progress_receipt.py:57-60 | an accepted record repeats an evidence id exactly when another generation had accepted it |
| AttemptProgress.DistinctExact | solver/attempt_progress_receipt.py:57-60 | accepted evidence ids are distinct exactly when none was accepted under two generations |
| AttemptProgress.ReplayExact | solver/attempt_progress_receipt.py:57-60 | the receipt's replay check holds in a run exactly then |
| AttemptProgress.LateRecovered | solver/attempt_progress_receipt.py:13-25 | the receipt recovers exactly the requests that came too late |
| AttemptProgress.EventIdsCollide | solver/attempt_progress.py:75 | two different triples whose parts contain the separator share an event id |
| AttemptProgress.JoinedExact | solver/attempt_progress.py:75 | two pairs joined by the separator agree exactly when they are equal or one first part continues the other across a separator |
| AttemptProgress.EventIdsExact | solver/attempt_progress.py:75 | exactly which event ids collide, across generations and within one |
| AttemptProgress.EventIdsDiffer | solver/attempt_progress.py:75 | without the separator in generation and checkpoint they never do |
| ProgressControl.SelectAccepted | solver/attempt_progress.py:139-147 | one pass selects a generation's accepted records |
| ProgressControl.SelectGate | solver/work_generation.py:120-211 | one pass finds a generation's state |
| ProgressControl.ProgressController.constructor | solver/attempt_progress.py:29-33 | a controller over an empty log |
| ProgressControl.ProgressController.ConfirmRequest | solver/attempt_progress.py:35-120 | the log and the answer are the specified ones; it accepts exactly as `AcceptedExactly` says, and a record holds the request's own contents; an acceptance returns the next epoch and the carry the log then has |
| ProgressControl.ProgressController.CarryFor | solver/attempt_progress.py:122-131 | as many checkpoints as were accepted while someone holds the generation, else none |
| ProgressControl.ProgressController.Expired | solver/attempt_progress.py:133-137 | expired exactly at the cliff with nothing accepted from the given epoch on |
| ProgressControl.AcceptedCarries | solver/attempt_progress.py:35-120 | the carry an acceptance returns is the carry of the log it leaves |
| BrokerReceipt.RowsList | solver/board_broker_receipt_projection.py:34-77 | the rows are the requests in reservation order, each with its own records |
| BrokerReceipt.ProbesClearExact | solver/board_broker_receipt_projection.py:92-104 | the probes are clear exactly when there is a last probe of each of the six kinds and it was clear, for the socket refused |
| BrokerReceipt.ReceiptExact | solver/board_broker_receipt_projection.py:12-89 | on any log it succeeds exactly when there is a request, each has one reservation and one later classification of the same identity and no other record, and the last probe of each kind passed; the rows list each request's own records in reservation order |
| BrokerReceipt.GroupRecords | solver/board_broker_receipt_projection.py:16-23 | one pass collects each request's records in order |
| BrokerReceipt.PairRecords | solver/board_broker_receipt_projection.py:24-33 | pairs are made exactly when no request's records are incomplete or doubled |
| BrokerReceipt.ProjectReceipt | solver/board_broker_receipt_projection.py:12-104 | the loops compute the projection, with the same exact condition and rows |
| BrokerProtocol.ReserveStored | solver/event_store_core.py:482-508 | a reservation is written or refused, never swallowed, when no empty record holds its id |
| BrokerProtocol.StoredExact | solver/event_store_core.py:482-508 | the store writes a record of a new id, swallows one of a taken id with the same body, a reservation's being empty, and refuses any other |
| BrokerProtocol.StepKeeps | solver/board_broker.py:330-516 | every step of every request keeps each dispatch behind its own reservation, restarts permitting |
| BrokerProtocol.RunKeeps | solver/board_broker.py:330-516 | so does every interleaved run whose restarts find no empty record numbered beyond their count |
| BrokerProtocol.DispatchesReserved | solver/board_broker.py:330-516 | in such a run every dispatch was preceded by its own reservation |
| BrokerProtocol.RunDistinct | solver/board_broker.py:660-663 | the event ids in the log are distinct in every run |
| BrokerProtocol.UnsafeBreaks | solver/board_broker.py:161 | after any other restart some request can be dispatched without a reservation of its own |
| BrokerProtocol.Gap | solver/board_broker.py:660-663 | an id drawn and never written leaves a gap below a later reservation |
| BrokerProtocol.UnsafeReachable | solver/board_broker.py:330-516 | such a dispatch is reachable |
| BrokerPairing.StepKeeps | solver/board_broker.py:330-516 | with restarts that find no empty record numbered beyond their count, every step keeps each request's records paired or in flight |
| BrokerPairing.RunKeeps | solver/board_broker.py:330-516 | so does every such run |
| BrokerPairing.RequestPaired | solver/board_broker_receipt_projection.py:24-50 | a classified request has one reservation and one later classification of its identity |
| BrokerPairing.RunReceipt | solver/board_broker_receipt_projection.py:12-104 | in a run that lost no request and has none in flight, there is a receipt exactly when something was requested and the probes passed, and it lists the requests in reservation order |
| BrokerPairing.RunReceiptExact | solver/board_broker_receipt_projection.py:12-104 | in every such run there is a receipt exactly when something was requested, the last probe of each kind passed and every reserved request is classified |
| BoardBroker.Broker.constructor | solver/board_broker.py:131-193 | a boot counts the broker events already in the log |
| BoardBroker.Broker.NextId | solver/board_broker.py:660-663 | ids count up by one |
| BoardBroker.Broker.ReserveRequest | solver/board_broker.py:352-370 | the reservation is appended, and is the request's own, whenever no record holds its id; otherwise the store decides |
| BoardBroker.Broker.DispatchRequest | solver/board_broker.py:391-418 | one dispatch after the reservation, then a second id |
| BoardBroker.Broker.ClassifyRequest | solver/board_broker.py:418-474 | the classification is appended whenever no record holds its id, and otherwise the store decides |
| BoardBroker.Broker.Execute | solver/board_broker.py:330-516 | a refused request leaves no trace; which answer is given follows exactly from what the store does with the reservation and then the classification, with one dispatch between them; with unused ids the log gains exactly the two |
| BrokerCodec.ValueBack | solver/board_broker_contracts.py:216-300 | a value that fits its operation decodes to itself, a ledger page's body apart |
| BrokerCodec.ReadBack | solver/board_broker_contracts.py:254-300 | the same for the operation's own decoder |
| BrokerCodec.ProvenanceBack | solver/board_broker_contracts.py:155-213 | provenance survives except the redaction-policy digest |
| BrokerCodec.Unwrap | solver/board_broker_contracts.py:183-213 | decoding reads back operation, outcome and request id, and refuses exactly when the value does |
| BrokerCodec.ResultBack | solver/board_broker_contracts.py:155-213 | a typed result decodes to itself but for those two blanks |
| BrokerCodec.WireRoundTrip | solver/board_broker.py:1090-1157 | splitting, encoding, decoding and rejoining gives the result back exactly when its payload is within the receiver's bound, and a refusal otherwise |
| BrokerCodec.ReceiveExact | solver/board_broker.py:1108-1157 | whatever the stream brings, a payload is accepted exactly with the announced positive length within the bound and the announced digest, into a value that left room for it |
| BrokerCodec.OversizedRefused | solver/board_broker.py:1126-1157 | a download one byte above the bound that is refused |
| BrokerCodec.PageDigestKept | solver/board_broker_contracts.py:216-251 | a page's digest survives exactly when it was stated, or the body's digest is the empty one's |
| TableMachine.FeedCell | solver/board.py:618-653 | one printed cell adds its trimmed text to headings or row, at its end or when the next cell opens |
| TableMachine.FeedCells | solver/board.py:618-653 | so does a run of cells, any of which may lack its end tag |
| TableMachine.FeedRow | solver/board.py:618-646 | one printed row is kept as its trimmed texts |
| TableMachine.FeedRows | solver/board.py:618-646 | rows are kept in order |
| TableMachine.FeedHead | solver/board.py:618-646 | headings are read with or without a `thead`, closing as either cell tag |
| TableMachine.FeedTable | solver/board.py:618-653 | a printed table is read as its headings and rows with nothing left open |
| TableMachine.ColumnRead | solver/board.py:584-601 | any column of a printed table is that column of the rows read |
| TableMachine.FeedHolds | solver/board.py:618-653 | reading any stream keeps no more cells than the stream opens |
| TableMachine.StandsOpen | solver/board.py:618-646 | after any stream the reader holds a cell or row open, and the table closed, exactly as the stream left them |
| LedgerTable.NameColumn | solver/board.py:613-616 | the first heading that names the challenge, or the first column when none does |
| LedgerTable.NamesExact | solver/board.py:613-616 | a heading names the challenge exactly if it holds the word, letter by letter in either case |
| LedgerTable.JoinExact | solver/board.py:648-649 | joining puts the chunks one after another |
| LedgerTable.TrimExact | solver/board.py:648-649 | a trimmed cell is its text with white space only cut off its ends, and none left there |
| LedgerTable.AnswerExactly | solver/board.py:584-601 | for any stream there is an answer exactly when headings were found, the last table was closed, no row or cell was left open and every row is as wide as the headings |
| LedgerTable.AnswerMeansWidth | solver/board.py:584-601 | for any tag stream, an answer means every kept row is as wide as the headings, gives its name cell, and headings and rows are together no more cells than the stream opens |
| LedgerTable.LedgerReader.constructor | solver/board.py:603-611 | a reader that has read nothing |
| LedgerTable.LedgerReader.FinishOpenCell | solver/board.py:648-653 | the open cell goes to headings or row |
| LedgerTable.LedgerReader.HandleStart | solver/board.py:618-630 | a start tag moves the reader as the state machine says |
| LedgerTable.LedgerReader.HandleData | solver/board.py:632-634 | text inside a cell is kept, and only there |
| LedgerTable.LedgerReader.HandleEnd | solver/board.py:636-646 | an end tag moves the reader as the state machine says |
| LedgerTable.ReadRows | solver/board.py:584-601 | reading a page computes the answer that `PrintedTable` and `AnswerMeansWidth` are about |
| LedgerTable.PrintedTable | solver/board.py:584-653 | for every printed table the reader returns the trimmed name column of every row in order |
| Stream.SlotMore | scripts/stream.py:458-469 | one more record changes only the Step of the begin it closes |
| Stream.ReferenceMore | scripts/stream.py:458-469 | an end closes its begin in place, and anything else is appended |
| Stream.Read | scripts/stream.py:421-472 | each Attempt's Steps are its begins in place, each ended by the next record of its index if that is an end, and the ends that close nothing |
| Stream.BeginInPlace | scripts/stream.py:458-469 | a begin's Step is the Step of the end that closed it, or its own and un-ended exactly when it was never matched |
| Stream.EndInPlace | scripts/stream.py:463-469 | an end that closes nothing is a Step of its own at its own place |
| Stream.EndAddsNothing | scripts/stream.py:463-469 | an end that closes a begin adds nothing |
| Stream.BracketsOfAttempt | scripts/stream.py:447-469 | one Attempt's step records are the same in the stream and on their own |
| Stream.ReadAlone | scripts/stream.py:421-472 | reading one Attempt's records alone gives it the same Steps |
| Stream.ClosesMostRecent | scripts/stream.py:463-469 | what an end closes is the most recent unmatched begin of its index |
| Stream.ClosesWhenever | scripts/stream.py:463-469 | while no Step is begun twice in a row, an end closes a begin whenever one is unmatched |
| Stream.MissesExactly | scripts/stream.py:463-469 | an end leaves an unmatched begin open exactly when its index was begun twice in a row earlier and the record of the index just before it is an end |
| Stream.SecondEndAppended | scripts/stream.py:463-469 | begin, begin, end, end leaves the first begin open and the second end a Step of its own |
| Replay.CutPartitions | scripts/stream.py:245-261 | cutting at spawns partitions the model's Steps, one turn per spawn and at most a tail |
| Replay.TurnsPartition | scripts/stream.py:245-261 | the turns joined are the model's Steps in order |
| Replay.TurnExact | scripts/stream.py:245-261 | every turn is exactly the model's Steps between two spawns, in order |
| Replay.CutTurns | scripts/stream.py:245-261 | the loop computes those turns of the sorted Steps |
| Replay.MergeDelivers | scripts/eval_thresholds.py:112-130 | every Step, and every claim that precedes some Step, is delivered once |
| Replay.MergeStrict | scripts/eval_thresholds.py:112-130 | the calls come in strictly increasing sequence order |
| Replay.MergeIsSorted | scripts/eval_thresholds.py:112-130 | the calls are the sorted merge of Steps and eligible claims |
| Replay.SayPrefix | scripts/eval_thresholds.py:119-122 | the claims before a Step are handed over in order and popped |
| Replay.SayBefore | scripts/eval_thresholds.py:119-122 | what stays in the dictionary is exactly the later claims |
| Replay.ReplayTurn | scripts/eval_thresholds.py:116-130 | one turn makes its part of the merge, or stops at the cut |
| Replay.ReplayTurns | scripts/eval_thresholds.py:112-130 | all turns make the whole merge up to the first Step at which the watch cuts |
| Replay.ReplayAttempt | scripts/eval_thresholds.py:89-133 | for distinct sequence numbers the calls, up to the cut, are the sequence-ordered merge of the model's Steps with the claims that precede some of them, each once |

## Left out

- Operating-system effects: sockets, peer credentials, cgroup files, workspace files, the worker and broker processes. Their answers are inputs.
- Hashing, base64, ISO timestamps, JSON text and HTML tokenising: injective or inverse primitives over parsed values and tag tokens.
- Ids are modelled by the serial they spell. Sorting envelope ids as strings agrees with that only up to six digits, and the statements about order are for the serials.
- The process-lifecycle receipt of the executor, which is taken to succeed, and its revocation callbacks. Writing the resource receipt is modelled as whether it can be reconstructed; a failing file system is a crash step.
- The disposition a generation is closed with: `CloseAndFence` is told whether it is the one recorded.
- `AttemptExecutor.close` and the threads of a running executor as code: cancelling, waiting and draining are moves of `ExecutorProtocol`, and `AttemptExecution` covers the calls one thread makes.
- The target and research broker services of a prepared envelope appear only as whether setting them up succeeded.
- `_require_qualified`'s demand for every breach outcome and denial probe; its demands on each cleanup are part of `Terminate`.
- A cancel between a launch's return and the check that follows it counts as one before the return.
- Of the process evidence an envelope records, only the processes left after the kill and whether every inventory was readable; the other fields are those of `Teardown.Cleanup`.
- The fields of a resource row that nothing checks: observed counters, exit code and executor uid.
- Appends to the submission ledger and intake evidence inside `_execute`, and the broker's compatibility operations.
- What one profile document says on its own (window, ledger, Mana, configs and absence contracts) is given to `ProfileQualify` as facts; the rules arithmetic of an authoritative decision is not modelled.
- Receipt verification of the whole profile receipt beyond its probe, and manifest links.
- `BrokerCodec` reads a wrongly typed field as its default where the code coerces it; encoded results never have one.
- Parsing a stream's lines, and the open, close and claim records of an Attempt; which claims belong to a turn.
- The stall watch itself: when it cuts is any function of the calls made so far, which covers a fresh watch per turn.
- Trimming and lower-casing in `LedgerTable` are for ASCII.
- Clock readings and durations are real numbers; rounding is not modelled.
- `solver/__main__.py`, qualification and probe scripts, vaults and table printing.
- ClosesWhenever: a sufficient condition a writer can keep; `MissesExactly` is the exact one.
