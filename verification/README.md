# Verified model of the orchestration kernel

This project models the parts of the factory whose correctness rests on more than one
function, and proves what they promise over every input, every run or every interleaving.

- **Job ledger** (`Ledger`, `LedgerSafety`, `LedgerSteps`, `WorkflowRuns`, `WorkflowRunStore`):
  logical runs, their physical attempts and the pg-boss jobs that deliver them. Each transaction is
  a function on the tables; the class `Store` runs the same transactions statement by statement,
  with the rollback of a throwing send. `LedgerSteps` says what each transaction keeps;
  `WorkflowRuns` interleaves all of them with archiving, restoring and the gate in front of every
  delivery.
- **Startup repair** (`Reconciler`, `StartupRepair`): adoption, cancellation and parking of live
  attempts older than logical runs, told once by groups and row by row, and once as the fate of
  each row.
- **Enrichment barrier** (`Barrier`, `BarrierSafety`, `EnrichmentBarrier`): generations with two
  branches and one score job, coupled to the job ledger.
- **Outreach** (`Outreach`, `OutreachSafety`, `OutreachDelivery`): approvals, gates, reservations
  under a daily budget, finalization, replies, bounces, opt-outs.
- **Archive** (`Archive`, `ArchiveService`), **status history** (`StatusHistory`), **workspace
  staging** (`Workspace`), **isolation wrapper** (`IsolatedTask`), **gate runner** (`ReleaseGate`).
- **PNG encoder and CRC-32** (`Lfsr`, `Checksum`, `Png`) and the **build-log reader**
  (`Utf8`, `BuildLog`).

`Bytes` holds bytes, options and big-endian words. `LedgerExamples` and `OutreachExamples` hold
runs from the empty tables that reach the failing cases below. `LedgerAnswers`, `AdoptionTables`,
`BarrierAnswers` and `OutreachAnswers` tell for every transaction, by the fields of the rows alone,
which rows it writes, which it leaves, and what it answers.

A step of a machine is one committed transaction; a transaction that throws is no step. Rows are
numbered by position where the code draws a UUID or a serial number. Clocks, UUIDs, the outcome of
a send, JSON parsing, `deflate`/`inflate`, retry limits, the queue of a job type and the delays
between attempts are parameters. The register of the CRC is the 32-bit pattern of the JavaScript
number; `Checksum.ToWord` builds it from binary digits. The idempotency key of an attempt row is
the key the code resolves for it (its own, its payload's, or the job type with the business or
campaign).

## What the code does not do as described

Each of these is proved: where the promise fails, the exact condition under which it holds, and a
concrete state in which it fails.

- A pause is said to leave the attempt budget untouched; the successor starts with none spent, so
  the budget is untouched only if nothing had been spent (`LedgerSteps.PauseKeepsBudgetIff`,
  `LedgerExamples.ForgottenFailureExample`).
- A paused attempt stays in the table as waiting after its run is over and counts as a live job
  (`WorkflowRuns.PredecessorLingers`). A startup spares a business without a deliverable row from
  recovery exactly because of such a row (`LedgerSteps.StartupSparesIff`,
  `LedgerExamples.LingeringExample`).
- An attempt that startup adopts as waiting, or whose pg-boss job is in flight and of a type that
  the restarting container does not requeue, cannot be claimed by a redelivery
  (`LedgerSteps.AdoptedClaimableIff`, `LedgerExamples.UnclaimableAdoptionExample`).
- A late branch success of a replaced generation runs its writes if that generation had been
  blocked (`BarrierSafety.LateWritesRunIff`, `BarrierSafety.LateWriteExample`).
- A send finalized after its reservation left the day-long window takes a slot nobody reserved; a
  failed follow-up taken over for another channel is counted on the old one, unchecked; a bounce
  gives the slot of a sent message back (`OutreachSafety.FinalizeKeepsBudgetIff`,
  `OutreachSafety.ReserveKeepsBudgetIff`, `OutreachSafety.BounceFreesSlotIff`,
  `OutreachExamples.LateResultExample`, `OutreachExamples.TakeOverExample`,
  `OutreachExamples.BounceExample`). By how much the budget can be exceeded is proved for every run
  (`OutreachSafety.BudgetSlipsAtMost`, `OutreachSafety.WindowSlipsAtMost`).
- The do-not-contact and reply gates are read before the reservation, in another transaction
  (`OutreachSafety.StopComesTooLateIff`, `OutreachExamples.LateStopExample`).
- Restoring a campaign also restores a business archived by hand at the cascade's instant
  (`Archive.RestoreUndoesCascadeIff`, `Archive.SameInstantExample`).
- A log poll that meets ill-formed UTF-8 can overshoot its offset: if the file stays as it is, all
  lines are repeated; if it grows past the offset, lines are lost (`BuildLog.PollKeepsStepIff`,
  `BuildLog.SecondPollRepeatsIff`, `BuildLog.OvershotOffsetLosesLines`,
  `BuildLog.LostLineExample`).
- A path to be preserved is deleted with its parent if the output lacks that parent directory
  (`Workspace.ExcludedIsKeptIff`, `Workspace.ExcludedIsLostExample`).

Two more conditions are exact but concern inputs that the program never passes, and so are
preconditions rather than failures: a log limit of zero returns everything, and the only caller in
src passes none (`BuildLog.LimitHoldsIff`, src/api/server.ts:437); a cleanup that owns a cleanup of
its own does not bring it along, and the gate list has one cleanup
(`ReleaseGate.CleanupRunsWithOwnerIff`, scripts/release-gate.ts:82-83). A skip of an archived
business's delivery is only safe for a current attempt or a run that is over
(`LedgerSafety.SkipIsSafeIff`); archiving and the gate together see to that
(`WorkflowRuns.GateIsTimely`).

## Model

| member | source | states |
|---|---|---|
| WorkflowRuns.AlwaysSafe | src/orchestrator/workflowRunStore.ts:141-391 | over any interleaving of enqueues, deliveries through the archive gate, results, pauses, repairs, archiving and restoring: one active run per job type and key, attempts of a run numbered 1..current once each, run and current attempt in agreement, nothing of an archived business at work, and closed rows never reopened |
| WorkflowRuns.GateIsTimely | src/orchestrator/queue.ts:143-175 | in every state of every run, what the gate for archived businesses skips is a current attempt, one without a run, or one whose run is over: archiving has closed the paused ones |
| WorkflowRuns.GateDecides | src/orchestrator/queue.ts:138-212 | a delivery of an archived business ends at the gate and closes its live row; any other one passes; without passing no delivery is claimed |
| LedgerSteps.OneRunnableAttempt | src/orchestrator/queue.ts:177-212 | two queued or running attempts of one run are the same attempt |
| LedgerSteps.EnqueueRefinesOffer | src/orchestrator/workflowRunStore.ts:172-259 | enqueue refines a partial map from job type and key to the active run: accepted iff there is none, a duplicate names that run and changes only its counter |
| WorkflowRuns.OthersOnlyClose | src/orchestrator/queue.ts:122-451 | no move but enqueue and repair adds an entry to that map or changes one |
| WorkflowRuns.DuplicatesCountedExactly | src/orchestrator/workflowRunStore.ts:191-219 | over any run of the ledger the counter of a logical run grows by the number of duplicates reported for it |
| WorkflowRuns.AlwaysMirrored | src/orchestrator/workflowRunStore.ts:221-249 | every transaction adds attempt rows and pg-boss jobs one to one, and no two rows ever share a job |
| LedgerSteps.SecondPauseFindsTheFirst | src/orchestrator/workflowRunStore.ts:294-316 | of two racing continuations the second returns the first one's successor and changes nothing |
| LedgerSteps.NoSuccessorOnceClosed | src/orchestrator/workflowRunStore.ts:317-324 | a pause of an attempt whose run is closed or has moved on changes nothing |
| LedgerSteps.PauseKeepsBudgetIff | src/orchestrator/workflowRunStore.ts:254-260 | a pause takes back the paused attempt's own count, and the run's spent budget is unchanged iff nothing had been spent before the delivery |
| LedgerExamples.ForgottenFailureExample | src/orchestrator/workflowRunStore.ts:254-260 | a reachable ledger in which one attempt is spent, and none after the next delivery pauses |
| WorkflowRuns.PredecessorLingers | src/orchestrator/workflowRunStore.ts:364-376 | over any moves a paused attempt whose run has moved on keeps its row, saying that it waits, until its business is archived |
| LedgerSteps.StartupSparesIff | src/orchestrator/reconcile.ts:186-208 | after a startup a business counts as live iff a row of it can still be delivered or is such a predecessor |
| LedgerExamples.LingeringExample | src/orchestrator/reconcile.ts:186-208 | a reachable ledger in which all work of a business succeeded and no job is left, and every startup still counts it as live |
| LedgerSteps.RetryLimitIsExact | src/orchestrator/queue.ts:360-434 | an attempt can be claimed again after up to `limit` failing deliveries and the next one fails it together with its run |
| LedgerSafety.SkipIsSafeIff | src/orchestrator/queue.ts:143-175 | skipping a delivery keeps the ledger safe iff the delivered attempt is current, has no run, or its run is over |
| WorkflowRunStore.Store.EnqueueInTransaction | src/orchestrator/workflowRunStore.ts:172-259 | the statements of one enqueue come to the specified state and result; only an accepted command depends on the send |
| WorkflowRunStore.Store.EnqueueTransaction | src/orchestrator/workflowRunStore.ts:145-170 | all commands are enqueued or none: it succeeds iff every payload is valid and every send of the transaction works, and otherwise the tables are as before |
| WorkflowRunStore.Store.ContinueAfterRateLimit | src/orchestrator/workflowRunStore.ts:261-391 | scheduled, existing, legacy or stale exactly as specified; a failing send of the successor undoes the whole continuation |
| WorkflowRunStore.Store.ClaimDelivery | src/orchestrator/queue.ts:177-212 | a claim moves attempt and run together and counts the attempt, or changes nothing |
| WorkflowRunStore.Store.CommitResult | src/orchestrator/queue.ts:222-255 | a success or failure is committed iff the attempt is running and current in a running run |
| WorkflowRunStore.Store.CommitSkip | src/orchestrator/queue.ts:263-294 | a skip closes a running attempt, and the run only at the attempt's own sequence |
| WorkflowRunStore.Store.SkipArchivedDelivery | src/orchestrator/queue.ts:143-175 | the delivered row is not live afterwards, only its own active run is cancelled with it, no other row, run or job is touched, and a safe ledger stays safe when the delivery is timely |
| LedgerSteps.ResultMovesBoth | src/orchestrator/queue.ts:222-255 | a result of a running attempt moves attempt and run to one status and nothing else; any other result changes nothing |
| LedgerSteps.StaleClosesGhostsOnly | src/orchestrator/reconcile.ts:117-157 | exactly the live rows nothing will deliver become stale, and exactly their runs fail |
| LedgerSteps.RequeuedCanBeClaimed | src/orchestrator/reconcile.ts:282-321 | an orphaned row can be claimed again at once through its own pg-boss job; no other row changes |
| LedgerSteps.ArchiveStopsWork | src/orchestrator/archiveService.ts:447-497 | archiving leaves nothing of the business to run or decide and touches no other row |
| LedgerAnswers.AcceptedWrites | src/orchestrator/workflowRunStore.ts:181-249 | without a busy run of the type and key a command becomes one queued run, one queued first attempt and one job in its queue |
| LedgerAnswers.DuplicateNamesTheCurrent | src/orchestrator/workflowRunStore.ts:191-219 | with one, the answer names that run, its status and sequence, its current attempt and that attempt's job |
| LedgerAnswers.ResultsAre | src/orchestrator/queue.ts:222-294 | a running attempt and its run become succeeded, skipped, for a human, failed or queued, by whether the handler finished, found nothing, asked for a human, or failed for good or not |
| LedgerAnswers.PauseWrites | src/orchestrator/workflowRunStore.ts:326-381 | a pause of the running attempt parks it, takes its count back, and queues the next attempt of the same run behind a new job |
| LedgerAnswers.PauseAnswers | src/orchestrator/workflowRunStore.ts:272-324 | any other pause writes nothing; it names the next attempt iff that is current in a run still busy |
| LedgerAnswers.StaleWrites | src/orchestrator/reconcile.ts:117-157 | exactly the live rows without a live job become stale, save paused predecessors and rows of closed runs, and their runs fail |
| LedgerAnswers.RequeueWrites | src/orchestrator/reconcile.ts:282-321 | exactly the running rows of owned types with a job in flight, their runs and their jobs go back to the queue |
| LedgerSafety.MarkStaleSafe | src/orchestrator/reconcile.ts:117-157 | closing rows that nothing delivers keeps the ledger safe and revives no run |
| LedgerSafety.RequeueSafe | src/orchestrator/reconcile.ts:282-321 | requeuing orphaned build rows keeps the ledger safe and revives no run |
| LedgerSafety.CancelBusinessSafe | src/orchestrator/archiveService.ts:447-497 | cancelling a business's work and failures keeps runs and attempts in agreement |
| Reconciler.EveryRowMeetsItsFate | src/orchestrator/legacyJobReconciler.ts:86-250 | whatever the order of groups, each row ends as its fate says (adopted into a new run, cancelled, parked, kept), runs are only added and the ledger stays safe |
| Reconciler.EventsTellFates | src/orchestrator/legacyJobReconciler.ts:253-300 | every row with a fate has exactly one event, of its own kind, and no other row has any |
| Reconciler.OneAdoptionPerKey | src/orchestrator/legacyJobReconciler.ts:160-232 | of the rows of a job type and key that had no run, at most one has one in the tables the pass leaves, and none if a run of that key was active |
| Reconciler.ContestedIsParked | src/orchestrator/legacyJobReconciler.ts:142-158 | in the tables the pass leaves, every live row of a group with two jobs in flight waits for a human |
| Reconciler.BestIsLeast | src/orchestrator/legacyJobReconciler.ts:55-65 | the winner is the least row by rank, the earliest among equals |
| Reconciler.InFlightWins | src/orchestrator/legacyJobReconciler.ts:55-65 | the one job pg-boss has in flight wins its group |
| Reconciler.JobsFollowRows | src/orchestrator/legacyJobReconciler.ts:235-281 | a pg-boss job is closed iff some row of it is parked, or is cancelled and the job is not the one that the row's group keeps; rows may share jobs |
| Reconciler.LeftoversAreGhosts | src/orchestrator/legacyJobReconciler.ts:118-134 | after a pass no deliverable row is left without a run, and what is left live is the stale pass's share |
| Reconciler.SecondPassIsIdle | src/orchestrator/legacyJobReconciler.ts:86-250 | a second pass changes nothing and records nothing |
| AdoptionTables.LoneRowIsAdopted | src/orchestrator/legacyJobReconciler.ts:67-77 | the only live row of its work, with a live job in its type's own or physical queue and no active run, is given a new run of its type, key and business, running if it or its job was, else as it was |
| AdoptionTables.StrayRowIsParked | src/orchestrator/legacyJobReconciler.ts:118-127 | a deliverable row without a run whose type is unknown or whose job stands in any other queue waits for a human, and its job is closed |
| AdoptionTables.PreferredIsAdopted | src/orchestrator/legacyJobReconciler.ts:55-65 | of two rows for the same work the one whose job is further on, or whose row is, or whose job is older is adopted, in this order; the other one is cancelled and its job closed unless they share it |
| AdoptionTables.RivalsAreParked | src/orchestrator/legacyJobReconciler.ts:142-158 | two rows for the same work with both jobs in flight wait for a human, and their jobs are closed |
| AdoptionTables.RowBesideRunIsCancelled | src/orchestrator/legacyJobReconciler.ts:162-232 | a row for work that an active run is doing is cancelled |
| AdoptionTables.UndeliveredFollows | src/orchestrator/legacyJobReconciler.ts:139-141 | a row that no job delivers is cancelled if another row of its work is deliverable |
| AdoptionTables.UndeliveredAloneIsLeft | src/orchestrator/legacyJobReconciler.ts:118-120 | and left alone if none is |
| AdoptionTables.OwnedRowsStay | src/orchestrator/legacyJobReconciler.ts:105-108 | rows that have a run or are closed are never touched |
| AdoptionTables.EventsTellTables | src/orchestrator/legacyJobReconciler.ts:200-300 | every row that changed has one event and no other row has any; the event says adopted iff the row got a run, duplicate iff it was cancelled, and one of the other two iff it waits for a human |
| StartupRepair.LegacyJobReconciler.CancelAttempt | src/orchestrator/legacyJobReconciler.ts:253-300 | closes a row only while it is live and without a run, then also its pg-boss job and one event |
| StartupRepair.LegacyJobReconciler.CancelRows | src/orchestrator/legacyJobReconciler.ts:235-247 | the sibling loop, row by row, comes to the bulk cancellation and counts it |
| StartupRepair.LegacyJobReconciler.ParkAndGroup | src/orchestrator/legacyJobReconciler.ts:118-134 | the first loop parks the misfits and lists the groups in the order they appear |
| StartupRepair.LegacyJobReconciler.Settle | src/orchestrator/legacyJobReconciler.ts:135-248 | one round of the second loop settles its group as specified and counts what it did |
| StartupRepair.LegacyJobReconciler.Reconcile | src/orchestrator/legacyJobReconciler.ts:86-250 | the whole pass comes to the specified tables and events, and its three counters are the numbers of new events by kind |
| StartupRepair.CountInFlight | src/orchestrator/legacyJobReconciler.ts:142-143 | more than one active delivery is counted iff the group is contested |
| StartupRepair.FindWinner | src/orchestrator/legacyJobReconciler.ts:160 | the scan finds the specified winner |
| LedgerSteps.EachLegacyRowExitsOnce | src/orchestrator/reconcile.ts:329-364 | a startup gives each live legacy row one exit: adopted, current and deliverable (stale with its run if another row gave up the job they share), or cancelled, parked or stale |
| LedgerSteps.SecondStartupIsIdle | src/orchestrator/reconcile.ts:329-364 | two startups in a row come to the same tables as one |
| WorkflowRuns.AdoptedClosesTogether | src/orchestrator/queue.ts:222-255 | whatever moves follow the repair, a worker still running an adopted attempt closes the attempt and its run together |
| WorkflowRuns.LateFinishIsIgnored | src/orchestrator/queue.ts:222-255 | a result for a row the repair closed is ignored, then and after any later steps |
| LedgerSteps.AdoptedClaimableIff | src/workers/main.ts:245-258 | after startup and requeue an adopted attempt can be claimed iff its job was not given up and it is in flight and of an owned type, or not in flight and queued |
| LedgerExamples.UnclaimableAdoptionExample | src/orchestrator/legacyJobReconciler.ts:67-71 | a waiting row is adopted with a live job, and no restart makes it claimable |
| BarrierSafety.AlwaysSound | src/orchestrator/enrichmentBarrier.ts:79-431 | in every interleaving with the job ledger, restarts and archiving included, the barrier stays sound, over generations are never touched again and blocked ones keep their reason and never score |
| BarrierSafety.ScoreExactlyOnce | src/orchestrator/enrichmentBarrier.ts:138-160 | at any time a generation has exactly one score job in the ledger if both branches succeeded, and none otherwise |
| BarrierSafety.JoinIsAccepted | src/orchestrator/enrichmentBarrier.ts:393-417 | the score job of a join is always a new logical run, never a duplicate |
| BarrierAnswers.ScoreCommittedOnce | src/orchestrator/enrichmentBarrier.ts:355-391 | over any steps of the machine the score of a generation is committed at most once |
| BarrierAnswers.OneGeneration | src/orchestrator/enrichmentBarrier.ts:167-391 | a run of the machine from a start over both branches to a score that is committed, with three jobs in the ledger |
| BarrierAnswers.SecondCommitIsIdle | src/orchestrator/enrichmentBarrier.ts:376-381 | however late a committed score is delivered again, the answer is false and nothing changes |
| BarrierAnswers.CommitCompletes | src/orchestrator/enrichmentBarrier.ts:376-388 | a score is committed iff its generation has the score enqueued and both branches succeeded; then that generation is completed, the commands are enqueued and no other row changes |
| BarrierAnswers.SettleWrites | src/orchestrator/enrichmentBarrier.ts:80-160 | a result is written iff its branch is open in a running or blocked generation; the first failure blocks with its reason, the success that joins enqueues the score job, and no other branch or generation changes |
| BarrierAnswers.SettleAnswers | src/orchestrator/enrichmentBarrier.ts:80-160 | each of the six answers is given exactly for the statuses of the generation and its branches that call for it |
| BarrierAnswers.AuthorizeAnswers | src/orchestrator/enrichmentBarrier.ts:294-319 | run, settled, blocked or stale, exactly by the generation's status and whether the branch is open |
| BarrierAnswers.StartOpens | src/orchestrator/enrichmentBarrier.ts:167-201 | a start of a known business in its campaign supersedes what is current of that business only, and opens a generation above all others of it |
| BarrierAnswers.StartQueuesBranches | src/orchestrator/enrichmentBarrier.ts:203-226 | and queues one job of each branch, in its physical queue and under its key, each a run of its own |
| BarrierAnswers.ScoreIsQueued | src/orchestrator/enrichmentBarrier.ts:404-414 | the score job's type, queue and key |
| BarrierAnswers.AdoptAnswers | src/orchestrator/enrichmentBarrier.ts:233-283 | a branch job without a generation shares the current legacy one, is refused by a native one, or opens a legacy one above all others |
| BarrierAnswers.ShelvingSupersedes | src/orchestrator/archiveService.ts:486-494 | archiving a business ends its open generation and no other |
| BarrierSafety.CurrentIsLatest | src/orchestrator/enrichmentBarrier.ts:167-226 | at most one generation of a business is current, and it has the highest number |
| BarrierSafety.OrderDoesNotMatter | src/orchestrator/enrichmentBarrier.ts:286-291 | after any sequence of successful deliveries, repeated or not, the state depends only on which branches were delivered |
| BarrierSafety.LateWritesRunIff | src/orchestrator/enrichmentBarrier.ts:98-112 | a success of a replaced generation runs its writes iff that generation is blocked and the branch pending |
| BarrierSafety.LateWriteExample | src/orchestrator/enrichmentBarrier.ts:98-112 | a sound state in which a replaced generation's success still writes |
| BarrierSafety.WritesIffAuthorizedOrBlocked | src/orchestrator/enrichmentBarrier.ts:294-319 | a success's writes are committed iff the delivery is authorized to run or was told that its generation is blocked |
| EnrichmentBarrier.Service.OpenGeneration | src/orchestrator/enrichmentBarrier.ts:167-226 | opens the next generation with its two jobs, or, on an unknown business, a foreign campaign or a failing send, changes nothing |
| EnrichmentBarrier.Service.SettleBranch | src/orchestrator/enrichmentBarrier.ts:393-431 | the decision, the rows, the score job and whether the branch's writes ran are as specified; it throws iff the score job has to be sent and the send fails, and then nothing changes |
| EnrichmentBarrier.Service.CommitScoreRun | src/orchestrator/enrichmentBarrier.ts:355-391 | the score is committed with its commands iff the generation is still current; it throws iff the business is unknown or a send of a current score fails, and then nothing changes |
| OutreachSafety.BudgetSlipsAtMost | src/orchestrator/outreachDeliveryService.ts:95-201 | in any order of everybody's steps the slots taken never exceed the limit by more than the number of steps that take a slot unchecked: late results, unchecked take-overs, confirmations of automated rows and reservations under a higher limit |
| OutreachSafety.AlwaysWithinBudget | src/orchestrator/outreachDeliveryService.ts:95-201 | so without such steps the slots taken never exceed the limit, at any moment |
| OutreachSafety.WindowSlipsAtMost | src/orchestrator/outreachDeliveryService.ts:120-145 | no day-long window, past or present, holds more automated sends than the limit plus those steps, the bounces and the sends over another channel than their row's |
| OutreachSafety.NoWindowOverLimit | src/orchestrator/outreachDeliveryService.ts:120-145 | so without any of these no day-long window ever holds more automated sends than the limit |
| OutreachSafety.FinalizeKeepsBudgetIff | src/orchestrator/outreachDeliveryService.ts:203-282 | finalizing a send keeps the budget iff its reservation is still in the window or a slot is free |
| OutreachSafety.ReserveKeepsBudgetIff | src/orchestrator/outreachDeliveryService.ts:141-160 | a reservation keeps the budget iff it is not a manual one that takes over a failed automated row at a full budget |
| OutreachSafety.ManualIsFree | src/orchestrator/outreachDeliveryService.ts:97-120 | a manual channel is never refused for the budget, and its reservation takes no slot iff it does not take over a failed automated row |
| OutreachSafety.BounceFreesSlotIff | src/orchestrator/inboundOutreachService.ts:119-148 | at a full budget a bounce lets the next reservation through iff the bounced message held a slot |
| OutreachExamples.LateResultExample | src/orchestrator/outreachDeliveryService.ts:203-282 | a reachable state with its one slot taken, and a late result takes a second |
| OutreachExamples.TakeOverExample | src/orchestrator/outreachDeliveryService.ts:141-160 | a reachable state with both slots taken, and a manual follow-up takes over an automated row as a third |
| OutreachExamples.BounceExample | src/orchestrator/inboundOutreachService.ts:119-148 | a reachable state in which one bounce let two messages out in a day under a limit of one |
| OutreachExamples.LateStopExample | src/workers/outreach.ts:174-200 | a reachable state in which an opt-out is on record and the message is still reserved |
| OutreachSafety.AlwaysRooted | src/orchestrator/outreachDecisionService.ts:79-157 | over any run at most one message per key, each under an approved approval of its own business, and initial messages go where the approved draft says |
| OutreachSafety.DecidedOnce | src/orchestrator/outreachDecisionService.ts:79-207 | a decided approval is never decided again |
| OutreachSafety.InitialKeepsItsTarget | src/workers/outreach.ts:122-200 | taking over a failed initial message never changes its channel or address |
| OutreachSafety.StopsForGood | src/workers/outreach.ts:284-316 | once a reply, bounce, opt-out or do-not-contact entry is recorded and no worker is past its gates, no worker ever passes them again for anything in its scope, not even under a new approval; and nothing in the scope is reserved, for a single address provided failed rows are taken over for their own target |
| OutreachSafety.StopComesTooLateIff | src/workers/outreach.ts:174-200 | a reservation takes something of a scope iff the worker holds a ticket, its key is free or failed, a slot is free where one is needed, and the row it makes or takes over is in the scope |
| OutreachAnswers.OptOutIsForever | src/orchestrator/inboundOutreachService.ts:70-117 | after an opt-out, whatever follows, no worker ever again passes a gate for that business or for that address |
| OutreachAnswers.HoldsASlotForADay | src/orchestrator/outreachDeliveryService.ts:121-140 | a queued message of an automated channel holds a slot until a day after its reservation, one that was or may have been sent until a day after that; failed and manual ones hold none |
| OutreachAnswers.UsedKeyReserves | src/orchestrator/outreachDeliveryService.ts:103-163 | a key with a row is a duplicate unless the row failed; then it is queued again where it stands, as far as the budget allows |
| OutreachAnswers.LatestIsLast | src/workers/outreach.ts:125-133 | the approval that counts is the one decided last |
| OutreachAnswers.BarredAtTheGate | src/workers/outreach.ts:172-184 | an approved business that is barred at the gate, by itself or by its address, becomes do-not-contact and gets no ticket |
| OutreachAnswers.FollowupGatePasses | src/workers/outreach.ts:284-316 | a follow-up passes iff it is scheduled, nothing came back, nobody is barred, business and deal are still at contacted, and the first message went out |
| OutreachAnswers.ConfirmationWrites | src/orchestrator/outreachDecisionService.ts:209-292 | confirming a pending manual message marks it sent and contacts its business once, with the numbered follow-ups; any other confirmation changes nothing |
| OutreachSafety.SentContactsOnce | src/orchestrator/outreachDeliveryService.ts:203-282 | a sent first message moves status and deal and schedules exactly the numbered follow-ups, from the approved status only; finalizing again changes nothing |
| OutreachDelivery.DeliveryService.ReserveMessage | src/orchestrator/outreachDeliveryService.ts:95-201 | reserved, duplicate or daily limit, and the resulting row, exactly as specified |
| OutreachDelivery.DeliveryService.FinalizeInitial | src/orchestrator/outreachDeliveryService.ts:203-282 | only a queued message is finalized; message, business, deal and follow-ups change together |
| OutreachDelivery.CountSlots | src/orchestrator/outreachDeliveryService.ts:121-140 | the count is the number of messages that hold a slot of the window |
| Archive.RestoreUndoesCascadeIff | src/orchestrator/archiveService.ts:318-407 | after any archiving in between, restoring a campaign gives its businesses back exactly as they were iff none had been archived by hand at the cascade's instant; the campaign comes back paused |
| Archive.RepeatedArchivingIsIdle | src/orchestrator/archiveService.ts:150-232 | further archiving, of anything and in any way, does not touch a shelved campaign or its businesses |
| Archive.ArchivingKeepsStatuses | src/orchestrator/archiveService.ts:150-407 | no archive operation changes a business's status or campaign |
| Archive.DeleteIsCleanOrRefused | src/orchestrator/archiveService.ts:506-574 | a delete takes a business with all its rows and nobody else's, or nothing if there is an approval or a message |
| Archive.ChildrenFirst | src/orchestrator/archiveService.ts:499-574 | rows are deleted before the rows they cite |
| Archive.OutreachOutlives | src/orchestrator/archiveService.ts:118-136 | a business with an approval or a message survives every sequence of archive operations and deletions, and so does every one of its rows, in order |
| Archive.OneRecordIsEnough | src/orchestrator/archiveService.ts:118-136 | one approval, or one message, is enough: the business and that record survive every sequence of archive operations and deletions |
| Archive.ShelvingStamps | src/orchestrator/archiveService.ts:189-232 | what archiving by name, with a campaign, and restoring make of every single business: the stamp and reason of exactly the live ones asked for, an earlier stamp kept, everybody else untouched |
| Archive.DeletedIfEmpty | src/orchestrator/archiveService.ts:410-437 | a campaign with a business stays, one without is removed and nothing else |
| Archive.NeverOrphans | src/orchestrator/archiveService.ts:410-437 | a campaign is deleted only when empty: no sequence of operations leaves a business without its campaign |
| Archive.BringBackUndoesIff | src/orchestrator/archiveService.ts:234-253 | whatever was archived in between, restoring a business by name gives it back as it was iff it was live before, and it is never left archived |
| Archive.SameInstantExample | src/orchestrator/archiveService.ts:366-407 | a business archived by hand and with its campaign at one instant comes back with the campaign |
| ArchiveService.Service.ShelveRows | src/orchestrator/archiveService.ts:189-232 | stamps exactly the live businesses asked for, at one instant, and counts them |
| ArchiveService.Service.ShelveWithCampaign | src/orchestrator/archiveService.ts:318-364 | the cascade as specified, with the number of live members it shelved; an archived campaign is left alone and counts none |
| ArchiveService.Service.DeleteBusinesses | src/orchestrator/archiveService.ts:262-287 | for any ids, repeated or empty ones included, exactly the present businesses among them without an approval and without a message go, with exactly their rows; the three counts are the numbers of distinct ids deleted, kept for an approval or a message, and unknown |
| ArchiveService.DeletedAreTheFree | src/orchestrator/archiveService.ts:262-287 | of the businesses named, exactly those without an approval and without a message are gone, with exactly their rows, in whatever order they are taken |
| StatusHistory.HistoryIsAChain | src/orchestrator/statuses.ts:153-203 | over any commands the history is a connected chain from the first to the present status, normal rows follow edges, and rows count the moves |
| StatusHistory.OneRacerWins | src/orchestrator/statuses.ts:153-203 | of commands racing from the present status exactly one moves, the first |
| StatusHistory.ContactedWasApproved | src/orchestrator/businessStatus.ts:28-43 | a business contacted by normal moves went through production, build, site and approval immediately before |
| StatusHistory.NormalMovesStopAtTheEnd | src/orchestrator/businessStatus.ts:45-50 | a status without outgoing edges is not left by normal moves |
| StatusHistory.EntriesInto | src/orchestrator/businessStatus.ts:28-43 | the workflow read backwards: from exactly which statuses each status is entered by a normal move |
| StatusHistory.AnswersTell | src/orchestrator/statuses.ts:71-203 | each of the five answers exactly when it is due, and the business afterwards |
| StatusHistory.TransitionService.Move | src/orchestrator/statuses.ts:71-203 | moves iff the command is not refused, leaves its status and finds it; every other answer leaves the business as it was; a connected legal history stays one |
| Workspace.MirrorAgrees | src/runner/workspace.ts:171-209 | after a sync the destination agrees with the output in kind, content and file time on every path that is not excluded |
| Workspace.MirrorableIff | src/runner/workspace.ts:171-209 | a tree can be mirrored iff at every path that is not excluded the source is a file or a directory and what is already there is of that kind |
| Workspace.ExcludedIsKeptIff | src/runner/workspace.ts:182-194 | at and below an excluded path nothing changes iff its parent is still a directory of the output; otherwise it is gone |
| Workspace.ExcludedIsLostExample | src/runner/workspace.ts:182-194 | an excluded file goes with its directory when the output has no such directory |
| Workspace.StagedCopies | src/runner/workspace.ts:134-149 | the copy has at every path what the workspace has, save everything under the excluded names |
| Workspace.StageThenSync | src/runner/workspace.ts:134-149 | staging a workspace and syncing the untouched copy back is the identity, file times included |
| Workspace.MirrorTwice | src/runner/workspace.ts:212-223 | syncing twice is syncing once |
| Workspace.MirrorDirectory | src/runner/workspace.ts:171-209 | the walk throws iff some entry that is not excluded is a link, special, or changes its kind, and otherwise comes to the mirrored tree |
| IsolatedTask.FactoryComesBack | scripts/run-isolated-factory-task.ts:21-104 | for every order of signals and child events `up` is issued at most once and last, has been issued at the end, the task needs a clean stop, and only stop or task are ever killed, at most once |
| IsolatedTask.TaskStartsClean | scripts/run-isolated-factory-task.ts:78-88 | the task starts only on a completed clean stop before any signal |
| IsolatedTask.RemoveIffInterruptedBefore | scripts/run-isolated-factory-task.ts:88-100 | the container is removed before `up` iff a signal came before restoration began |
| IsolatedTask.ExitZeroIff | scripts/run-isolated-factory-task.ts:107-113 | the exit code is zero iff the run was uninterrupted and all three commands succeeded |
| IsolatedTask.FirstSignalIsForwarded | scripts/run-isolated-factory-task.ts:31-40 | the same for every state: which child is killed, by which signal, and when none is |
| IsolatedTask.ReportedCode | scripts/run-isolated-factory-task.ts:25-29 | an error counts as exit 1, a death by SIGINT as 130, by SIGTERM as 143, by any other signal as 1 |
| IsolatedTask.QuietRun | scripts/run-isolated-factory-task.ts:75-113 | without interference: stop, task, up, and the first failure is the exit code; an unanswered command counts as failed |
| IsolatedTask.FailedStop | scripts/run-isolated-factory-task.ts:78-100 | a failed stop skips the task, brings the factory up all the same and is the exit code |
| IsolatedTask.InterruptedTask | scripts/run-isolated-factory-task.ts:88-113 | a signal during the task kills it, has it removed before `up`, and is the exit code |
| IsolatedTask.FourCompletionsEndIt | scripts/run-isolated-factory-task.ts:52-70 | at most four reports count, each child settles once, and until the end exactly one child is awaited |
| IsolatedTask.EndsWithItsCommands | scripts/run-isolated-factory-task.ts:52-104 | at most four commands are issued, and the wrapper has ended iff each of them has completed, once |
| IsolatedTask.Wrapper.HandleShutdown | scripts/run-isolated-factory-task.ts:31-40 | the first signal is remembered and, outside restoration, sent on to the child that is being awaited; a later one, or one after the end, does nothing; every reachable state stays sound |
| IsolatedTask.Wrapper.Finish | scripts/run-isolated-factory-task.ts:52-104 | a second report of a child changes nothing; the awaited child's report keeps the state sound and brings the end closer |
| ReleaseGate.RunGates | scripts/release-gate.ts:115-133 | results are the gates that had to run, in order, with their exit codes; results and skipped together are the selection |
| ReleaseGate.CleanupRunsWithOwnerIff | scripts/e2e/releaseGatePolicy.ts:6-14 | an adjacent cleanup runs iff its owner does, except when the owner itself only ran as the cleanup before it |
| ReleaseGate.NothingAfterFailure | scripts/release-gate.ts:121-132 | after the first failure only its own cleanup runs |
| ReleaseGate.GreenIff | scripts/release-gate.ts:137-145 | no failure is reported iff every selected gate ran and passed |
| ReleaseGate.RanExactly | scripts/release-gate.ts:116-132 | by the exit codes: all gates run, or those up to the first that fails and its adjacent cleanup |
| ReleaseGate.SelectedConcat | scripts/release-gate.ts:115 | gates are selected one by one and keep their order |
| ReleaseGate.FullSelectsAll | scripts/release-gate.ts:115 | a quick run leaves out exactly the gates for full runs, a full run none |
| Checksum.MakeCrcTable | scripts/test-brand-identity.ts:46-54 | each entry of the table is eight turns of the shift register on its index |
| Checksum.Crc32 | scripts/test-brand-identity.ts:55-59 | the table-driven loop computes the bit-serial checksum of every byte string (sections 3.4 and 15 of RFC 2083) |
| Checksum.CrcIsBitSerial | scripts/test-brand-identity.ts:55-59 | the checksum by byte steps is the one that shifts single bits |
| Checksum.BurstDetected | scripts/test-brand-identity.ts:55-59 | two messages of equal length that differ only within four consecutive bytes have different checksums |
| Checksum.KnownChecksum | scripts/test-brand-identity.ts:46-59 | the checksum of the four letters IEND is 0xae426082, as in every PNG file |
| Png.ParseFrameAll | scripts/test-brand-identity.ts:60-67 | parsing framed chunks gives the chunks back (section 3.2 of RFC 2083) |
| Png.FrameAllOfParse | scripts/test-brand-identity.ts:60-67 | whatever parses is the framing of what was parsed, so framing is unique |
| Png.CorruptChunkRejected | scripts/test-brand-identity.ts:60-67 | a chunk changed within four consecutive bytes of its type and data does not parse |
| Png.UnfilterFiltered | scripts/test-brand-identity.ts:74-79 | dropping the filter bytes undoes the scanline layout |
| Png.FilteredUnfiltered | scripts/test-brand-identity.ts:74-79 | and scanlines that unfilter are the layout of what comes out |
| Png.ImageLayout | scripts/test-brand-identity.ts:80-86 | the file is the eight signature bytes and the frames of IHDR, IDAT and IEND, told in bytes (sections 3.1 and 4.1 of RFC 2083) |
| Png.EndFrame | scripts/test-brand-identity.ts:84 | the last twelve bytes of every file |
| Png.DecodedIsEncoded | scripts/test-brand-identity.ts:60-86 | whatever the decoder accepts is the encoding of the picture it returns, up to how the data are cut into IDAT chunks |
| Png.FilterRows | scripts/test-brand-identity.ts:74-79 | the offsets stay in bounds and fill the buffer with the filtered scanlines |
| Png.MakeChunk | scripts/test-brand-identity.ts:60-67 | length, type, data and checksum of a chunk; throws iff the length does not fit its field |
| Png.MakeHeader | scripts/test-brand-identity.ts:68-73 | the thirteen header bytes (section 4.1.1 of RFC 2083) |
| Png.EncodePng | scripts/test-brand-identity.ts:45-86 | what it returns decodes to width, height and pixels whenever inflate undoes deflate, and it throws exactly on sizes that the 32-bit fields, the pixel buffer or the largest buffer cannot hold |
| Utf8.DecodedLength | src/build/buildLog.ts:326-329 | measuring decoded bytes again never comes out short, and is exact iff every ill-formed piece is three bytes long |
| Utf8.DecodeEncoded | src/build/buildLog.ts:247-250 | encoded text decodes to itself |
| Utf8.FormedIsEncoded | src/build/buildLog.ts:326-328 | what is taken for a character is the encoding of a scalar value: nothing overlong, no surrogate, nothing too large |
| Utf8.IllFormedIsMaximal | src/build/buildLog.ts:326-328 | an ill-formed piece is replaced as a whole: with the next byte it begins no character, and if longer than a byte it begins one |
| BuildLog.CompleteTextOfBytes | src/build/buildLog.ts:326-328 | cutting the decoded text at its last newline is cutting the bytes there |
| BuildLog.DecodedLines | src/build/buildLog.ts:331-340 | decoding whole lines and splitting finds the events of each line in order, corrupt ones skipped |
| BuildLog.LogFile.AppendBuildLog | src/build/buildLog.ts:241-258 | appends one encoded line, or nothing once the file is over its cap |
| BuildLog.LogFile.ReadBuildLog | src/build/buildLog.ts:296-349 | a poll returns the valid complete lines past its start, all of them up to the limit and otherwise exactly the newest `limit`, and the offset after them |
| BuildLog.TailingLosesAndRepeatsNothing | src/build/buildLog.ts:284-295 | however appends are cut and polls fall between them, every valid complete line is delivered once or cut off by a poll's limit, and without cuts all are there in order, if the complete lines keep their length |
| BuildLog.WrittenLogIsTailed | src/build/buildLog.ts:241-258 | and so they do over everything the writer writes |
| BuildLog.PollKeepsStepIff | src/build/buildLog.ts:326-329 | a reader in step stays in step iff the lines of the poll keep their length |
| BuildLog.SecondPollRepeatsIff | src/build/buildLog.ts:308-312 | after a first poll that overshoots, the next one delivers everything again; otherwise it delivers nothing |
| BuildLog.OvershotOffsetLosesLines | src/build/buildLog.ts:308-312 | a poll from past the end of what was seen delivers only what follows: the lines that end before the offset are never delivered |
| BuildLog.LostLineExample | src/build/buildLog.ts:326-329 | one stray byte, and a valid line appended afterwards is never delivered |
| BuildLog.PollAfterTruncation | src/build/buildLog.ts:308-312 | a poll that sees the emptied file goes back to zero and the next one delivers everything written since |
| BuildLog.PollFromStart | src/build/buildLog.ts:308-312 | an offset past the end restarts at zero |
| BuildLog.LongerFileIsSkipped | src/build/buildLog.ts:308-312 | what stands before the offset in a replaced file that is not shorter is never delivered |
| BuildLog.LimitHoldsIff | src/build/buildLog.ts:342 | a positive limit returns exactly the newest lines, as many as it allows; a limit of zero returns everything, so the cap holds iff the limit is positive or there are no lines |

## Left out

- PostgreSQL, pg-boss and Docker themselves: only atomic commit, rollback and the state of queue rows; lock waits and connection failures are not part of the model.
- Operator commands that close a failed or parked attempt, and the cancellation of scheduled follow-ups by an inbound event: further closings of the same two tables.
- The business transition and the branch failure that a worker's last failure joins to its transaction (src/orchestrator/queue.ts:407-433): the branch failure alone is `Barrier.Settle`.
- Stranded businesses and interrupted builds at startup (src/orchestrator/reconcile.ts:186-265): they read the ledger and move other tables.
- BarrierSafety.AlwaysSound: nobody but the barrier enqueues score jobs (an operator's manual retry of one is not part of the machine), and at the start no score row is without a run.
- WorkflowRuns.AlwaysSafe: a transaction is one step. So an enqueue that is still uncommitted while its business is archived, and a restore between the gate's read and its skip of the same delivery, are not part of the machine. The gate reads the business from the job's payload; the row carries the same one.
- WorkflowRuns.AlwaysMirrored: starts from tables in which no two rows share a pg-boss job; the schema does not enforce it, random identifiers do. The repair is proved without it.
- OutreachSafety.AlwaysWithinBudget: assumes no step that takes a slot unchecked; `OutreachSafety.BudgetSlipsAtMost` is the bound without that assumption.
- OutreachSafety.WindowSlipsAtMost: starts from a log of sends that keeps the limit and that the final rows account for, as an empty one does.
- OutreachSafety.StopsForGood: that no row of a single address goes back to the queue also needs failed rows to be taken over for their own target, because a taken-over row keeps the address it had; that no worker passes the gates does not.
- Outreach.Reserve: message subject and body, and the delivery webhooks that turn `sent` into `delivered`, are not part of the rows.
- Archive.DeleteIsCleanOrRefused: foreign keys are told by table, not by row.
- Workspace.MirrorDirectory: the time stamps of directories, and what a failed sync leaves half done; the destination holds no links at paths that are written.
- Barrier.Settle: `reason` is the text the code resolves, its own default included.
- Outreach.Finalize: every message's business exists, as its foreign key demands.
- BuildLog.LogFile.ReadBuildLog: `parse` decides which lines are events (an empty line is none); a missing file, redaction and the age of the last event are not modelled.
- IsolatedTask: a signal after the handlers are removed ends the process and is not part of the model.
- Timestamps, error texts and log output of all services.
- Agent calls, mail and chat transports, HTTP routes, the operator console, image and colour heuristics, and one-off repair scripts.
