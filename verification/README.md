# Solaris Mesh durable-state kernel

A Dafny model of the parts of Solaris Mesh that keep durable state and memory in
step, with proofs of what they promise.

- **Message bus** (the files named `Bus…`, `MessageBus`): mailboxes and claims as a
  projection of the ledger's records.
- **Resource manager** (`RateWindow`, `RateLimits`, `ResourceManager`, `UsageAccounting`): the
  provider rate window with its permits, and once-only usage accounting.
- **Runtime ledger** (`LedgerState` and the files named `Ledger…`, `InMemoryLedger`):
  sequence numbers, fenced leases, compare-and-append by identity, task admission
  and tree reads.
- **Task graphs** (`TaskGraph`), **tool rounds** (the files named `Tool…`), **plugins**
  (`Plugin…`) and the **JSONL import** (`Jsonl…`).

Each component has functions on immutable states, theorems about all their runs, and
classes or methods in the form of the source that are proved equal to the functions.
For each main operation, lemmas with names ending in `Exactly` and their neighbours say
over the fields of its inputs when it succeeds, what it answers and what it changes.
A lock held by a public method makes that method one step. Clocks, generated ids,
tool outcomes, hook results, confirmations, the iteration order of hash tables and
whether a write reaches the disk are inputs. JSON documents are datatypes, digests
are taken to be injective, and decoding a JSONL line is a parameter.

`dafny verify dfyconfig.toml` checks the whole project.

Where a promise does not hold for all inputs, the model keeps the code's behaviour,
one lemma shows a failing input and another says exactly when the promise holds:

| what fails | where | exactly when it holds |
|---|---|---|
| restoring and repeating with colliding message ids | `BusExamples.CollisionBreaksRebuild`, `BusExamples.RepeatDeletesCopy` | `BusCollisions.RunRebuildsExactly`, `BusCollisions.RepeatedSendExactly` |
| the mailbox bound with colliding message ids | `BusExamples.RepeatReopens` | `BusLoad.RunFitsExactly` |
| numbers and sums at the 64-bit limit | `LedgerExamples.LimitBreaksSequences`, `RateWindow.SaturationBreaksSums` | `LedgerSequences.AppendKeepsSequencesExactly`, `RateWindow.AcquireConservesExactly` |
| marks of a deleted Run | `LedgerExamples.DeletionLeavesMarks` | `LedgerMarks.MarksOvertakeExactly` |
| teams with ephemeral batch markers | `LedgerTeams.EphemeralMarkerBreaksTeams` | `LedgerTeams.BatchKeepsIntactExactly` |
| the identity index over raw appends | `LedgerExamples.RawAppendBreaksIndex` | `LedgerUnique.CallAgreesExactly` |
| order and stop of a tool round | `ToolBatchTheorems.LateAskBreaksBoth`, `ToolBatchTheorems.ReplayBreaksStop` | `ToolBatchTheorems.OrderHoldsExactly`, `ToolBatchTheorems.StopHoldsInFull` |
| bindings under a reused activation id | `PluginTheorems.ReusedIdBreaksBindings` | `PluginTheorems.ActivationExact` |
| re-import of a continued tail | `JsonlTheorems.ContinuedTailDuplicates` | `JsonlTheorems.GrowthIsIncrementalExactly` |

## Model

| member | source | states |
|---|---|---|
| `BusRuns.RestoreRebuildsLiveState` | crates/solaris-agent/src/message_bus.rs:206-234 | After any run of sends, broadcasts, replays, claims, acknowledgements, drains, foreign records and restarts on one Run in which no step delivers an id that a record of the other kind, direct or broadcast, delivered before, feeding its records in order to the restore routines on an empty bus gives exactly the live mailboxes and claims |
| `BusRuns.DisjointIdsStayApart` | crates/solaris-agent/src/message_bus.rs:319-354 | That assumption holds of every run in which no direct id equals the id of a copy of one of its broadcasts |
| `BusCollisions.RunRebuildsExactly` | crates/solaris-agent/src/message_bus.rs:540-564 | For any run, colliding ids or not: restoring rebuilds the live state at every point if and only if every new message finds nothing under its id at its recipient and every repeat finds nothing to move |
| `BusCollisions.StepStaysExactly` | crates/solaris-agent/src/message_bus.rs:444-509 | The same for one step from any state in step with its log, repeats and replays included |
| `BusCollisions.SendRebuildsExactly` | crates/solaris-agent/src/message_bus.rs:540-549 | A new direct send can be rebuilt if and only if its recipient holds no message with its id |
| `BusCollisions.BroadcastRebuildsExactly` | crates/solaris-agent/src/message_bus.rs:551-564 | A new broadcast can be rebuilt if and only if no recipient holds the id its copy gets |
| `BusExamples.CollisionBreaksRebuild` | crates/solaris-agent/src/message_bus.rs:319-354 | A concrete run, a direct message under a later broadcast copy's id, that the restore does not rebuild |
| `BusExamples.RepeatDeletesCopy` | crates/solaris-agent/src/message_bus.rs:444-509 | A concrete run in which a repeated direct send is answered well, appends nothing and deletes a live broadcast copy under its id |
| `BusRuns.RepeatedSend` | crates/solaris-agent/src/message_bus.rs:358-395 | On every bus reached by a run in which no step delivers an id that a record of the other kind, direct or broadcast, delivered before, a repeated send returns the original message and changes nothing at all; other content under that id is refused without change |
| `BusRuns.RepeatedBroadcast` | crates/solaris-agent/src/message_bus.rs:397-442 | The same for broadcasts, with the recipients named again or not |
| `BusCollisions.RepeatedSendExactly` | crates/solaris-agent/src/message_bus.rs:358-395 | On any reachable bus, a repeated send returns the original and changes nothing if and only if the first entry under its id and its claim are what its later records dictate |
| `BusCollisions.RepeatedBroadcastExactly` | crates/solaris-agent/src/message_bus.rs:410-442 | The same for a broadcast and all its copies |
| `BusRepair.LoopIsIdentityExactly` | crates/solaris-agent/src/message_bus.rs:444-509 | Repairing the messages of a record on any mailboxes is the identity with a good answer if and only if entry and claim of each agree with its later records |
| `BusRuns.RepairIsIdentity` | crates/solaris-agent/src/message_bus.rs:444-509 | Repairing messages of a bus in step with a log without repeated ids changes no mailbox and no claim |
| `BusRepair.RepairAgreesWithRestore` | crates/solaris-agent/src/message_bus.rs:444-509 | On any mailboxes, repairing the messages of a record of a log without repeated ids succeeds if and only if no recipient holds other content under their ids; then each has the entry and the claim a full restore gives it, and nothing else moves |
| `BusRepair.RepeatedSendBringsBack` | crates/solaris-agent/src/message_bus.rs:358-395 | On a bus that lost any deliveries and claims, with a log without repeated ids, a repeated send returns the original, appends nothing, brings that message back as restored and moves nothing else |
| `BusRepair.RepeatedBroadcastBringsBack` | crates/solaris-agent/src/message_bus.rs:397-442 | The same for a broadcast: all its lost copies come back in one repeat |
| `BusTheorems.StatusDecidesEntry` | crates/solaris-agent/src/message_bus.rs:444-509 | In a log without repeated ids, for every delivered message the restored entry and claim are what the later acknowledge, claim and dequeue records about it dictate |
| `BusTheorems.RestoredIsSound` | crates/solaris-agent/src/message_bus.rs:540-564 | In a log without repeated ids, restored mailboxes hold each id once and only messages delivered to that agent |
| `BusLog.BroadcastMessageIdInjective` | crates/solaris-agent/src/message_bus.rs:319-354 | Broadcast copies have different ids for different broadcasts or different positions |
| `BusConservation.MessagesAreConserved` | crates/solaris-agent/src/message_bus.rs:716-761 | In a log without repeated ids, every delivered message is once in its recipient's mailbox and in no dequeue record, or in no mailbox and in exactly one dequeue record |
| `BusConservation.DequeuedAtMostOnce` | crates/solaris-agent/src/message_bus.rs:716-747 | In a log without repeated ids, the number of dequeue records naming a message is one if its recipient no longer holds it and zero otherwise |
| `BusConservation.ClaimsAreExclusive` | crates/solaris-agent/src/message_bus.rs:581-642 | In any run at all, whatever ids it uses, no message id is named by two claim records |
| `BusConservation.ClaimOrderSurvives` | crates/solaris-agent/src/message_bus.rs:581-642 | In a log without repeated ids, at every later point the unacknowledged messages of a claim stand in the mailbox in the claim's order |
| `BusConservation.RepeatedClaim` | crates/solaris-agent/src/message_bus.rs:581-642 | On a bus in step with a log without repeated ids, repeating a claim id returns exactly the still unacknowledged messages of the original claim, in its order, and changes nothing |
| `BusLoad.MailboxesStayBounded` | crates/solaris-agent/src/message_bus.rs:295-316 | If every team limit in use and the default limit are at most L, no agent ever has more than L unacknowledged messages, repeated recipients included, in any run that meets the guards of BusCollisions.RunRebuildsExactly, as runs with disjoint ids do |
| `BusLoad.DefaultLimitAlwaysBounds` | crates/solaris-agent/src/message_bus.rs:170-205 | Team limits are validated against the default, so in those runs the default bounds every mailbox |
| `BusLoad.RunFitsExactly` | crates/solaris-agent/src/message_bus.rs:444-509 | For any run whose restarts find the bus in step with its log, colliding ids or not: the bound holds at every point if and only if no repeat adds more open messages than fit |
| `BusLoad.GainIsExact` | crates/solaris-agent/src/message_bus.rs:444-509 | A repeat changes an agent's count of unacknowledged messages by exactly the sum of what its copies change, taken on the mailboxes before it |
| `BusLoad.RepairRaisesExactly` | crates/solaris-agent/src/message_bus.rs:444-509 | Repairing a message raises the count if and only if it pushes it open, or finds it acknowledged where its own later records leave it open |
| `BusExamples.RepeatReopens` | crates/solaris-agent/src/message_bus.rs:444-509 | A concrete run in which repeating a broadcast leaves two unacknowledged messages under a limit of one |
| `BusCollisions.ApartRunsStay` | crates/solaris-agent/src/message_bus.rs:206-234 | Runs in which no step delivers an id that a record of the other kind, direct or broadcast, delivered before meet every guard |
| `MessageBusObject.MessageBus.ReplaySendWithId` | crates/solaris-agent/src/message_bus.rs:358-395 | The replay of a send on the mutable bus: lookup, content check, repair |
| `MessageBusObject.MessageBus.ReplayBroadcastWithId` | crates/solaris-agent/src/message_bus.rs:397-442 | The replay of a broadcast, recipients compared only where they are given |
| `MessageBusObject.MessageBus.SendWithId` | crates/solaris-agent/src/message_bus.rs:145-235 | The sending method on the mutable bus equals the function that BusAcceptance.SendsExactly and BusAcceptance.RepeatedSendExactly determine and the run theorems are about |
| `MessageBusObject.MessageBus.BroadcastWithId` | crates/solaris-agent/src/message_bus.rs:254-356 | The same for broadcasts, with the recipient and pending-limit loops: BusAcceptance.BroadcastsExactly and BusAcceptance.RepeatedBroadcastExactly determine the answer |
| `MessageBusObject.MessageBus.RepairDurableMessages` | crates/solaris-agent/src/message_bus.rs:444-509 | The repair loop over records equals the repair function |
| `MessageBusObject.MessageBus.ClaimMessages` | crates/solaris-agent/src/message_bus.rs:581-642 | Claiming equals the claim function: the answer and the change that BusAnswers.FirstClaimExactly and BusAnswers.RepeatedClaimExactly determine |
| `MessageBusObject.MessageBus.AcknowledgeMessage` | crates/solaris-agent/src/message_bus.rs:659-694 | Acknowledging equals the function that BusAnswers.AcknowledgeExactly and BusAnswers.AcknowledgeAbsent determine |
| `MessageBusObject.MessageBus.DrainMailbox` | crates/solaris-agent/src/message_bus.rs:716-747 | Draining on the mutable bus equals the drain function: the answer and the change that BusAnswers.DrainHandsOut and BusAnswers.DrainRefuses determine |
| `MessageBusObject.MessageBus.RestoreFromRecords` | crates/solaris-agent/src/message_bus.rs:644-649 | The restore routines applied to a list of records compute the restored view |
| `RateWindow.StepConserves` | crates/solaris-agent/src/resource_manager.rs:409-582 | Acquire, start, rollback, commit and drop, in the current or a later window, keep the three reservation counters equal to the count and sums over the permits of the current window, whatever fails to persist, and never answer that a reservation is no longer active, as long as the clock is positive and no addition of the step saturates |
| `RateWindow.RunConserves` | crates/solaris-agent/src/resource_manager.rs:409-582 | So over every interleaving in which no addition saturates |
| `RateWindow.AcquireConservesExactly` | crates/solaris-agent/src/resource_manager.rs:409-462 | A granted acquisition conserves if and only if neither its request nor its tokens saturate a counter |
| `RateWindow.SaturationBreaksSums` | crates/solaris-agent/src/resource_manager.rs:409-462 | A concrete run: all the tokens there are and one more, after which the sums differ |
| `RateWindow.CommitSlotUsesPermit` | crates/solaris-agent/src/resource_manager.rs:960-967 | The commit of the run machine computes the window and the answer that the permit object computes |
| `RateWindow.LiveSumsWhenReleasesPersist` | crates/solaris-agent/src/resource_manager.rs:558-582 | When releases persist, no permit outlives its owner, so the sums range over live permits alone |
| `RateWindow.RequestLimitHolds` | crates/solaris-agent/src/resource_manager.rs:409-515 | Under a constant 64-bit request limit, started plus reserved requests never exceed it, in any run at all |
| `RateWindow.PairEndsTogether` | crates/solaris-agent/src/execution_context.rs:133-149 | Starting the Run permit and the role permit ends with both started, or with an error and both reserved, whatever other operations come in between; the only exception is a rollback that cannot be persisted |
| `ResourceManagerObject.ResourceManager.AcquireProviderRequest` | crates/solaris-agent/src/resource_manager.rs:409-462 | The method on the mutable window equals the acquisition function, whose answer and window RateLimits.GrantedExactly and RateLimits.UnpersistedChangesNothing determine |
| `ResourceManagerObject.ResourceManager.MarkProviderRequestStarted` | crates/solaris-agent/src/resource_manager.rs:464-515 | The same for starting, with its three window cases: RateLimits.OwnStartExactly and RateLimits.MovedStartExactly |
| `ResourceManagerObject.ProviderRatePermit.Commit` | crates/solaris-agent/src/resource_manager.rs:960-967 | Committing starts the permit if need be, charges the window and completes the permit; a failure drops it |
| `ResourceManagerObject.ProviderRatePermit.Drop` | crates/solaris-agent/src/resource_manager.rs:969-982 | Dropping releases what the permit's state still holds |
| `ResourceManagerObject.ExecutionProviderRatePermit.MarkStarted` | crates/solaris-agent/src/execution_context.rs:134-149 | The paired start on two permits, of two managers or of one, with the rollback of the first when the second fails |
| `UsageAccounting.TotalsAreFirstOccurrences` | crates/solaris-agent/src/resource_manager.rs:597-707 | For every sequence of usage and tool-round reports with repeats, each total is the sum over the first occurrences, capped at the 64-bit limit |
| `UsageAccounting.DuplicatesAreTheRest` | crates/solaris-agent/src/resource_manager.rs:627-676 | The duplicate count is the number of calls less the number of distinct fingerprints, capped |
| `UsageAccounting.CallsSplit` | crates/solaris-agent/src/resource_manager.rs:627-676 | Below saturation, tool calls equal duplicate calls plus seen fingerprints |
| `UsageAccounting.OrderDoesNotMatter` | crates/solaris-agent/src/resource_manager.rs:597-707 | Distinct reports in any order leave the same account |
| `UsageAccounting.UsageLedger.RecordModelUsageOnce` | crates/solaris-agent/src/resource_manager.rs:597-625 | The method on the mutable account equals the recording function and answers whether the turn and token budgets hold |
| `UsageAccounting.CountCalls` | crates/solaris-agent/src/resource_manager.rs:627-676 | The loop over a round's calls counts the useful and the repeated ones |
| `LedgerSequences.RunsKeepSequences` | crates/solaris-agent/src/runtime_ledger.rs:390-413 | Below the 64-bit limit, any mix of append, fenced append, compare-and-append, admission, lease operations and deletion keeps each Run's numbers strictly increasing and all numbers distinct and new |
| `LedgerSequences.NumbersAreNeverReused` | crates/solaris-agent/src/runtime_ledger.rs:390-413 | A number seen on a record is never seen on another record later, deletion included |
| `LedgerSequences.AppendKeepsSequencesExactly` | crates/solaris-agent/src/runtime_ledger.rs:390-413 | At the limit this fails: a durable append keeps the numbering if and only if the counter is below the maximum |
| `LedgerExamples.LimitBreaksSequences` | crates/solaris-agent/src/runtime_ledger.rs:390-413 | The run of as many appends as there are numbers, after which one more breaks the numbering |
| `LedgerLeases.NewerEpochFencesOut` | crates/solaris-agent/src/runtime_ledger_workflow_lease.rs:30-76 | Once anyone acquired the lease again, every operation with the older token fails and changes nothing, at any later time |
| `LedgerLeases.ReleaseFencesOut` | crates/solaris-agent/src/runtime_ledger_workflow_lease.rs:125-141 | The same once the lease was released |
| `LedgerLeases.EpochsIncrease` | crates/solaris-agent/src/runtime_ledger_workflow_lease.rs:30-76 | Epochs strictly increase over every run: of two acquisitions of a Run the later has the larger epoch, deletion of its records included |
| `LedgerLeases.NoEpochTwice` | crates/solaris-agent/src/runtime_ledger_workflow_lease.rs:30-76 | No epoch of a Run is handed out by two acquisitions |
| `LedgerLeases.OneTokenAtATime` | crates/solaris-agent/src/runtime_ledger_workflow_lease.rs:645-658 | At any point of any run, a token passes the fence of a Run only with the owner and the epoch of its last successful acquisition, at a time from the stored heartbeat up to before the stored expiry |
| `LedgerLeases.UnexpiredLeaseExcludes` | crates/solaris-agent/src/runtime_ledger_workflow_lease.rs:30-76 | From an acquisition on, as long as the holder does not release the lease, every acquisition by another owner before the expiry stored at that time, renewals included, fails without effect |
| `LedgerLeases.RestoreCommitDetectsEveryRace` | crates/solaris-agent/src/runtime_ledger_workflow_lease.rs:98-123 | A restore commit answers Current exactly when the Run's records are those that were there when its last number was read |
| `LedgerLeases.CurrentMeansNothingWritten` | crates/solaris-agent/src/runtime_ledger_workflow_lease.rs:98-123 | Without deletion, Current is answered exactly when no operation in between stored anything for the Run, fenced or not |
| `LedgerMarks.MarksNeverOvertake` | crates/solaris-agent/src/runtime_ledger_workflow_lease.rs:161-224 | Without deletion, and with fenced admissions under tokens that an acquisition or a renewal handed out, observed and committed marks never pass the Run's last number and the committed mark never decreases |
| `LedgerMarks.MarksOvertakeExactly` | crates/solaris-agent/src/runtime_ledger.rs:532-540 | Over every run, deletions included, a mark is above the last number if and only if the Run has no records and the mark is not zero: deletion keeps the lease, and the next record covers its marks again |
| `LedgerExamples.DeletionLeavesMarks` | crates/solaris-agent/src/runtime_ledger.rs:532-540 | A concrete run of append, acquire, commit and delete that leaves marks above the last number |
| `LedgerUnique.IndexRefinesScan` | crates/solaris-agent/src/runtime_ledger_unique.rs:126-231 | For every sequence of calls, other writes and deletions, and any sound partial index, mapping, backfill and insertion answer as the linear scan does and leave the same records |
| `LedgerUnique.OneCallAgrees` | crates/solaris-agent/src/runtime_ledger_unique.rs:126-161 | One call agrees on both paths and leaves the same records |
| `LedgerUnique.CallAgreesExactly` | crates/solaris-agent/src/runtime_ledger_unique.rs:126-161 | Without a clean ledger: a call agrees, in answer and records, if and only if its identity is not mapped, or the scan finds that one record and no record it cannot identify |
| `LedgerExamples.RawAppendBreaksIndex` | crates/solaris-agent/src/runtime_ledger_unique.rs:253-286 | A concrete run in which a raw append behind a mapping makes the index and the scan answer differently |
| `LedgerUnique.CompareKeepsClean` | crates/solaris-agent/src/runtime_ledger_unique.rs:28-70 | At most one record per identity, kept by every compare-and-append; LedgerIdentity.SameIdentityExactly says what an identity is |
| `LedgerUnique.RepeatOrConflict` | crates/solaris-agent/src/runtime_ledger_unique.rs:28-70 | An exact repeat returns the stored record and a conflicting payload is refused, both without change; LedgerIdentity.AppendsExactly says over the fields which payloads those are |
| `LedgerAdmission.TreeQuotaHolds` | crates/solaris-agent/src/runtime_ledger_task_admission.rs:277-308 | With a constant quota and all tasks of a tree admitted through its root, the tree never holds more tasks than the quota and no task id twice |
| `LedgerAdmission.AdmissionWithinQuota` | crates/solaris-agent/src/runtime_ledger_task_admission.rs:469-522 | One admission keeps the quota and the uniqueness of ids, whatever the order in which Runs are iterated |
| `LedgerAdmission.TreeTableExact` | crates/solaris-agent/src/runtime_ledger_task_admission.rs:322-341 | Reading the existing tasks gives exactly the tasks of the tree, in any iteration order |
| `LedgerTeams.TeamsStayIntact` | crates/solaris-agent/src/runtime_ledger_task_admission.rs:53-113 | When a Run's team metadata comes only from durable batch markers, its records always decode and every task of every marker ever written still has a durable team, a member coordinator and, where required, a member owner |
| `LedgerTeams.BatchKeepsIntactExactly` | crates/solaris-agent/src/runtime_ledger_task_admission.rs:185-243 | With ephemeral markers in a batch this holds if and only if the durable records and markers alone staff its tasks, or no new marker is stored |
| `LedgerTeams.EphemeralMarkerBreaksTeams` | crates/solaris-agent/src/runtime_ledger_task_admission.rs:185-243 | A concrete accepted batch after which a stored marker's task has no team |
| `LedgerTeams.NoErrorMeansStaffed` | crates/solaris-agent/src/runtime_ledger_task_admission.rs:115-183 | Admission accepts only tasks that are staffed by the metadata they were given |
| `LedgerReplay.ReplayAppendsNothing` | crates/solaris-agent/src/runtime_ledger_task_admission.rs:469-522 | After a batch of tasks with nothing but durable markers, if anything, was accepted and after any orderly run from there, the same batch is accepted again and appends nothing |
| `LedgerTree.PagesListTheTree` | crates/solaris-agent/src/runtime_ledger.rs:297-317 | Paging an unchanging tree by last number with a positive limit lists each of its records once, in order |
| `LedgerTree.ListingIsExact` | crates/solaris-agent/src/runtime_ledger.rs:297-317 | A listing is strictly ordered and holds exactly the tree's records after the mark |
| `LedgerTree.RangeSelectsTheTree` | crates/solaris-agent/src/runtime_ledger.rs:1008-1013 | The byte range from `root:` up to `root;` with the root itself selects exactly the ids of the tree |
| `InMemoryLedger.InMemoryRuntimeLedger.AppendRecord` | crates/solaris-agent/src/runtime_ledger.rs:390-413 | Appending on the mutable ledger equals the append function: ephemeral records get a number and are not stored |
| `InMemoryLedger.InMemoryRuntimeLedger.DeleteRunExact` | crates/solaris-agent/src/runtime_ledger.rs:532-540 | Deletes the records of one Run and answers how many there were |
| `InMemoryLedger.InMemoryRuntimeLedger.AcquireLease` | crates/solaris-agent/src/runtime_ledger_workflow_lease.rs:30-76 | Acquisition: owner, contention, clock rollback and epoch exhaustion, then the new lease, as LedgerFence.AcquiresExactly determines it |
| `InMemoryLedger.InMemoryRuntimeLedger.RenewLease` | crates/solaris-agent/src/runtime_ledger_workflow_lease.rs:78-96 | Renewal equals the function that LedgerFence.RenewsExactly and LedgerFence.RefusalReason determine |
| `InMemoryLedger.InMemoryRuntimeLedger.CommitWorkflowRestore` | crates/solaris-agent/src/runtime_ledger_workflow_lease.rs:98-123 | The restore commit, with the observed mark written even when it answers stale, as LedgerFence.CommitsExactly determines it |
| `InMemoryLedger.InMemoryRuntimeLedger.ReleaseLease` | crates/solaris-agent/src/runtime_ledger_workflow_lease.rs:125-141 | Release by owner and epoch, also after expiry, as LedgerFence.ReleasesExactly determines it |
| `InMemoryLedger.InMemoryRuntimeLedger.AppendUnderLease` | crates/solaris-agent/src/runtime_ledger_workflow_lease.rs:143-186 | The fenced append and its observed mark, as LedgerFence.FencedAppendsExactly determines them |
| `InMemoryLedger.InMemoryRuntimeLedger.CompareAndAppendRecord` | crates/solaris-agent/src/runtime_ledger_unique.rs:28-70 | The linear scan for the identity equals the function that LedgerIdentity.AppendsExactly and LedgerIdentity.RefusedWithoutIdentity determine: repeat, conflict, duplicate or append |
| `InMemoryLedger.InMemoryRuntimeLedger.CompareAndAppendUnderLease` | crates/solaris-agent/src/runtime_ledger_workflow_lease.rs:188-225 | The fenced compare-and-append: LedgerFence.FencedOthersExactly under a valid lease, LedgerFence.InvalidFails without one |
| `InMemoryLedger.InMemoryRuntimeLedger.AdmitTasksAndAppend` | crates/solaris-agent/src/runtime_ledger_task_admission.rs:469-522 | Admission: every check before the first write, and a refused batch leaves the ledger unchanged; LedgerBatches.AdmitsExactly says which batches are accepted and what is stored |
| `InMemoryLedger.InMemoryRuntimeLedger.AdmitUnderLease` | crates/solaris-agent/src/runtime_ledger_task_admission.rs:448-467 | Fenced admission and the lease it advances, as LedgerFence.FencedOthersExactly and LedgerFence.InvalidFails determine them |
| `InMemoryLedger.InMemoryRuntimeLedger.ReadAfterTree` | crates/solaris-agent/src/runtime_ledger.rs:297-317 | The tree read: collect over Runs in any order, sort, truncate |
| `TaskGraph.ValidateTaskGraph` | crates/solaris-agent/src/spawn_tool.rs:359-411 | Accepts exactly the task lists with unique ids, existing non-self dependencies and no cycle, whatever order the id set is walked in; acceptance gives a topological order, a cycle error names a task on a real cycle, and the other errors are the first fault in order |
| `TaskGraph.Visit` | crates/solaris-agent/src/spawn_tool.rs:384-403 | Depth-first search below one id: it extends the topological order by all it finishes or returns a real cycle through the id it reports, and terminates |
| `TaskGraph.OrderMeansAcyclic` | crates/solaris-agent/src/spawn_tool.rs:359-411 | A topological order of all tasks excludes every cycle |
| `TaskGraph.CheckDependencies` | crates/solaris-agent/src/spawn_tool.rs:373-383 | Answers none exactly when all dependencies exist and none is a dependency on itself, and otherwise the first fault |
| `ToolBatchTheorems.OneResultPerCall` | crates/solaris-agent/src/orchestration.rs:331-643 | However a round ends, no call starts or is recorded twice and a started call is recorded; a round that is not quit records every tool use once, under its id |
| `ToolBatchTheorems.OrderHoldsExactly` | crates/solaris-agent/src/orchestration.rs:356-361 | The results are in call order if and only if no call is skipped while others wait in a stopped round |
| `ToolBatchTheorems.StopHoldsInFull` | crates/solaris-agent/src/orchestration.rs:584-594 | For every list of calls, no call starts after an unknown outcome is recorded if and only if every call let through comes after no replayed unknown outcome and past no flush that met one |
| `ToolBatchTheorems.SlipsExactly` | crates/solaris-agent/src/orchestration.rs:506-516 | The calls that start with an unknown outcome on record are those let through after a replayed unknown outcome or past a flush that met one |
| `ToolBatchTheorems.PromisesHold` | crates/solaris-agent/src/orchestration.rs:506-516 | If no safe call is queued after the flush made before its confirmation met an unknown outcome, results are in order; if also no saved unknown outcome is replayed, nothing starts after an unknown outcome |
| `ToolBatchTheorems.StopHoldsWithoutReplays` | crates/solaris-agent/src/orchestration.rs:506-516 | Where no saved unknown outcome is replayed, nothing starts after an unknown outcome exactly when no safe call asks too late |
| `ToolBatchTheorems.ReplaysUnknownExactly` | crates/solaris-agent/src/orchestration/durable_tool_outcome.rs:45-82 | A replay records an unknown outcome without stopping the round exactly when a current saved error has that status and all hooks pass |
| `ToolBatchTheorems.LateAskBreaksBoth` | crates/solaris-agent/src/orchestration.rs:506-516 | A concrete round in which a safe call asks too late breaks both promises |
| `ToolBatchTheorems.ReplayBreaksStop` | crates/solaris-agent/src/orchestration.rs:442-465 | A concrete round in which a replayed unknown outcome is followed by a start |
| `ToolRound.ExecuteToolCalls` | crates/solaris-agent/src/orchestration.rs:314-643 | The loop on the three result lists equals the round that ToolBatchAnswers.RoundTells determines call by call, or quits |
| `ToolRound.Round.FlushSafe` | crates/solaris-agent/src/orchestration.rs:775-857 | The flush starts all waiting calls, then records them in queue order and reports an unknown outcome |
| `ToolRound.Round.Handle` | crates/solaris-agent/src/orchestration.rs:352-621 | One iteration equals one step, whose kind ToolBatchAnswers.DecidesExactly determines: unknown tool, unsafe flush, preparation, recovery, permission, guard, queue or execution |
| `ToolRound.Round.Admit` | crates/solaris-agent/src/orchestration.rs:373-498 | A known tool: the flush and possible skip of a call that is not safe, then preparation and recovery |
| `ToolRound.Round.Authorize` | crates/solaris-agent/src/orchestration.rs:483-575 | Permission: a recorded decision, denial, or the confirmation path; ToolBatchAnswers.StartedMayRun and ToolBatchAnswers.DeniedIsDenied say what it lets through |
| `ToolRound.Round.Dispatch` | crates/solaris-agent/src/orchestration.rs:576-621 | The pre-tool guard, then the queue for a safe call or the execution of another |
| `ToolRound.Round.Replay` | crates/solaris-agent/src/orchestration.rs:402-466 | The replay of a saved outcome, with its four ways to an unknown one |
| `ToolRound.Round.Confirm` | crates/solaris-agent/src/orchestration.rs:506-575 | The confirmation path; the stop flag its flush may set is not looked at again |
| `ToolRound.ListsCoverCalls` | crates/solaris-agent/src/orchestration.rs:331-643 | Results, modifiers and statuses of a finished round are aligned, one entry per tool use, under the calls' ids |
| `PluginTheorems.ResolveIsNearest` | crates/solaris-agent/src/plugin_runtime.rs:506-521 | Resolution returns the nearest binding on the parent chain, and none exactly when no ancestor binds the capability, be the chain finite, broken or a cycle |
| `PluginTheorems.ScopeIdInjective` | crates/solaris-agent/src/plugin_runtime.rs:538-546 | Different scopes have different ids |
| `PluginTheorems.BatchConflicts` | crates/solaris-agent/src/plugin_runtime.rs:470-489 | A batch is accepted exactly when no other plugin holds one of its capabilities |
| `PluginTheorems.RunsStayExact` | crates/solaris-agent/src/plugin_runtime.rs:586-686 | In every run of definitions, installs, activations and deactivations with fresh activation ids, each scope binds exactly the capabilities of the plugins active there, each held by one of them |
| `PluginTheorems.ActivationExact` | crates/solaris-agent/src/plugin_runtime.rs:586-637 | A successful activation keeps this if and only if its id is new or belonged to a plugin without capabilities |
| `PluginTheorems.ReusedIdBreaksBindings` | crates/solaris-agent/src/plugin_runtime.rs:586-637 | A concrete run of two activations under one id that leaves bindings without an owner |
| `PluginTheorems.DeactivationExact` | crates/solaris-agent/src/plugin_runtime.rs:671-686 | Deactivation removes exactly its own bindings |
| `PluginTheorems.DeactivationUndoes` | crates/solaris-agent/src/plugin_runtime.rs:586-686 | Deactivating a fresh activation gives the whole runtime back |
| `PluginTheorems.ResolvedActivation` | crates/solaris-agent/src/plugin_runtime.rs:692-707 | A resolved capability leads to exactly one activation, the one that declared it, in whatever order activations are searched |
| `PluginRuntimeObject.CapabilityResolver.ResolveWithScope` | crates/solaris-agent/src/plugin_runtime.rs:506-521 | The loop with its set of seen scopes equals the resolution function, and terminates |
| `PluginRuntimeObject.CapabilityResolver.Bind` | crates/solaris-agent/src/plugin_runtime.rs:470-489 | Checks every binding before inserting the first; a refusal changes nothing |
| `PluginRuntimeObject.CapabilityResolver.Unbind` | crates/solaris-agent/src/plugin_runtime.rs:491-499 | Removes a plugin's bindings from one scope and counts them |
| `PluginRuntimeObject.PluginRuntime.ActivatePlugin` | crates/solaris-agent/src/plugin_runtime.rs:586-669 | Activation on the mutable runtime, with its checks in order; a refusal changes nothing |
| `PluginRuntimeObject.PluginRuntime.DeactivatePlugin` | crates/solaris-agent/src/plugin_runtime.rs:671-686 | Deactivation on the mutable runtime |
| `PluginBootstrap.ActivateInRounds` | crates/solaris-agent/src/plugin_bootstrap.rs:140-189 | The rounds terminate; the activations made succeeded one after the other, and every other plugin is reported with the error it still meets |
| `PluginBootstrap.RoundsReachLeastFixpoint` | crates/solaris-agent/src/plugin_bootstrap.rs:140-189 | For plugins with disjoint capabilities the active set is the least set closed under the dependency on services, activated in an order that serves every dependency |
| `PluginBootstrap.OrderIsIrrelevant` | crates/solaris-agent/src/plugin_bootstrap.rs:140-189 | Two bootstraps of the same plugins, in any order and with any repetition, activate the same set |
| `PluginBootstrap.TryWhenReady` | crates/solaris-agent/src/plugin_bootstrap.rs:140-189 | At every point of the rounds a plugin activates exactly when it is not yet active, has no defect and its services are supplied |
| `JsonlReader.LegacyImporter.ImportReader` | crates/solaris-agent/src/runtime_ledger_migration.rs:424-498 | For every way the content may come in buffers, the import does what the plain split does, up to the first oversized or invalid complete line; a failure leaves the database unchanged |
| `JsonlReader.Consume` | crates/solaris-agent/src/runtime_ledger_migration.rs:433-480 | One buffer: the bytes up to the first newline are taken or dropped as oversized, and a complete line is handled |
| `JsonlReader.ImportRecord` | crates/solaris-agent/src/runtime_ledger_migration.rs:521-594 | One record: ephemeral, known by one of three fingerprints, or stored under the next number |
| `JsonlImport.SplitIsExact` | crates/solaris-agent/src/runtime_ledger_migration.rs:424-498 | The plain split: joining its pieces gives the content back, no piece holds a newline, and each is numbered and placed where it starts |
| `JsonlTheorems.ReimportAddsNothing` | crates/solaris-agent/src/runtime_ledger_migration.rs:521-594 | Importing the same content again adds nothing, whatever fingerprints of any version were there before |
| `JsonlTheorems.FirstImportIsExact` | crates/solaris-agent/src/runtime_ledger_migration.rs:521-594 | A first import adds the durable records of the source, each once, in order, under the next numbers |
| `JsonlTheorems.GrowthIsIncrementalExactly` | crates/solaris-agent/src/runtime_ledger_migration.rs:482-498 | Importing a source and then its grown version equals importing the grown version at once, counts included, if and only if no recorded unterminated tail is continued by a byte other than a newline |
| `JsonlTheorems.ContinuedTailDuplicates` | crates/solaris-agent/src/runtime_ledger_migration.rs:482-498 | With any decoder that passes over trailing space, as that of JSON does, a recorded tail that grows by one space is stored a second time, where one import of the grown source stores it once |
| `BusAnswers.DrainHandsOut` | crates/solaris-agent/src/message_bus.rs:716-747 | On every bus, a drain by a registered agent with the ledger up answers exactly the messages of the Run that the mailbox held, in mailbox order; if there are any it writes one dequeue record naming exactly their ids in that order, and the mailbox keeps exactly the messages that record does not name |
| `BusAnswers.DrainRefuses` | crates/solaris-agent/src/message_bus.rs:716-747 | Otherwise nothing changes, and the answer is the unknown agent, the wrong Run, the failed ledger, or an empty list where the mailbox holds nothing of the Run |
| `BusAnswers.HandedOutOnce` | crates/solaris-agent/src/message_bus.rs:708-761 | Over every run in which no step delivers an id that a record of the other kind, direct or broadcast, delivered before, each delivered message is handed out by exactly one drain once no mailbox holds it, and by none as long as one does |
| `BusAnswers.HandedOutUnchanged` | crates/solaris-agent/src/message_bus.rs:708-761 | In those runs a drain hands a message to its addressee with the content it was delivered with; only the acknowledgement may differ |
| `BusAnswers.FirstClaimExactly` | crates/solaris-agent/src/message_bus.rs:581-642 | On every bus, a first claim answers exactly the open messages of the Run in the mailbox that nobody claimed, in order; if there are any it writes one record naming them and binds exactly their ids to the claim |
| `BusAnswers.FirstClaimRefuses` | crates/solaris-agent/src/message_bus.rs:581-642 | Otherwise a first claim changes nothing, and the answer says why |
| `BusAnswers.RepeatedClaimExactly` | crates/solaris-agent/src/message_bus.rs:581-642 | On every bus, a repeated claim answers the messages its first record names that are still open, in mailbox order, and changes nothing |
| `BusAnswers.AcknowledgeExactly` | crates/solaris-agent/src/message_bus.rs:659-694 | The first message under the id decides: not the agent's own is refused, acknowledged before answers true without change, any other is stamped, alone, by one record |
| `BusAnswers.AcknowledgeAbsent` | crates/solaris-agent/src/message_bus.rs:659-694 | An id the mailbox does not hold answers false and changes nothing |
| `BusAcceptance.SendsExactly` | crates/solaris-agent/src/message_bus.rs:145-235 | A send of a new id is accepted if and only if both agents are registered in the Run, the team, if any, has valid limits and both as members, the body and the open messages of the recipient are within the limits and the ledger is up; it then writes that message and puts it last in the recipient's mailbox, and a refused one changes nothing |
| `BusAcceptance.SendRefusedBecause` | crates/solaris-agent/src/message_bus.rs:170-205 | Which error is answered: unknown team, invalid limits, not a member, body too large, mailbox full, in this order |
| `BusAcceptance.UnregisteredRefused` | crates/solaris-agent/src/message_bus.rs:168-169 | Agents are checked before that, the sender first |
| `BusAcceptance.BroadcastsExactly` | crates/solaris-agent/src/message_bus.rs:254-356 | A broadcast of a new id is accepted as a whole if and only if sender, team, size and every recipient allow it, copies of one recipient counted together; it then writes one record and puts every copy last in its mailbox, in order |
| `BusAcceptance.BroadcastRefusedBecause` | crates/solaris-agent/src/message_bus.rs:275-316 | Which error is answered for a registered sender: unknown team, invalid limits, not a member, body too large before mailbox full |
| `BusAcceptance.RecipientRefused` | crates/solaris-agent/src/message_bus.rs:286-293 | The first recipient that is unknown, in another Run or not in the team names the error |
| `BusAcceptance.RepeatedSendExactly` | crates/solaris-agent/src/message_bus.rs:358-395 | A later request under the id of a stored send gets the original back if and only if requested team, sender, recipient, kind and body are those of the first request |
| `BusAcceptance.RepeatedOldSendExactly` | crates/solaris-agent/src/message_bus.rs:358-395 | A stored send that does not say which team was requested is repeated by a request for no team or for the message's own |
| `BusAcceptance.RepeatedBroadcastExactly` | crates/solaris-agent/src/message_bus.rs:397-442 | The same for a broadcast: team, sender, kind, body and, where the caller names them, the recipients |
| `BusAcceptance.DecimalStandsFor` | crates/solaris-agent/src/message_bus.rs:319-354 | The suffix of a copy's id is its position in decimal |
| `RateLimits.GrantedExactly` | crates/solaris-agent/src/resource_manager.rs:409-462 | A persisted acquisition meets the current window, or a new one after sixty seconds; there it is granted if and only if started plus reserved requests are below the request limit and tokens plus the requested ones within the token limit, else it is told which of the two is exhausted, requests first, and charges nothing; a grant reserves one request and the tokens |
| `RateLimits.MovedStartExactly` | crates/solaris-agent/src/resource_manager.rs:464-515 | A persisted start in another window than the reservation's passes the same limits there and charges a request and the tokens |
| `RateLimits.OwnStartExactly` | crates/solaris-agent/src/resource_manager.rs:464-515 | A persisted start in the reservation's own window turns the reservation into a request and passes no limit again |
| `RateLimits.UnpersistedChangesNothing` | crates/solaris-agent/src/resource_manager.rs:409-515 | What cannot be persisted leaves the window as it was; the answer is the exhausted limit of an unchanged window, or the failure to persist |
| `RateLimits.GrantWithinTokens` | crates/solaris-agent/src/resource_manager.rs:409-515 | After a grant or a moved start the window's tokens are within the 64-bit token limit, saturation included |
| `RateLimits.TokenLimitHolds` | crates/solaris-agent/src/resource_manager.rs:409-515 | In every run under a constant token limit, the window is within it right after every grant and every start that moved to another window |
| `UsageAccounting.TokensOfReport` | crates/solaris-types/src/provider_contract.rs:95-111 | Every token of a report counts once, whether the provider counts cached input inside its input or beside it, up to the 64-bit limit |
| `LedgerIdentity.AppendsExactly` | crates/solaris-agent/src/runtime_ledger_unique.rs:28-70 | In a Run with one record per identity, a durable compare-and-append of a document stores it under the next number if and only if no stored record of the type agrees with it on every identity field; else it answers that record for an equal payload and refuses another |
| `LedgerIdentity.SecondIsStoredExactly` | crates/solaris-agent/src/runtime_ledger_unique.rs:309-340 | Beside the only record of a type, a second one is stored if and only if some identity field differs |
| `LedgerIdentity.SameIdentityExactly` | crates/solaris-agent/src/runtime_ledger_unique.rs:309-340 | Two documents have one identity if and only if they agree on every identity field |
| `LedgerIdentity.IdentityExistsExactly` | crates/solaris-agent/src/runtime_ledger_unique.rs:309-340 | A document has an identity if and only if there are identity fields, no field twice, and it holds them all; otherwise which error |
| `LedgerIdentity.OnePerIdentityIsClean` | crates/solaris-agent/src/runtime_ledger_unique.rs:28-70 | Records of which no two agree on every identity field are clean in the sense of LedgerUnique.CompareKeepsClean |
| `LedgerIdentity.RefusedWithoutIdentity` | crates/solaris-agent/src/runtime_ledger_unique.rs:309-354 | Without durability or an identity nothing is stored, and which error is answered |
| `LedgerFence.ExpiredFails` | crates/solaris-agent/src/runtime_ledger_workflow_lease.rs:645-658 | Once the stored expiry is reached, every fenced append, compare-and-append, admission, renewal and restore commit fails and changes nothing, whatever the token |
| `LedgerFence.InvalidFails` | crates/solaris-agent/src/runtime_ledger_workflow_lease.rs:595-608 | The same without a stored lease, under another owner or epoch, or with a clock before the heartbeat |
| `LedgerFence.RefusalReason` | crates/solaris-agent/src/runtime_ledger_workflow_lease.rs:645-692 | A clock before the heartbeat is answered as such, everything else as a lost lease |
| `LedgerFence.RenewsExactly` | crates/solaris-agent/src/runtime_ledger_workflow_lease.rs:78-96 | A renewal succeeds if and only if owner and epoch are the stored ones and the time is from the heartbeat up to before the expiry; it sets heartbeat and the expiry ninety seconds on, and nothing else |
| `LedgerFence.AcquiresExactly` | crates/solaris-agent/src/runtime_ledger_workflow_lease.rs:30-76 | An acquisition succeeds if and only if the owner is named, no other owner holds an unexpired lease, the clock is not before the heartbeat and an epoch is left; what the new lease and token hold |
| `LedgerFence.CommitsExactly` | crates/solaris-agent/src/runtime_ledger_workflow_lease.rs:98-123 | A restore commit succeeds exactly under a valid lease, extends it, observes the last number and commits the expected number exactly when that is the last one |
| `LedgerFence.ReleasesExactly` | crates/solaris-agent/src/runtime_ledger_workflow_lease.rs:125-141 | A release succeeds exactly with the stored owner and epoch, also after expiry, and what it leaves |
| `LedgerFence.FencedAppendsExactly` | crates/solaris-agent/src/runtime_ledger_workflow_lease.rs:143-186 | A fenced append stores its record if and only if it is durable, the lease is valid and a number is left, and observes that number |
| `LedgerFence.FencedOthersExactly` | crates/solaris-agent/src/runtime_ledger_workflow_lease.rs:188-225 | Under a valid lease, fenced compare-and-append and admission answer and store what the unfenced ones do, and what they write into the lease |
| `LedgerFence.TokenExpires` | crates/solaris-agent/src/runtime_ledger_workflow_lease.rs:30-123 | After an acquisition at t and any run in which no acquisition, renewal, restore commit or fenced admission of that Run succeeds, every fenced use at or after t plus ninety seconds fails without change |
| `LedgerBatches.AdmitsExactly` | crates/solaris-agent/src/runtime_ledger_task_admission.rs:469-522 | In a tree with one record per task, an admission is accepted if and only if the tree holds only tasks, every task of the batch under a used id is that very task, no new id comes twice, the quota has room, the markers' teams and members fit and staff the tasks, and numbers are left; it then appends its new tasks in order and its kept extras as one numbered block, and otherwise nothing |
| `LedgerBatches.PreparesExactly` | crates/solaris-agent/src/runtime_ledger_task_admission.rs:185-243 | The extras are accepted if and only if there is no batch marker or all team declarations of the Run's records and the markers agree, the markers list the batch's tasks and members of declared teams, and every task is staffed |
| `LedgerBatches.MetadataExactly` | crates/solaris-agent/src/runtime_ledger_task_admission.rs:68-113 | A Run's team metadata decodes if and only if its records have the documents of their types and all team declarations are allowed and agree, members aside; it holds just those teams and members |
| `LedgerBatches.NewTasksExactly` | crates/solaris-agent/src/runtime_ledger_task_admission.rs:277-308 | The tasks of a batch are accepted if and only if they repeat what is stored and bring no new id twice; the new ones are those under unused ids, in order |
| `LedgerBatches.KeptExactly` | crates/solaris-agent/src/runtime_ledger_task_admission.rs:185-243 | The kept extras are the durable ones in order, without batch markers the Run holds already |
| `LedgerBatches.StoreAllExactly` | crates/solaris-agent/src/runtime_ledger_task_admission.rs:500-522 | Storing a list appends it to its Run, numbered on from the counter, and touches no other Run and no lease |
| `LedgerTree.PageIsExact` | crates/solaris-agent/src/runtime_ledger.rs:297-317 | A page holds at most its limit of the tree's records after the mark, in order, and leaves one out only if it is full and all of it comes before that one |
| `ToolBatchAnswers.RoundTells` | crates/solaris-agent/src/orchestration.rs:331-643 | In every round, a call the round meets is started if and only if it is not skipped and is known, prepared, has nothing to recover, a recorded decision, permission by rule or by a confirmation leased, recorded and allowed, and a passed guard; a skipped call is recorded as aborted, a call at which the user quits is not recorded, any other with the status, error flag and modifier its fields determine |
| `ToolBatchAnswers.StartedMayRun` | crates/solaris-agent/src/orchestration.rs:331-643 | Whatever starts in any round was known, prepared, unrecovered, permitted, recorded and guarded, and its own outcome is recorded for it, or an unknown one where its post-tool hooks failed |
| `ToolBatchAnswers.DeniedIsDenied` | crates/solaris-agent/src/orchestration.rs:483-505 | A denied call that an unstopped round meets is recorded as a denied error and never starts |
| `ToolBatchAnswers.DecidesExactly` | crates/solaris-agent/src/orchestration.rs:352-621 | Which of skip, start, quit and answer the fields of a call lead to, in any state of the round |
| `ToolBatchAnswers.NothingAfterQuit` | crates/solaris-agent/src/orchestration.rs:506-575 | A round ends early exactly at a call that reaches its confirmation and is answered by quitting, and nothing behind it is started or recorded |
| `PluginAnswers.ActivatesExactly` | crates/solaris-agent/src/plugin_runtime.rs:586-637 | An activation succeeds if and only if the plugin is installed and well formed, does not run in the scope, finds its services up the chain, all its contributions resolve and are of different capabilities, and no other plugin holds one of its capabilities there; it records scope, plugin and contributions, and a refused one changes nothing |
| `PluginAnswers.RefusedBecause` | crates/solaris-agent/src/plugin_runtime.rs:586-637 | The first failing check is the error, naming the first missing service or the first capability held by another plugin |
| `PluginAnswers.ContributionsExactly` | crates/solaris-agent/src/plugin_runtime.rs:622-629 | Contributions are accepted if and only if all resolve and no two are of one capability, and are kept under their capabilities |
| `PluginAnswers.TablesExactly` | crates/solaris-agent/src/plugin_runtime.rs:455-464 | A scope keeps its first parent and starts without bindings; installing replaces one plugin and nothing else |
| `JsonlAnswers.ImportsExactly` | crates/solaris-agent/src/runtime_ledger_migration.rs:424-498 | With numbers left for its lines, a source is imported if and only if no complete line exceeds 8 388 608 bytes and every one with text decodes; else the error names the first faulty line |
| `JsonlAnswers.LineExactly` | crates/solaris-agent/src/runtime_ledger_migration.rs:521-594 | A decoded line adds a record if and only if it is durable and neither this version nor an earlier one imported it; its fingerprint is bound to the number of its record, old or new |
| `JsonlAnswers.CompleteExactly` | crates/solaris-agent/src/runtime_ledger_migration.rs:433-480 | A complete line is refused exactly when it is too long or has text that does not decode, under its own number; one without text is passed over |
| `JsonlAnswers.TailExactly` | crates/solaris-agent/src/runtime_ledger_migration.rs:482-498 | The unterminated rest counts if and only if it has text, is short enough and decodes |

## Left out

- SQLite, files, fsync, file identity and the JSONL export: input and output. The identity index and the range query are modelled as a map and a predicate.
- SQLite's `LIKE` selection of tree tasks folds ASCII case where the in-memory path does not; the in-memory selection is modelled.
- SQLite's fenced admission of an empty batch writes the token's own observed number; the in-memory path, which writes the Run's last number, is modelled.
- A bus shared by several Runs: the other Runs appear only as records that advance the sequence.
- Broadcast payloads of the older array form, and payloads that do not decode.
- The source table that lets a completed import be skipped, and overflow of the byte and line counters of an import.
- Costs in floating point, agent and effect permits, waiting and notification, and the internals of resource persistence: a failed update restores the window.
- The paired commit of the Run and role permits, which calls the paired start and then the two commits.
- UsageAccounting.UsageLedger.RecordModelUsageOnce: does not model the cost budget, because costs are floating point.
- LedgerIdentity.AppendsExactly: about documents given by their fields; the documents that admission decodes into tasks, teams and members keep only the fields it reads.
- LedgerUnique.OneCallAgrees: below the signed 64-bit limit, at which SQLite refuses an append that the in-memory path still accepts.
- Result metadata and skill-hook merging of tool rounds, the variant of the loop with protocol events, and the text of error messages.
- The permission engine, tool execution and hooks: their answers are carried by each call.
- `install_checked`, uninstalling, disposal of plugin resources and manifest resolution; lifecycle records of the bootstrap are taken to be written.
- Parsing of collaboration strategies and the building of legacy task ids.
- Session, engine, prompt, CLI, MCP, skill and memory code: plumbing around the kernel.
