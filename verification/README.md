# Hub protocols, verified

A Dafny 4.11 model of the stateful cores of the AllMyAgents hub (`apps/hub/src`) and the properties
they are built to keep. `dafny verify dfyconfig.toml` checks everything.

| files | what they model |
|---|---|
| `RunLedger`, `RunStore`, `RunController`, `RunQueue`, `RunSystem`, `RunRefinement` | Durable runs: the two tables and each SQL transaction, the store and controller objects, the queue pump, and any number of hubs that interleave transactions, crash and restart over one database |
| `BackupOwnership` | Single-owner journal backups under lost, late and repeated messages |
| `HubFlip`, `HubFlipLaws`, `HubFlipOutcomes`, `HubCtl` | The blue-green restart: functions of the supervisor's state and of a script of what every await answers, what each restart keeps, how its outcome is read off the script, and the supervisor object tied to the functions |
| `FileTransfers`, `FileTransferSafety`, `FileTransferTarget`, `FileTransferCalls` | Whole-file transfers cut at every await: staging, offset fence, exclusive publication, receipts, single flight and capacity, and what each call answers |
| `Approvals`, `ApprovalSafety`, `ApprovalAnswers` | The approval service of one process over a durable journal and decision table, chains of processes over one database, and what each call answers |
| `Json`, `JsonDecode`, `JsonObjects`, `CanonicalJson`, `Envelope`, `ReviewDigest`, `Inherited`, `StructuralDiff`, `DiffPatch`, `DiffLaws` | JSON values (RFC 8259) over UTF-16 code units, the canonical printer with a decoder as its inverse, envelope signing, review digests, and the structural diff with its patch, reading absent keys from the prototype as JavaScript does |
| `BoundedLines` | The chunked line reader against splitting the whole input |
| `Search`, `Instructions` | Managed regions of an instruction file |
| `Lines`, `CodexConfig`, `CodexLineFacts`, `CodexPatterns`, `CodexConfigLaws`, `CodexTables`, `CodexReturns`, `CodexBlock` | The `config.toml` edits of a Codex profile, with the line expressions as the source has them and a reader of what is written |
| `PayloadValidation` | The resumable payload validator with its triggers |
| `WseqBuffer`, `WorkerEvents` | The worker's bounded event buffer, its outbound stream and re-attach |
| `Prelude`, `Text` | Optional values, JavaScript trimming and string order |

Where the source updates objects in place the model is a class whose methods are tied to functions of
the old state; the properties are proved about those functions, over every input and every run.

## What the source does not promise after all

Each of these is a place where the code and its comments or the obvious law differ. The model follows
the code; of the lemmas named, one gives the input and one says exactly when the promise holds.

* Two hubs that both read a queued run before cancelling it journal its ending twice
  (`RunSystem.CancelRaceJournalsTwice`, `RunSystem.TerminalJournaledOnce`). All such events agree. And a
  cancel is lost if another hub claims the run between the read and the update of the request
  (`RunSystem.CancelLost`, `RunSystem.CancelTakesEffectExactly`).
* A write transfer whose unlink fails after the link can publish a second time, if somebody else
  removes the published file and finish is retried (`FileTransferSafety.PublishesTwiceAfterRemoval`,
  `FileTransferSafety.RetriedFinishRepublishes`).
* A restart has a fifth end: automatic journal recovery may put a fresh hub live before restart returns
  (`HubFlipOutcomes.FreshBlueReachable`, `HubFlipOutcomes.OutcomeDecided`).
* A scoped reviewer's approval is meant to be refused after a restart, but is replayed when a later
  auto-approval row of the same id hides it (`ApprovalSafety.MaskedReviewerReplayed`,
  `ApprovalSafety.ReviewerReplayedExactly`).
* The structural diff reads a key that one side lacks from the prototype. If its name is inherited the
  diff may be empty for different values, or show a removal as a change to a function
  (`DiffLaws.HiddenPrototypeKey`, `DiffLaws.RemovedConstructorShown`); it patches one value into the
  other exactly if there is no such key (`DiffPatch.PatchesExactly`).
* The diff prints the root path as `/`, which is also the path of the empty top-level key
  (`DiffLaws.RootPathAmbiguous`, `StructuralDiff.PathCollision`); within one diff paths still differ.
* An upsert of `config.toml` is not absorbed by the next one if a surviving line ends in a bare carriage
  return, or if the server name has brackets or trailing whitespace
  (`CodexConfigLaws.BareCarriageReturnCounterexample`, `CodexReturns.UpsertAbsorbsExactly`).
* Another table that follows ours in `config.toml` is removed with it if its header carries a comment
  (`CodexTables.CommentedTableSwallowed`, `CodexTables.UpsertKeepsOtherTablesExactly`).
* An instruction file that was empty before the hub wrote to it is deleted, not emptied, by a later
  blank write (`Instructions.EmptyFileDeleted`, `Instructions.FileAbsorbsExactly`).
* The payload validator never looks at events at or below sequence zero
  (`PayloadValidation.SequenceZeroIsNeverChecked`, `PayloadValidation.CompleteMeansValidExactly`).
* A re-attach cursor ahead of the worker's stream does not hold back live events at or below it, and a
  vendor event under the kind of a turn marker is replayed as that marker
  (`WorkerEvents.CursorAheadCounterexample`, `WorkerEvents.DeliversStreamExactly`).

## Model

| member | source | states |
|---|---|---|
| `RunLedger.NormalizeResources` | apps/hub/src/durableRuns.ts:614 | Resource keys are exactly the bounded, nonblank forms of the given ones, strictly sorted. |
| `RunLedger.BoundedTextMeans` | apps/hub/src/durableRuns.ts:269-275 | Bounding a text blanks its control characters, trims what is blank around it and keeps at most the maximum of the rest. |
| `RunLedger.RunningRunsDisjoint` | apps/hub/src/durableRuns.ts:549-575 | With exact leases, two running runs never share a resource. |
| `RunLedger.ClaimOutcome` | apps/hub/src/durableRuns.ts:549-575 | A claim succeeds exactly if the run is queued and none of its resources is leased; a refused claim changes nothing, so the ignored-insert path never runs. |
| `RunLedger.CreateSound` | apps/hub/src/durableRuns.ts:611-653 | Creating a run keeps leases exact, prerequisite edges backward and starts justified. |
| `RunLedger.ClaimSound` | apps/hub/src/durableRuns.ts:549-575 | A claim keeps all ledger invariants and only advances rows. |
| `RunLedger.FinishSound` | apps/hub/src/durableRuns.ts:576-608 | finish keeps all ledger invariants: leases go with the running state, and only advances rows. |
| `RunLedger.CancelSound` | apps/hub/src/durableRuns.ts:694-706 | The UPDATE of requestCancel, whatever state was read before, keeps all ledger invariants and only advances rows. |
| `RunLedger.CancelTakenExactly` | apps/hub/src/durableRuns.ts:694-706 | The UPDATE takes effect exactly if the run is still in the state that was read, or was cancelled before. |
| `RunLedger.FailQueuedSound` | apps/hub/src/durableRuns.ts:737-745 | failQueued keeps all ledger invariants and only advances rows. |
| `RunLedger.HeartbeatSound` | apps/hub/src/durableRuns.ts:660-664 | A heartbeat keeps all ledger invariants and only advances rows. |
| `RunLedger.MarkContinuationSound` | apps/hub/src/durableRuns.ts:722-730 | The continuation mark keeps all ledger invariants and only advances rows. |
| `RunLedger.ReconcileSound` | apps/hub/src/durableRuns.ts:775-801 | Reconciling any candidate list, in one transaction, keeps all ledger invariants and only advances rows. |
| `RunStore.DurableRunStore.Create` | apps/hub/src/durableRuns.ts:611-653 | The object creates exactly the row of the ledger function; an id already present changes nothing. |
| `RunStore.DurableRunStore.LeasedElsewhere` | apps/hub/src/durableRuns.ts:552-557 | The loop over owners finds exactly whether another run leases a resource. |
| `RunStore.DurableRunStore.InsertLeases` | apps/hub/src/durableRuns.ts:558-566 | The insert loop either leases every resource or leaves nothing of this run behind. |
| `RunStore.DurableRunStore.TryClaim` | apps/hub/src/durableRuns.ts:549-575 | The claim transaction over the tables has the result and the new state of the ledger function. |
| `RunStore.DurableRunStore.Finish` | apps/hub/src/durableRuns.ts:576-608 | finish has the result and the new state of the ledger function. |
| `RunStore.DurableRunStore.RequestCancel` | apps/hub/src/durableRuns.ts:694-706 | requestCancel reads the row and then, in whatever ledger other processes left meanwhile, issues the conditional UPDATE for the state it read. |
| `RunStore.DurableRunStore.FailQueued` | apps/hub/src/durableRuns.ts:737-745 | failQueued has the result and the new state of the ledger function. |
| `RunStore.DurableRunStore.QueuedIds` | apps/hub/src/durableRuns.ts:732-735 | Lists exactly the queued runs, each once, in order of creation time and id. |
| `RunStore.DurableRunStore.ReconcileInterrupted` | apps/hub/src/durableRuns.ts:775-801 | Moves exactly the stale running rows outside the exclusion set, each once, and reports them. |
| `RunStore.ReconcileMeans` | apps/hub/src/durableRuns.ts:775-801 | Reconciliation gives exactly the candidates that still run an unknown outcome with the error, keeps their byte counters, and frees their leases. |
| `RunStore.InsertOne` | apps/hub/src/durableRuns.ts:561-566 | One INSERT OR IGNORE: either it extends the acquired leases by one, or releasing now is releasing everything. |
| `RunStore.OrderedDistinct` | apps/hub/src/durableRuns.ts:732-735 | The queue order visits no run twice. |
| `RunController.DurableRunController.Pump` | apps/hub/src/durableRuns.ts:1002-1028 | A pass visits the queued runs in order; ledger, owned processes and journaled endings are those of the pass; an inactive or busy hub does nothing. |
| `RunController.DurableRunController.PumpRun` | apps/hub/src/durableRuns.ts:1007-1024 | One loop body: fail on a bad prerequisite, wait for a pending one, else claim and launch; the run is owned afterwards exactly if it was started, and an ending is journaled exactly if it was failed. |
| `RunController.DurableRunController.SettleLocal` | apps/hub/src/durableRuns.ts:1111-1138 | A late callback of a child this hub no longer owns writes nothing; otherwise a running run ends cancelled if a cancel was requested, succeeded if the exit code was 0 and spawning worked, and failed in every other case, and exactly that state is journaled. |
| `RunController.DurableRunController.SettleRemote` | apps/hub/src/durableRuns.ts:1143-1199 | A remote answer is recorded only by the owning, active hub: outcome unknown, cancelled, succeeded or failed as the first of its flags says, and journaled under that state. |
| `RunController.DurableRunController.Cancel` | apps/hub/src/durableRuns.ts:989-1000 | Cancel acts only inside the project, and journals an ending exactly if it first read the run as queued and then as cancelled. |
| `RunController.DurableRunController.Shutdown` | apps/hub/src/durableRuns.ts:924-937 | Shutdown disowns everything and leaves the ledger alone. |
| `RunController.PumpOwnsRunning` | apps/hub/src/durableRuns.ts:1002-1051 | A pass adds exactly the runs it took from queued to running to what the hub owns. |
| `RunController.PumpRecordsFailures` | apps/hub/src/durableRuns.ts:1002-1051 | A pass journals an ending of exactly the runs it took from queued to failed. |
| `RunController.DependentStartsExactly` | apps/hub/src/durableRuns.ts:1007-1028 | Once the child a queued run waits for has ended, the next look starts the run exactly if the exit code was 0, spawning worked, no cancel was requested and its resources are free, and fails it exactly after any other ending. |
| `RunSystem.StepKeepsInv` | apps/hub/src/durableRuns.ts:549-801 | Every transaction of every hub, and every crash, keeps the system invariant and only advances rows. |
| `RunSystem.LeasesAlwaysExact` | apps/hub/src/durableRuns.ts:549-608 | In every reachable state a run holds leases on exactly its resources while running and on none otherwise, so running runs are disjoint. |
| `RunSystem.PrerequisitesEarlier` | apps/hub/src/durableRuns.ts:951-964 | Prerequisite edges always point to an earlier-created run of the same project. |
| `RunSystem.StartedMeansPrerequisiteSucceeded` | apps/hub/src/durableRuns.ts:1002-1028 | A run that was ever started has a succeeded prerequisite from then on. |
| `RunSystem.LaunchedAtMostOnce` | apps/hub/src/durableRuns.ts:549-575 | Over all hubs, crashes and restarts each run is claimed at most once and launched at most once, and only after its claim. |
| `RunSystem.TerminalIsFinal` | apps/hub/src/durableRuns.ts:576-608 | The first terminal state and its receipt are never changed by any later step. |
| `RunSystem.JournalNeverContradicts` | apps/hub/src/durableRuns.ts:887-907 | All terminal events journaled for one run name the same state. |
| `RunSystem.StepJournalsOnce` | apps/hub/src/durableRuns.ts:989-1000 | A step repeats a terminal event exactly if a cancel that saw the run queued journals an ending that is journaled already. |
| `RunSystem.TerminalJournaledOnce` | apps/hub/src/durableRuns.ts:989-1000 | Over every run from an empty ledger, no terminal event is journaled twice exactly if no step is such a stale cancel. |
| `RunSystem.CancelRaceJournalsTwice` | apps/hub/src/durableRuns.ts:989-1000 | From any state with a queued run, two hubs that both read it before cancelling journal its cancellation twice. |
| `RunSystem.CancelTakesEffectExactly` | apps/hub/src/durableRuns.ts:694-706 | Whatever other hubs do between the read and the UPDATE, a cancel of a live run takes effect exactly if the run has not moved on, or was cancelled meanwhile. |
| `RunSystem.CancelLost` | apps/hub/src/durableRuns.ts:694-706 | If another hub claims the run in between, it runs on without a cancel request. |
| `RunQueue.PumpPassSound` | apps/hub/src/durableRuns.ts:1002-1028 | A pass keeps the ledger invariants and only advances rows. |
| `RunQueue.PumpOneDecides` | apps/hub/src/durableRuns.ts:1007-1024 | A look at a queued run fails it if its prerequisite is missing or ended badly, leaves it alone while the prerequisite or a resource is held up, and else starts it, or fails it if launching throws: row and leases field by field. |
| `RunQueue.StuckPassChangesNothing` | apps/hub/src/durableRuns.ts:1002-1028 | A pass that dequeues nothing leaves the ledger as it was. |
| `RunQueue.OldestIsDequeued` | apps/hub/src/durableRuns.ts:1002-1028 | When nothing runs, the oldest queued run is never skipped. |
| `RunQueue.PassRemovesARun` | apps/hub/src/durableRuns.ts:1002-1028 | When nothing runs, a pass over a nonempty queue removes at least one run. |
| `RunQueue.QueueDrains` | apps/hub/src/durableRuns.ts:1002-1028 | As many rounds of pass-and-finish as there are queued runs empty the queue. |
| `RunRefinement.PumpOneRefines` | apps/hub/src/durableRuns.ts:1007-1024 | A loop body of the pump is a run of the interleaved system with the same ledger, journaled endings and launch. |
| `RunRefinement.PumpPassRefines` | apps/hub/src/durableRuns.ts:1002-1028 | A whole pass is a run of the interleaved system. |
| `RunRefinement.SettleLocalRefines` | apps/hub/src/durableRuns.ts:1111-1138 | The completion of a local child is one finish transaction of the interleaved system, with the journaled ending of the controller. |
| `RunRefinement.SettleRemoteRefines` | apps/hub/src/durableRuns.ts:1143-1199 | So is the answer of a remote executor. |
| `RunRefinement.CancelRefines` | apps/hub/src/durableRuns.ts:989-1000 | A cancel call is a run of the interleaved system, whatever other processes do in its middle. |
| `BackupOwnership.JournalBackupOwnershipProtocol.AssertNoOtherOwner` | apps/hub/src/journalBackupOwnership.ts:76-86 | Clears an exited owner; refuses exactly if another process still owns. |
| `BackupOwnership.JournalBackupOwnershipProtocol.BeginActivation` | apps/hub/src/journalBackupOwnership.ts:46-74 | Takes ownership before the command is sent, under a fresh higher epoch. |
| `BackupOwnership.JournalBackupOwnershipProtocol.BeginPause` | apps/hub/src/journalBackupOwnership.ts:55-60 | Sends a pause under a fresh higher epoch; ownership stays until it is confirmed. |
| `BackupOwnership.JournalBackupOwnershipProtocol.SettleCommand` | apps/hub/src/journalBackupOwnership.ts:99-116 | A command succeeds exactly if the reply has its epoch, reports no error, was applied and names the commanded state; a confirmed pause gives up ownership. |
| `BackupOwnership.StepKeepsInv` | apps/hub/src/journalBackupOwnership.ts:27-117 | Lost, late and repeated messages, failures and deaths keep the ownership invariant. |
| `BackupOwnership.AtMostOneBackupOwner` | apps/hub/src/journalBackupOwnership.ts:27-117 | At most one live hub ever schedules or is still writing backups, and it is the recorded owner. |
| `BackupOwnership.StaleCommandsCannotReactivate` | apps/hub/src/journalBackupOwnership.ts:19-26 | A hub that is not the owner stays quiet, whatever old commands arrive, until a new activation for it begins. |
| `BackupOwnership.ConfirmedPauseReleases` | apps/hub/src/journalBackupOwnership.ts:55-60 | A confirmed pause leaves the hub neither scheduling nor writing, and not the owner. |
| `BackupOwnership.ConfirmedActivationSchedules` | apps/hub/src/journalBackupOwnership.ts:99-116 | If an acknowledgement makes a waiting activation succeed, the hub applied the command, and schedules unless it has accepted a later one. |
| `BackupOwnership.OwnershipReleasedOnlyBy` | apps/hub/src/journalBackupOwnership.ts:76-86 | Ownership leaves a process only by its confirmed pause or its seen exit. |
| `HubFlipLaws.OrderedMeans` | apps/hub/src/hubctl.ts:841-982 | What an ordered trace means at each position: drain after pause, promote after release, commit after promotion and activation, retirement after commit, rebind only after the kill and, once promote was sent, after the seen exit and the free port. |
| `HubFlipLaws.FlipReached` | apps/hub/src/hubctl.ts:864-908 | Up to the commit gate nothing is decided; promote is sent only in its own step; a flip that passes has green promoted, running and owner. |
| `HubFlipLaws.OwnMoved` | apps/hub/src/hubctl.ts:872-908 | One ownership call with any reply or none keeps the flip where it is; success means the process runs and, for an activation, owns the backups. |
| `HubFlipLaws.CommitKeeps` | apps/hub/src/hubctl.ts:909-915 | The commit makes green live and owner; blue is retired exactly if the retirement could be sent. |
| `HubFlipLaws.AfterCommitKeeps` | apps/hub/src/hubctl.ts:918-930 | A failure after the commit enters the catch block and changes nothing but the log. |
| `HubFlipLaws.ConfirmBacks` | apps/hub/src/restartRollback.ts:134-146 | Reports success only after green's exit was seen and the port was probed free after it. |
| `HubFlipLaws.RebindBacks` | apps/hub/src/restartRollback.ts:148-154 | Blue is told to rebind only if green was killed and, once promote may have been sent, is gone. |
| `HubFlipLaws.ResumeBacks` | apps/hub/src/restartRollback.ts:156-171 | Up to four attempts; success means blue runs and owns the backups. |
| `HubFlipLaws.RollbackBacks` | apps/hub/src/restartRollback.ts:118-171 | A rollback never commits; if it succeeds blue runs, has rebound and owns the backups. |
| `HubFlipLaws.AbandonKeeps` | apps/hub/src/restartRollback.ts:178-195 | Nothing is live afterwards and a revival is owed. |
| `HubFlipLaws.PoisonKeeps` | apps/hub/src/hubctl.ts:660-785 | Recovery ends latched with nothing live, or with a fresh live hub that owns the backups. |
| `HubFlipLaws.RestartEnds` | apps/hub/src/hubctl.ts:841-982 | For every script a restart leaves the supervisor in the one state its outcome names, every hand-off step was permitted by what preceded it, and after the commit green is neither killed nor is blue told to rebind. |
| `HubFlipLaws.EndsExclusive` | apps/hub/src/hubctl.ts:841-982 | The five ends exclude one another. |
| `HubFlipOutcomes.FlipAlong` | apps/hub/src/hubctl.ts:864-908 | The flip passes exactly the steps the script grants, and where it stops is read off the script. |
| `HubFlipOutcomes.OutcomeDecided` | apps/hub/src/hubctl.ts:841-982 | A restart commits exactly if the script grants all six steps; otherwise the policy for the first failing step decides, and a fresh hub is live at the end exactly if the policy is automatic and the script grants the whole recovery. |
| `HubFlipOutcomes.PolicyDecided` | apps/hub/src/hubctl.ts:171-199 | Which of the three policies a failure meets, by the code and the cause of a refusal and the exit code of the child. |
| `HubFlipOutcomes.BlueRestoredExactly` | apps/hub/src/restartRollback.ts:118-171 | A restart restores blue exactly if the failure before the commit meets the ordinary policy and the script grants every step of the rollback. |
| `HubFlipOutcomes.LiveOwns` | apps/hub/src/hubctl.ts:841-982 | Whatever hub a restart leaves live owns the backups. |
| `HubFlipOutcomes.RetirementFailureKeepsGreen` | apps/hub/src/hubctl.ts:909-930 | A restart that commits keeps green live and owner even if blue's retirement cannot be sent, in which case blue is not retired. |
| `HubFlipOutcomes.CommitReachable` | apps/hub/src/hubctl.ts:909-930 | Some script commits, with the retirement sent or failing. |
| `HubFlipOutcomes.FreshBlueReachable` | apps/hub/src/hubctl.ts:714-776 | From every state in which only the live hub runs, some script ends with a fresh hub live. |
| `HubCtl.HubCtl.OnChildExit` | apps/hub/src/hubctl.ts:288-310 | The exit handler: an unplanned exit of the live hub clears it and owes or starts a revival. |
| `HubCtl.HubCtl.Await` | apps/hub/src/hubctl.ts:288-310 | During an await any children exit, each through the handler. |
| `HubCtl.HubCtl.OwnershipCall` | apps/hub/src/hubctl.ts:872-908 | One awaited ownership call has the result and the new state of its function. |
| `HubCtl.HubCtl.TryFlip` | apps/hub/src/hubctl.ts:864-908 | The try block stops at the first step that throws, in the state of the specification. |
| `HubCtl.HubCtl.RollbackToBlue` | apps/hub/src/restartRollback.ts:118-171 | The rollback has the result and the new state of its function. |
| `HubCtl.HubCtl.ResumeBlue` | apps/hub/src/restartRollback.ts:156-171 | The retry loop has the result and the new state of the recursive function. |
| `HubCtl.HubCtl.AbandonLiveForRevival` | apps/hub/src/restartRollback.ts:178-195 | Giving blue up has the new state of its function. |
| `HubCtl.HubCtl.EnterRecoveryPoison` | apps/hub/src/hubctl.ts:660-785 | Recovery has the new state of its function. |
| `HubCtl.HubCtl.Catch` | apps/hub/src/hubctl.ts:916-977 | The catch block, guarded by the committed flag, has the outcome and the new state of its function. |
| `HubCtl.HubCtl.Restart` | apps/hub/src/hubctl.ts:841-982 | restart has the outcome and the new state of the specification, for every script. |
| `FileTransfers.OneOperationPerIdFourTransfers` | apps/hub/src/fileTransfers.ts:108-139 | Under any interleaving at most one operation per id is in flight and at most four transfers are active. |
| `FileTransfers.EnterCapacity` | apps/hub/src/fileTransfers.ts:131-139 | A begin is admitted only within the capacity counted over active and busy ids. |
| `FileTransfers.RunAdmission` | apps/hub/src/fileTransfers.ts:108-229 | Single flight and capacity, counting begins that passed the check, hold in every reachable state. |
| `FileTransferSafety.SegmentKeeps` | apps/hub/src/fileTransfers.ts:115-229 | Every stretch of every operation between two awaits keeps the transfer sound; publication grows exactly by a link. |
| `FileTransferSafety.LinkPublishesTheChunks` | apps/hub/src/fileTransfers.ts:204-222 | A link happens only in finish, at a free destination, and publishes the accepted chunks at the reserved size and checksum. |
| `FileTransferSafety.StepKeepsInv` | apps/hub/src/fileTransfers.ts:108-229 | Every step, crash and outside change keeps the transfer invariant. |
| `FileTransferSafety.StagedBytesAreTheChunks` | apps/hub/src/fileTransfers.ts:176-192 | In every reachable state the staged bytes below the offset are the accepted chunks in order, and each was requested at the offset where those before it end. |
| `FileTransferSafety.PublicationsAsDeclared` | apps/hub/src/fileTransfers.ts:204-222 | Whatever an id publishes has the reserved size and the declared checksum. |
| `FileTransferSafety.CompletedReceiptsAreTrue` | apps/hub/src/fileTransfers.ts:223-225 | A completed receipt is true after any crash: the transfer reached its full size, and a write was published with that digest. |
| `FileTransferSafety.NeverOverwrites` | apps/hub/src/fileTransfers.ts:219-221 | No step changes a destination file that exists. |
| `FileTransferSafety.PublishesAtMostOncePerRemoval` | apps/hub/src/fileTransfers.ts:166-173 | An id publishes at most once more than others removed its destination: at most once if nobody removes it. |
| `FileTransferSafety.SealedForever` | apps/hub/src/fileTransfers.ts:220-225 | Once the staging file is gone the id never publishes again. |
| `FileTransferSafety.RetriedFinishRepublishes` | apps/hub/src/fileTransfers.ts:204-222 | From every reachable state, a retried finish with its staging file left publishes the same bytes again exactly if the link succeeds and the destination is free. |
| `FileTransferSafety.PublishesTwiceAfterRemoval` | apps/hub/src/fileTransfers.ts:219-225 | The run that does it: link, failed unlink, removal by somebody else, retried finish. |
| `FileTransferTarget.FileTransferTarget.TryEnter` | apps/hub/src/fileTransfers.ts:131-139 | The synchronous head of execute refuses exactly a busy id, a revoked caller or a begin beyond capacity. |
| `FileTransferTarget.FileTransferTarget.TryExpire` | apps/hub/src/fileTransfers.ts:108-114 | Expiry takes exactly an idle active transfer. |
| `FileTransferTarget.FileTransferTarget.StoreChunk` | apps/hub/src/fileTransfers.ts:176-192 | The write loop over short writes stores the chunk at the offset, recording where it was requested, or moves neither offset nor hash. |
| `FileTransferTarget.WriteInPieces` | apps/hub/src/fileTransfers.ts:186-191 | Writing a chunk piece after piece is writing it at once. |
| `FileTransferCalls.EnterDecides` | apps/hub/src/fileTransfers.ts:131-139 | A request enters exactly if its id is idle, its authority holds and, for a begin, active and busy ids together stay within four; what is not active is only inspected. |
| `FileTransferCalls.ExpireDecides` | apps/hub/src/fileTransfers.ts:108-114 | Expiry leaves a busy or unknown id alone and otherwise ends the transfer and cleans up. |
| `FileTransferCalls.BeginDecides` | apps/hub/src/fileTransfers.ts:140-168 | A begin makes a transfer active, empty and at offset 0 exactly if nothing fails and a write finds its destination and staging path free; an id with a receipt is never begun again. |
| `FileTransferCalls.ChunkDecides` | apps/hub/src/fileTransfers.ts:176-200 | A chunk at any other offset changes nothing; at the offset of the transfer a write takes one byte to 512 KiB that fit the rest, and a read advances by what it read. |
| `FileTransferCalls.FinishWriteDecides` | apps/hub/src/fileTransfers.ts:203-225 | A finish of a write publishes exactly if every byte is staged under the checksum declared or given, the destination is free and linking works; the receipt says completed if the clean-up succeeds too. |
| `FileTransferCalls.FinishReadDecides` | apps/hub/src/fileTransfers.ts:203-225 | A finish of a read publishes nothing and completes exactly at full size. |
| `FileTransferCalls.AbortDecides` | apps/hub/src/fileTransfers.ts:115-129 | An abort ends the transfer; its receipt says aborted exactly if the staging file is gone, else unknown. |
| `FileTransferCalls.ResentChunkChangesNothing` | apps/hub/src/fileTransfers.ts:176-192 | From every reachable state a chunk at the offset is stored once, and sending it again leaves the whole system as it is. |
| `Approvals.ApprovalService.constructor` | apps/hub/src/approvals.ts:97-101 | Boots with nothing pending; the timeout is the requested one, rounded down, if that is a finite number of at least one second, and else one hour. |
| `Approvals.ApprovalService.Request` | apps/hub/src/approvals.ts:221-323 | request has the reply and the new state of the specification. |
| `Approvals.ApprovalService.Finish` | apps/hub/src/approvals.ts:382-440 | finish settles a pending promise once, with the answer, row and event given, or as a timeout at or after the deadline; it returns true only in the first case, and changes nothing for what is not pending. |
| `Approvals.ApprovalService.Resolve` | apps/hub/src/approvals.ts:378-380 | In time, resolve returns true and settles the promise with exactly the given answer, under one new row and event that say approved or denied accordingly; late, it returns false and the request times out; otherwise nothing changes. |
| `Approvals.ApprovalService.InspectPending` | apps/hub/src/approvals.ts:170-179 | inspectPending shows a pending entry before its deadline and times it out from then on. |
| `Approvals.ApprovalService.RecheckPending` | apps/hub/src/approvals.ts:186-202 | recheckPending evaluates the snapshot of pending ids once each. |
| `Approvals.DeciderMeans` | apps/hub/src/approvals.ts:398 | A decision is recorded under the given name without surrounding blanks, or as unspecified if nothing is left. |
| `ApprovalAnswers.ResolveDecides` | apps/hub/src/approvals.ts:378-440 | An operator's answer in time settles the promise with exactly that answer under its own row and event; late it is a timeout; for anything not pending nothing changes. |
| `ApprovalAnswers.TimeoutDecides` | apps/hub/src/approvals.ts:170-179 | A timer times the request out whatever the clock says, an inspection exactly from the deadline on. |
| `ApprovalAnswers.ReissueDecides` | apps/hub/src/approvals.ts:221-232 | A re-issue of a pending id gets the same promise exactly if session, kind and payload, up to key order, are the same; otherwise false and a note. |
| `ApprovalAnswers.NewRequestDecides` | apps/hub/src/approvals.ts:233-323 | Any other request: within two minutes of boot and once per id, a reviewer's newest decision is refused and any other newest resolution repeated; everything else is allowed by live policy or becomes pending. |
| `ApprovalAnswers.RecheckDecides` | apps/hub/src/approvals.ts:186-202 | A re-check removes exactly the affected requests, each audited and then approved in time or timed out, and leaves the others as they are. |
| `ApprovalAnswers.RecheckCounts` | apps/hub/src/approvals.ts:186-202 | It reports how many affected requests were still in time. |
| `ApprovalSafety.StepChain` | apps/hub/src/approvals.ts:221-440 | Every call is a sequence of five justified elementary changes. |
| `ApprovalSafety.RequestedIsResolvedPlusPending` | apps/hub/src/approvals.ts:297-323 | Per id, requests journaled by this process are those resolved plus the one pending. |
| `ApprovalSafety.PromiseFollowsRow` | apps/hub/src/approvals.ts:389-431 | A promise is open exactly while pending; settled, it is true exactly if its own decision row is approved, and then before its deadline. |
| `ApprovalSafety.SettledOnce` | apps/hub/src/approvals.ts:382-440 | A settled promise keeps its answer whatever follows. |
| `ApprovalSafety.MatchingReissueIsNoOp` | apps/hub/src/approvals.ts:222-232 | A matching re-issue before the deadline changes nothing and gets the same promise. |
| `ApprovalSafety.MismatchRefused` | apps/hub/src/approvals.ts:225-229 | A re-issue that differs in session, kind or payload is answered false and only noted. |
| `ApprovalSafety.RecoveredAtMostOnce` | apps/hub/src/approvals.ts:255-270 | Per process an id is answered from before boot at most once, in the window, and only by an event that existed at boot. |
| `ApprovalSafety.NoRecoveryAfterSettlement` | apps/hub/src/approvals.ts:422-424 | An id this process settled gets no answer from before boot afterwards. |
| `ApprovalSafety.OthersAskPolicyOrPend` | apps/hub/src/approvals.ts:280-323 | Every other request that is not pending is allowed by live policy or becomes pending. |
| `ApprovalSafety.ProcessesKeepPaired` | apps/hub/src/approvals.ts:402-421 | Over any processes, resolved events and the decision rows written with them are the same decisions. |
| `ApprovalSafety.ReviewerReplayedExactly` | apps/hub/src/approvals.ts:255-270 | A scoped reviewer decision is replayed after a restart exactly if an auto-approval row of the id is newer than it. |
| `ApprovalSafety.MaskedReviewerReplayed` | apps/hub/src/approvals.ts:280-296 | The history that does it, with the answer true. |
| `JsonDecode.StringRoundTrip` | apps/hub/src/directHubProtocol.ts:28-35 | A quoted string reads back as itself. |
| `JsonDecode.ValueRoundTrip` | apps/hub/src/directHubProtocol.ts:28-35 | Printed JSON reads back as the value, whatever follows it. |
| `JsonDecode.PrintInjective` | apps/hub/src/directHubProtocol.ts:28-35 | Different values print differently. |
| `JsonDecode.EscapeUnitMeans` | apps/hub/src/directHubProtocol.ts:28-35 | A unit outside a surrogate pair stands for itself exactly if it is no control character, quote, backslash or surrogate. |
| `JsonDecode.EscapeWellFormed` | apps/hub/src/directHubProtocol.ts:28-35 | Printed strings hold no control characters, surrogate pairs as they are and no lone surrogates. |
| `CanonicalJson.CanonicalPrintsNorm` | apps/hub/src/directHubProtocol.ts:28-35 | canonicalJson prints the value with all keys sorted. |
| `CanonicalJson.CanonicalTextDecides` | apps/hub/src/directHubProtocol.ts:17-35 | Two values have one canonical text exactly if they are equal up to object key order at every depth. |
| `CanonicalJson.CanonicalRoundTrip` | apps/hub/src/directHubProtocol.ts:28-35 | Decoding the canonical text gives the value up to key order, with the keys of every object in increasing code-unit order. |
| `Envelope.UnsignedDecides` | apps/hub/src/directHubProtocol.ts:37-47 | Signed texts are equal exactly if the seven covered fields agree up to key order; absent fields count as absent. |
| `Envelope.SignedNames` | apps/hub/src/directHubProtocol.ts:37-47 | The seven signed fields by name. |
| `Envelope.SignatureBinds` | apps/hub/src/directHubProtocol.ts:49-69 | A signature verifies on another envelope exactly under the same token and with the covered fields agreeing. |
| `Envelope.RelayKeepsSignature` | apps/hub/src/directHubProtocol.ts:17-27 | A relay that only reorders keys, at any depth, never breaks a signature. |
| `ReviewDigest.DigestDecides` | apps/hub/src/approvalReview.ts:25-34 | Equal review digests mean equal values up to key order, undefined apart from every value. |
| `ReviewDigest.ListedSame` | apps/hub/src/approvalReview.ts:27-33 | Printing from a JavaScript object, which lists index keys first, only reorders. |
| `ReviewDigest.ArrayIndexMeans` | apps/hub/src/approvalReview.ts:27-33 | The keys listed first are the texts of whole numbers up to 2^32 - 2, compared as numbers. |
| `ReviewDigest.ListedInOrder` | apps/hub/src/approvalReview.ts:27-33 | An object lists its array-index keys first, in numeric order, and then the others as they were added. |
| `StructuralDiff.DiffPrintsDelta` | apps/hub/src/githubApprovalReview.ts:222-228 | The printed diff is the diff over key sequences with its paths printed. |
| `StructuralDiff.UnionKeysExact` | apps/hub/src/githubApprovalReview.ts:225 | The visited keys are exactly those of either object, sorted, each once. |
| `StructuralDiff.RenderInjective` | apps/hub/src/githubApprovalReview.ts:226 | Escaped paths determine their key sequence. |
| `StructuralDiff.RenderReadsBack` | apps/hub/src/githubApprovalReview.ts:226 | A printed path, read as a JSON pointer (RFC 6901, section 4), gives its keys back. |
| `StructuralDiff.PathCollision` | apps/hub/src/githubApprovalReview.ts:226-227 | Two changes print one path exactly if their keys agree or one is the root and one the empty key. |
| `Inherited.ReadPlain` | apps/hub/src/githubApprovalReview.ts:226 | Outside the names of Object.prototype, reading a key gives the own value or undefined. |
| `DiffPatch.PatchesExactly` | apps/hub/src/githubApprovalReview.ts:222-228 | The diff is a list of JSON changes that patch a into b, up to key order, exactly if no key that only one of two aligned objects has is an inherited name. |
| `DiffPatch.KeysPatch` | apps/hub/src/githubApprovalReview.ts:225-226 | The changes of two objects act key by key. |
| `DiffPatch.OneSided` | apps/hub/src/githubApprovalReview.ts:225-227 | A value against an inherited member is never turned into JSON changes that bring it or take it away. |
| `DiffLaws.DiffEmptyExactly` | apps/hub/src/githubApprovalReview.ts:224 | Nothing is reported exactly for values equal up to key order and up to blank __proto__ keys that only one side has. |
| `DiffLaws.EmptyMeansEqualExactly` | apps/hub/src/githubApprovalReview.ts:224 | An empty diff means equal values exactly if no one-sided key is an inherited name. |
| `DiffLaws.CleanIsReal` | apps/hub/src/githubApprovalReview.ts:223-228 | Without one-sided inherited names each change shows the own values at its place, which differ and are not both objects. |
| `DiffLaws.RemovalReportedExactly` | apps/hub/src/githubApprovalReview.ts:226-227 | A key that only the old object has is reported with an absent new value exactly if its name is not inherited. |
| `DiffLaws.DeltaApart` | apps/hub/src/githubApprovalReview.ts:225-226 | No change lies at or below another, whatever is compared. |
| `DiffLaws.DiffPathsDistinct` | apps/hub/src/githubApprovalReview.ts:223-228 | The printed paths of one diff are pairwise different. |
| `DiffLaws.PrintedEmptyExactly` | apps/hub/src/githubApprovalReview.ts:224 | The printed diff is empty exactly for values that are alike. |
| `DiffLaws.RootPathAmbiguous` | apps/hub/src/githubApprovalReview.ts:227 | The printed root path is also the path of the empty key. |
| `DiffLaws.HiddenPrototypeKey` | apps/hub/src/githubApprovalReview.ts:224-226 | Dropping an own __proto__ key that holds an empty object is not reported. |
| `DiffLaws.RemovedConstructorShown` | apps/hub/src/githubApprovalReview.ts:226-227 | Dropping a key named constructor is reported with a function as its new value, not as a removal. |
| `BoundedLines.FeedConcat` | apps/hub/src/boundedLineStream.ts:68-85 | Feeding two chunks is feeding their concatenation. |
| `BoundedLines.NextNewline` | apps/hub/src/boundedLineStream.ts:77 | indexOf finds the first newline from a position or reports none. |
| `BoundedLines.LineReader.OnData` | apps/hub/src/boundedLineStream.ts:68-85 | One chunk has the effect of its bytes one at a time; retained bytes never exceed the bound. |
| `BoundedLines.LineReader.Append` | apps/hub/src/boundedLineStream.ts:54-67 | A stretch without newline is retained or overflows as a whole, reported once. |
| `BoundedLines.LineReader.Emit` | apps/hub/src/boundedLineStream.ts:43-53 | The retained pieces are delivered as one line without its carriage return. |
| `BoundedLines.LineReader.Stop` | apps/hub/src/boundedLineStream.ts:36-42 | Stopping drops what is retained, once. |
| `BoundedLines.LineReader.OnEnd` | apps/hub/src/boundedLineStream.ts:86-91 | The end delivers an unfinished nonempty line. |
| `BoundedLines.ReadAll` | apps/hub/src/boundedLineStream.ts:20-96 | A session over any chunks, with the consumer stopping between two of them or not, is the byte-wise reader over what was read. |
| `BoundedLines.ReaderDelivers` | apps/hub/src/boundedLineStream.ts:20-96 | The delivered lines are those of what was read up to the first too long line or the consumer's stop; nothing follows. |
| `BoundedLines.CutUnique` | apps/hub/src/boundedLineStream.ts:20-96 | The cut point is unique. |
| `BoundedLines.OverflowExactly` | apps/hub/src/boundedLineStream.ts:57-61 | If the consumer never stops from onLine, overflow is reported once exactly if some line read is too long. |
| `BoundedLines.SplitExact` | apps/hub/src/boundedLineStream.ts:76-84 | The pieces of the input hold no newline and join back to it. |
| `Instructions.TheFencesAreGood` | apps/hub/src/instructions.ts:110-113 | The four fences are single lines and no begin fence occurs in the other region's fences. |
| `Instructions.InstructionFile.WriteManagedInstructions` | apps/hub/src/instructions.ts:145-183 | The write leaves the file of the specification: new text, removed file or untouched. |
| `Instructions.WrittenReadsBack` | apps/hub/src/instructions.ts:145-183 | Both regions and the user text can be read back from a written file. |
| `Instructions.WrittenInOrder` | apps/hub/src/instructions.ts:145-183 | Managed regions come first, operator before practices, and the user text stands at the end. |
| `Instructions.LaterWriteAbsorbs` | apps/hub/src/instructions.ts:119-121 | A later write leaves no trace of an earlier one in the text. |
| `Instructions.RegionsIndependent` | apps/hub/src/instructions.ts:106-109 | Rewriting one region leaves the other and the user text as they were. |
| `Instructions.BlanksRestore` | apps/hub/src/instructions.ts:161-177 | Writing blanks leaves the user text minus its leading whitespace. |
| `Instructions.SolelyManagedExactly` | apps/hub/src/instructions.ts:128-132 | A written file counts as solely managed exactly if the user text is blank and a region was written. |
| `Instructions.WritingTwiceIsOnce` | apps/hub/src/instructions.ts:145-183 | Writing the same regions twice is writing them once, file for file. |
| `Instructions.FileDecides` | apps/hub/src/instructions.ts:145-183 | The file holds the written text; with nothing to hold it is removed, unless it was there and empty. |
| `Instructions.FileAbsorbsExactly` | apps/hub/src/instructions.ts:167-177 | An earlier write leaves no trace on the file except that an empty file given regions is deleted by a blank write. |
| `Instructions.EmptyFileDeleted` | apps/hub/src/instructions.ts:167-177 | That exception for every nonblank region text. |
| `CodexConfig.StripCodexAgentMcpBlock` | apps/hub/src/codexMcpConfig.ts:98-115 | The strip loop computes the strip specification. |
| `CodexConfig.ReplaceCredential` | apps/hub/src/codexMcpConfig.ts:128-138 | The loop keeps one credential line in place of the first and drops the others. |
| `CodexConfig.UpsertCodexFileCredentialStore` | apps/hub/src/codexMcpConfig.ts:124-146 | The credential pass computes its specification. |
| `CodexConfig.UpsertCodexAgentMcp` | apps/hub/src/codexMcpConfig.ts:149-155 | The upsert computes its specification. |
| `CodexLineFacts.HeaderIsTable` | apps/hub/src/codexMcpConfig.ts:103-127 | Every header of the strip pass starts a table for the credential pass. |
| `CodexLineFacts.OwnHeaderExactly` | apps/hub/src/codexMcpConfig.ts:98-104 | Our printed header is recognised exactly for names without brackets or trailing whitespace. |
| `CodexConfigLaws.PinnedBound` | apps/hub/src/codexMcpConfig.ts:124-146 | Exactly one credential line, ours, stands before the first table, and no other significant line is lost. |
| `CodexConfigLaws.BodyShape` | apps/hub/src/codexMcpConfig.ts:98-115 | What remains of a text is tidy, keeps the credential line on top and has no table of ours. |
| `CodexReturns.UpsertAbsorbsExactly` | apps/hub/src/codexMcpConfig.ts:124-155 | A second upsert of the same name absorbs the first exactly if no surviving line of the file with text below it ends in a carriage return, and the name is recognised. |
| `CodexConfigLaws.OrdinaryUpsertAbsorbs` | apps/hub/src/codexMcpConfig.ts:149-155 | For files with LF or CRLF line ends and recognised names it always does. |
| `CodexConfigLaws.ForeignLinesSurvive` | apps/hub/src/codexMcpConfig.ts:88-97 | Lines outside our tables and the top-level credential key survive in order, up to blank lines and trailing whitespace. |
| `CodexConfigLaws.StripRevokes` | apps/hub/src/codexMcpConfig.ts:98-115 | Stripping after an upsert removes the block and nothing else. |
| `CodexConfigLaws.BareCarriageReturnCounterexample` | apps/hub/src/codexMcpConfig.ts:125 | A file ending in a bare carriage return is changed by the second upsert. |
| `CodexTables.OtherTablesKeptExactly` | apps/hub/src/codexMcpConfig.ts:88-115 | The strip keeps the lines it promises, ending our tables at any table header, exactly if no header with a comment lies in what it takes to be a table of ours. |
| `CodexTables.UpsertKeepsOtherTablesExactly` | apps/hub/src/codexMcpConfig.ts:88-155 | The same equivalence for the whole upsert, on the lines of the file it is given. |
| `CodexTables.CommentedTableSwallowed` | apps/hub/src/codexMcpConfig.ts:93-110 | A commented header right after one of ours is such a case, whatever follows. |
| `CodexBlock.UpsertReadsBack` | apps/hub/src/codexMcpConfig.ts:77-155 | Read as TOML, an upserted file has the given command, arguments, hub URL, secret and profile under their keys in the two tables of the server, whatever it held before. |
| `CodexBlock.PinnedReadsFile` | apps/hub/src/codexMcpConfig.ts:125-147 | And the file credential store above its first table. |
| `CodexPatterns.HeaderFits` | apps/hub/src/codexMcpConfig.ts:103 | A line the strip pass takes for a header is put together as its expression says, around the captured name. |
| `CodexPatterns.FitsIsHeader` | apps/hub/src/codexMcpConfig.ts:103 | And every line put together so, around a name with text at both ends, is taken for that header. |
| `CodexPatterns.TableFits` | apps/hub/src/codexMcpConfig.ts:126 | A line that starts a table for the credential pass is put together as its expression says. |
| `CodexPatterns.FitsIsTable` | apps/hub/src/codexMcpConfig.ts:126 | And every line put together so starts a table. |
| `CodexPatterns.CredentialFits` | apps/hub/src/codexMcpConfig.ts:132 | A credential line is put together as its expression says. |
| `CodexPatterns.FitsIsCredential` | apps/hub/src/codexMcpConfig.ts:132 | And every line put together so is one. |
| `CodexPatterns.OwnMeans` | apps/hub/src/codexMcpConfig.ts:106 | The tables taken for ours are those of the server and its sub-tables, and no other. |
| `PayloadValidation.Journal.ValidateJournalPayloadBatch` | apps/hub/src/journalPayloadValidation.ts:39-51 | One batch refuses a bad size, an unsafe cursor or the first invalid row above the cursor, changing nothing; otherwise it has checked everything up to its new cursor and says how many rows those were and whether it is done. |
| `PayloadValidation.BatchSays` | apps/hub/src/journalPayloadValidation.ts:10-51 | The same about the specification, in terms of events and cursor alone. |
| `PayloadValidation.TriggersDecide` | apps/hub/src/journalPayloadValidation.ts:23-33 | A write at or below the cursor puts the cursor just in front of it, at 0 at the lowest; every other write leaves it. |
| `PayloadValidation.Journal.ValidateAll` | apps/hub/src/journalPayloadValidation.ts:10-51 | Repeated batches without writes end, complete exactly if every event above the start is valid. |
| `PayloadValidation.BatchDone` | apps/hub/src/journalPayloadValidation.ts:42-50 | A finished batch checked everything up to its new cursor, and if complete nothing lies above. |
| `PayloadValidation.BatchRefuses` | apps/hub/src/journalPayloadValidation.ts:45-48 | A refusal names the first invalid event above the cursor. |
| `PayloadValidation.BatchProgress` | apps/hub/src/journalPayloadValidation.ts:42-50 | An incomplete batch leaves strictly fewer rows above the cursor. |
| `PayloadValidation.CursorIsHonest` | apps/hub/src/journalPayloadValidation.ts:23-33 | Under any inserts, rewrites, moves, deletes and batches, every event from 1 to the cursor is valid. |
| `PayloadValidation.CompleteMeansValidExactly` | apps/hub/src/journalPayloadValidation.ts:16-51 | A complete result means every event is valid exactly if those at or below sequence zero are. |
| `PayloadValidation.SequenceZeroIsNeverChecked` | apps/hub/src/journalPayloadValidation.ts:23-27 | An invalid event at sequence zero is never found. |
| `WseqBuffer.WseqBuffer.Append` | apps/hub/src/wseqBuffer.ts:114-127 | Appending extends the stream, returns its new length, and keeps the buffer its bounded end. |
| `WseqBuffer.WseqBuffer.Since` | apps/hub/src/wseqBuffer.ts:143-172 | since returns exactly the retained events whose number is greater than the given one, in order, behind a gap marker exactly if some trimmed event has that property too. |
| `WseqBuffer.WseqBuffer.Forget` | apps/hub/src/wseqBuffer.ts:183-185 | forget ends the stream of one session only. |
| `WseqBuffer.OwedMeans` | apps/hub/src/wseqBuffer.ts:143-172 | The same about what a cursor is owed, for every number, negative and fractional ones included. |
| `WseqBuffer.OwedIncreasing` | apps/hub/src/wseqBuffer.ts:129-142 | What is owed is strictly increasing and past the cursor, gap marker included. |
| `WseqBuffer.OwedComplete` | apps/hub/src/wseqBuffer.ts:129-142 | Nothing newer than the cursor is missing unless the gap marker stands for it. |
| `WorkerEvents.ReplayRestoresExactly` | apps/hub/src/agentWorker.ts:725-736 | Replay restores an emission exactly unless it is a vendor event under a marker kind. |
| `WorkerEvents.AgentWorker.EmitEvent` | apps/hub/src/agentWorker.ts:1073-1076 | A vendor event is buffered and sent once under the next wseq. |
| `WorkerEvents.AgentWorker.EmitTurnStarted` | apps/hub/src/agentWorker.ts:1078-1082 | A turn start is buffered, sent and tracked. |
| `WorkerEvents.AgentWorker.EmitTurnCompleted` | apps/hub/src/agentWorker.ts:1084-1088 | A turn end is buffered, sent and tracked. |
| `WorkerEvents.AgentWorker.EmitTurnError` | apps/hub/src/agentWorker.ts:1090-1094 | A turn failure is buffered, sent and tracked. |
| `WorkerEvents.AgentWorker.StopSession` | apps/hub/src/agentWorker.ts:640-649 | Stopping ends the stream and the turn of one session. |
| `WorkerEvents.AgentWorker.DoAttach` | apps/hub/src/agentWorker.ts:706-712 | Attach sends the replays in order and leaves buffer, counters and active turns as they are. |
| `WorkerEvents.AgentWorker.CodexStatus` | apps/hub/src/agentWorker.ts:679-686 | A codex session is listed active exactly if some emission started a turn and only vendor events came since. |
| `WorkerEvents.ReplayIsStream` | apps/hub/src/agentWorker.ts:690-736 | A replay is the gap message if trimmed, then the stream past the cursor with markers restored, exactly if no vendor event there uses a marker kind. |
| `WorkerEvents.ConnectionDelivers` | apps/hub/src/agentWorker.ts:690-712 | From attach on, a requested session receives its replay past the number the hub sent, and then its live emissions, nothing else. |
| `WorkerEvents.UnrequestedOnlyLive` | apps/hub/src/agentWorker.ts:706-712 | A session that was not requested receives only its later emissions. |
| `WorkerEvents.DeliversStreamExactly` | apps/hub/src/agentWorker.ts:690-712 | That is the stream past the cursor, each message once in order, exactly if the cursor was not ahead of the stream or nothing was emitted afterwards, and no replayed vendor event uses a marker kind. |
| `WorkerEvents.CursorAheadCounterexample` | apps/hub/src/agentWorker.ts:706-712 | A cursor ahead of the stream does not hold back the first live event. |
| `WorkerEvents.TurnsFollowStreams` | apps/hub/src/agentWorker.ts:1073-1094 | Over any run activeTurns holds exactly the sessions whose last lifecycle message is a turn start. |

## Left out

- Processes, sockets, files and SQLite themselves: each SQL statement or transaction is one atomic step, each await an arbitrary outcome, wall clocks and random ids are inputs.
- The backoff loop of `reviveLiveHub` and the first `boot`: the model stops at the decision to revive.
- The worker's processes during recovery are answers of the script. The second worker check after the fresh hub goes live reads the same instant as the first one and cannot fail; profile epochs and the overseer's status messages are not modelled.
- Hub endpoints of the backup protocol are taken to their stated contract: they reject older epochs and acknowledge honestly. Ownership calls are awaited one at a time, as the supervisor does.
- Log capture, provenance, summaries, environments and remote transport of durable runs; receipts are opaque.
- Resource keys are compared by `char`, which is the order of code units for texts without surrogates.
- Bytes of read transfers, path and link checks, timers as wall time; nobody else touches staging files. SHA-256 is injective; HMAC is injective in token and text.
- Approval listeners, display routing, the journal's other event kinds and the size-bounded audit payload; `now` is read once per call, and a generated id is a new one.
- `FileTransferSafety.PublishesAtMostOncePerRemoval`: publishing at most once needs that nobody else removes the published file, because the code can publish again after such a removal.
- JSON numbers are their ECMAScript text; YAML's non-finite numbers do not occur in compared objects. Object.prototype has the members of ECMAScript and nobody adds to them.
- The remaining checks of a received envelope (clock skew, label, identity) are shallow tests and add nothing to what the signature covers.
- A line bound below one is refused by an exception in the source and is a precondition here. Chunks arrive as bytes: a character split across string chunks is not modelled; `observedBytes` depends on the chunking and is left out; the consumer may stop from onLine or between chunks.
- The reader of `config.toml` in `CodexBlock` knows basic strings, the two escapes the hub writes, and lists of them; TOML forbids raw control characters, which the hub does not escape and the reader does not refuse. Options with line breaks are outside `CodexBlock.UpsertReadsBack`: the hub writes them as they are.
- Text of instructions and regions is free of the four fences; a file that cannot be read counts as missing.
- Sequence numbers beyond 2^53 lose precision in JavaScript; the validator here counts exactly and refuses an unsafe cursor as the source does.
- The event socket: `sent` is what a connected hub receives; Claude drivers' own busy flags are not modelled.
- Vendor adapters, tool catalogue, mesh, attachments, import scan, usage parsing, `bus.ts`, CI monitor, web and desktop: plumbing or easier versions of the same claims.
