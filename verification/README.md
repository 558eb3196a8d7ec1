# Verified model of the screening platform's stateful core

This project models, in Dafny, the parts of the sanctions-screening platform whose correctness rests on an invariant,
an optimality argument or a round trip, and proves those properties for every input, every run or every interleaving.
`dafny verify dfyconfig.toml` checks the whole project.

| component | modules | what is modelled |
|---|---|---|
| generation registry | `CatalogRuntime`, `RuntimeSteps`, `RuntimeRuns`, `RuntimeEffects`, `RuntimeRegistry` | lock-free readers against a mutex-guarded swap. A state machine in which every atomic load, store, add and compare-and-swap is a step of its own, for any number of threads, generations and leases; the class `Registry` performs the steps in place |
| activation promotion | `ActivationPromotion`, `PromotionRecovery`, `PromotionOperations`, `PromotionCalls`, `PromotionOrphans`, `PromotionHistory`, `PromotionHalfway`, `PromotionLeftovers`, `PromotionCompletes`, `PromotionEffects`, `PromotionManager` | the phase machine, its write-ahead commit and its hash-chained audit log. The files are the fields of the class `Manager`; a crash may come between any two writes, of an operation or of recovery |
| case event store | `AlertCase`, `CaseInvariant`, `CaseRuns`, `CaseLog`, `CaseEffects`, `CaseStore` | event log, stored projection, head, idempotency receipts, four-eyes rule and audit chain |
| name similarity | `EditDistance`, `TokenMatching`, `Similarity`, `NameScore`, `NameEvidence` | the loops and tables of the baseline matcher, against definitions by optimality |
| catalog delta | `Catalog`, `CatalogRefresh`, `CatalogDelta`, `DeltaRoundTrip`, `RefreshReports`, `DeltaEffects` | comparing two catalogs, building a patch and applying it |
| component registry | `CatalogRegistry`, `RegistryChanges`, `RegistryRuns`, `RegistryEffects`, `RegistryCuts`, `RegistryLoops`, `RegistryStore` | append-only activation chain with epochs and active pointers; the validator that runs after the files are written |
| list mapping | `AlertListMapping`, `MappingTimeline`, `MappingRuns`, `MappingResolution`, `MappingEffects`, `MappingCuts`, `MappingStore` | append-only, time-effective bindings and point-in-time resolution |
| ISO evidence tree | `IsoTree`, `IsoParsing`, `IsoPaths`, `IsoForms`, `IsoTransactions` | the stack machine that builds the element tree, node paths, transaction numbers |
| candidate ranking | `CandidateText`, `CandidateScoring`, `CandidateRanking`, `RankingLaws`, `RankingEvidence`, `RankingPoints` | normalization, comparison of candidate and subject, the ranking |

`Wrappers`, `Text`, `Ordering`, `Maps` and `Keyed` hold the shared vocabulary: sorting that forgets the order of its
input, lists kept sorted by a key, maps listed as sequences, decimal numerals, white space, UTF-8 bytes.

Each imperative part of the source is a method or a class whose `ensures` tie it to a specification function; the
theorems are about those functions. What an operation needs and what it leaves is proved once more in terms of the
records, logs and turns themselves, without those functions (the modules `…Effects`, `CaseLog`, `NameEvidence`,
`RefreshReports`, `IsoForms`, `RankingEvidence`, `RankingPoints`). SHA-256 digests are injective: a digest is a datatype value that holds what was
digested. Times are integers, with 0 for the zero time.

## Results that qualify what the code promises

* A delta that was built restores its target under every order the map iteration and the unstable sort may give exactly
  when the target's uid numbers rise strictly (`DeltaRoundTrip.RoundTrip`). With two records of one number, which
  `ValidateCatalog` accepts (`DeltaRoundTrip.TiedHappens`: uids "1" and "01"), some order makes `Apply` refuse; it never
  returns a wrong catalog.
* The ratio of changes is measured against the larger catalog, but can reach 20000. `ValidateDiff` therefore refuses
  the honest report of two valid catalogs exactly when 10000 times the changes reaches 10001 times the larger size
  (`CatalogRefresh.DiffAccepted`; two catalogs in `DeltaRoundTrip.DisjointHappens`).
* `Promote` and `Rollback` switch the active activation before they commit. Either ends half done exactly when, having
  passed its checks, it is interrupted after its first or second write (the switch, the snapshot), or finds another
  snapshot in its way (`PromotionHalfway.HalfPromotion`, `PromotionHalfway.HalfRollback`). No call, interrupted or not,
  leads out again (`HalfPromotedForever`, `HalfRolledBackForever`); over whole histories activation and phase agree
  until the first such call and never after it (`InStepUntilTorn`). Both happen (`PromotionCompletes.PromotionHappens`,
  `PromotionCompletes.HalfRollbackHappens`).
* An acknowledgement interrupted between its two audit writes leaves an orphan event. No call sees it, but in every
  history VerifyAudit succeeds exactly if no two event files share a sequence number up to the head's
  (`PromotionHistory.HistoryAudit`): right after the interruption it still does, after the next append exactly if that is
  of the orphan itself (`PromotionLeftovers.OrphanLeft`), and once it fails it fails for good
  (`PromotionLeftovers.DoubledForever`).
* A canary start or an evaluation interrupted after its snapshot and before its pending record can be repeated exactly
  when the repetition writes the very same state, time included (`PromotionLeftovers.CanaryAgain`,
  `PromotionLeftovers.EvaluationAgain`), a preparation exactly when it also writes the very same intent
  (`PromotionLeftovers.PreparationAgain`), a promotion or rollback never (`PromotionLeftovers.SwitchNeverAgain`). Until
  the snapshot's state is committed no call commits any other (`PromotionLeftovers.TakenStays`).
* An activation in the component registry interrupted after its pointer file leaves files that Verify refuses, unless the
  component had no pointer (`RegistryCuts.CutLoads`). Repeating the request, or any other for that component, mends it
  (`RegistryCuts.CutRepeats`, `RegistryCuts.OtherLoads`; a run in `RegistryCuts.CutHappens`).
* A registration in the mapping store interrupted after the key file of a new list can be repeated, but an input for that
  list with another creator or time of creation is refused from then on (`MappingCuts.CutThenOther`,
  `MappingCuts.KeyStays`; a run in `MappingCuts.KeyCollisionHappens`).
* A repeated case event is answered with the case as it is by then, and its last event. That is the first answer exactly
  if no event of the case was accepted in between (`CaseRuns.SameAnswer`).
* The component registry's validator pins neither which activation of its component a pointer names, nor its actor and
  time, nor that a pointer is there at all: given an otherwise valid registry it accepts exactly the sorted lists of
  pointers, one a component at most, that name some activation of their component (`RegistryRuns.PointersAccepted`).
  That every pointer is the latest is kept by the operations (`RegistryRuns.PointerIsLast`).
* Mapping version ids see whole seconds. An input that could otherwise be built is refused as a collision exactly if it
  advances its timeline and some version on record, the latest or an earlier one, is alike to the second
  (`MappingResolution.SameSecondCollides`, with a run in `MappingResolution.CollisionHappens`).
* A name scores 10000 against itself exactly when all its tokens have an A-Z letter, or phonetics have no weight
  (`NameScore.IdenticalNames`; `NameScore.DigitName` is a name that does not).

## Model

| member | source | states |
|---|---|---|
| RuntimeRuns.NoLostWakeup | internal/catalogruntime/runtime.go:79-138 | In every state of every interleaving the reader count of a generation is the leases out on it plus the threads between increment and grant or decrement; a retired generation with count 0 is drained unless a thread is inside `signal` for it |
| RuntimeRuns.DrainedWhenIdle | internal/catalogruntime/runtime.go:57-138 | When no call is under way, the drained generations are exactly the replaced ones without an unreleased lease |
| RuntimeRuns.DrainSafety | internal/catalogruntime/runtime.go:79-138 | Once `drained` is closed it stays closed, no unreleased lease on the generation exists, and none is ever granted again |
| RuntimeRuns.LeaseWasActive | internal/catalogruntime/runtime.go:79-93 | Every lease was granted by an `Acquire` attempt that loaded its generation as the active one, and was not retired at the grant |
| RuntimeRuns.RetryMeansSwap | internal/catalogruntime/runtime.go:79-93 | `Acquire` goes round its loop only if a swap happened since its attempt loaded `active` |
| RuntimeRuns.StaysInactive | internal/catalogruntime/runtime.go:57-77 | A generation that was replaced is never active again |
| RuntimeRuns.ActiveIsLast | internal/catalogruntime/runtime.go:57-77 | The active generation is the one last swapped in, and no generation is swapped in twice |
| RuntimeRuns.EpochsRiseByOne | internal/catalogruntime/records.go:384-430 | Every change of the active generation, by `Activate` or by the package path, raises the active epoch by exactly one and installs a generation never active before |
| RuntimeRuns.RegistryEpochAgrees | internal/catalogruntime/records.go:384-430 | The package path's check of the registry epoch against the active generation never fails |
| RuntimeSteps.StepKeepsInv | internal/catalogruntime/runtime.go:57-138 | Every step of every thread keeps the invariant: mutual exclusion, swap history, reader counts, drain facts, no lost wakeup |
| RuntimeRuns.RunInv | internal/catalogruntime/runtime.go:57-138 | The invariant holds in every state of every run, for any number of threads |
| RuntimeEffects.ReleaseReturns | internal/catalogruntime/runtime.go:116-123 | Release returns with its lease released for good; if the lease was out at the claim, exactly one of its turns takes exactly one reader off exactly that generation, and if not none does |
| RuntimeEffects.AcquireReturns | internal/catalogruntime/runtime.go:79-93 | Acquire returns without a lease only if nothing was active when it last looked; otherwise its last turn grants exactly one lease, on the generation this call found active |
| RuntimeEffects.ActivateReturns | internal/catalogruntime/runtime.go:57-77 | Activate swaps in exactly its generation, with the next epoch, and retires what it replaces, if the generation was unretired and of epoch 0 when the lock was taken; otherwise it swaps in nothing |
| RuntimeEffects.PackageReturns | internal/catalogruntime/records.go:384-430 | A package activation with an accepted record, over no generation or a packaged one, swaps in exactly one new packaged generation and retires what it replaces; otherwise nothing |
| RuntimeEffects.CallsStart | internal/catalogruntime/runtime.go:50-123 | A call on an existing lease or generation starts, and making a generation adds exactly one |
| RuntimeEffects.CallsProgress | internal/catalogruntime/runtime.go:57-138 | Every turn brings a call nearer to its end, but for waiting on a mutex another thread holds and for starting an attempt of Acquire over |
| RuntimeRegistry.Registry.Acquire | internal/catalogruntime/runtime.go:79-93 | Each atomic operation of `Acquire` changes the registry as the state machine says: load, increment, re-check, grant, or decrement and signal |
| RuntimeRegistry.Registry.Release | internal/catalogruntime/runtime.go:116-123 | Each atomic operation of `Release`, with the compare-and-swap that makes a second release a no-op |
| RuntimeRegistry.Registry.Signal | internal/catalogruntime/runtime.go:134-138 | Each atomic operation of `signal`: the two loads and the closing of `drained` once |
| RuntimeRegistry.Registry.Lock | internal/catalogruntime/runtime.go:57-60 | Entering the critical section, only when the mutex is free |
| RuntimeRegistry.Registry.Activate | internal/catalogruntime/records.go:384-430 | Each atomic operation inside the critical section, on both activation paths |
| RuntimeRegistry.Registry.Advance | internal/catalogruntime/runtime.go:57-138 | Whatever thread moves next, the registry's whole new state is the state machine's next state |
| PromotionCalls.CrashRecovery | internal/activationpromotion/manager.go:299-326 | Interrupt any operation but Acknowledge after any number of its writes, run Recover next, interrupted and restarted any number of times: if the pending record was written the disk ends file for file as an uninterrupted run leaves it; if not, state, audit log and pending record are as before; Recover succeeds either way |
| PromotionRecovery.RecoveryCompletes | internal/activationpromotion/manager.go:299-326 | From a transaction in flight, however often recovery crashes, it ends with that transaction complete and the log verified |
| PromotionCalls.CallKeepsSettled | internal/activationpromotion/manager.go:56-288 | Every call, interrupted anywhere and followed by recovery, leaves state, audit log and snapshots consistent, unless it leaves an orphan acknowledgement event |
| PromotionOrphans.AfterWith | internal/activationpromotion/manager.go:188-326 | Event files beyond those of the log change nothing about what any call does, interrupted or not, but stay on disk |
| PromotionOrphans.CallKeepsSound | internal/activationpromotion/manager.go:56-326 | Every call, interrupted anywhere and followed by recovery, and whether or not it leaves an orphan event, leaves a disk that is consistent but for orphan events |
| PromotionHistory.HistorySound | internal/activationpromotion/manager.go:56-326 | The same over all histories from an empty directory |
| PromotionHistory.HistorySettled | internal/activationpromotion/manager.go:56-326 | Until the first acknowledgement interrupted between its audit writes there are no orphan events at all |
| PromotionOrphans.AuditExactly | internal/activationpromotion/manager.go:328-358 | On a disk consistent but for orphan events VerifyAudit succeeds if and only if no two event files share a sequence number up to the head's |
| PromotionHistory.HistoryAudit | internal/activationpromotion/manager.go:328-358 | So it is after every call of every history; and until the first orphan it always succeeds |
| PromotionRecovery.SettledAudit | internal/activationpromotion/manager.go:328-358 | On a consistent disk VerifyAudit succeeds |
| PromotionHistory.AuditArithmetic | internal/activationpromotion/audit.go:10-53 | After every call of every history, with orphans or not: commit events carry revisions 1, 2, 3 and so on up to the state's, and the head's sequence is the revision plus the acknowledgement events |
| PromotionHistory.PromotionGate | internal/activationpromotion/manager.go:226-260 | Whenever the phase is promoted: the last evaluation is on disk and within the intent's thresholds; the last three commit events are that evaluation, with that report and no blocker as its payload, the canary start, and the promotion, with a count of ready instances that is enough; and there are at least as many distinct instance ids as required, each with an acknowledgement file of this intent that names the candidate and says ready |
| PromotionHistory.BlockersExact | internal/activationpromotion/manager.go:507-525 | An evaluation has no blocker if and only if every measure is within its threshold |
| PromotionEffects.BlockersNamed | internal/activationpromotion/manager.go:507-525 | The blockers are exactly those whose own measure exceeds its own threshold, each once, in the order of comparison |
| PromotionEffects.PrepareNeeds | internal/activationpromotion/manager.go:56-138 | Prepare succeeds if and only if the request is acceptable (identifiers, texts, canary share, count, thresholds), no promotion is under way, the candidate is registered, new and linked to the active activation, and its files are free |
| PromotionEffects.PrepareRefuses | internal/activationpromotion/manager.go:62-84 | The error otherwise, and that nothing is written |
| PromotionEffects.PrepareDoes | internal/activationpromotion/manager.go:104-137 | The intent filed, the state and the event, with trimmed operator and reason; nothing else changes |
| PromotionEffects.EvaluateNeeds | internal/activationpromotion/manager.go:140-182 | Evaluate succeeds if and only if the revision is as expected, the phase is before the canary, the summary is well formed and of this promotion, and the files are free |
| PromotionEffects.EvaluateRefuses | internal/activationpromotion/manager.go:146-160 | The error otherwise, and that nothing is written |
| PromotionEffects.EvaluateDoes | internal/activationpromotion/manager.go:161-181 | Validated without a blocker and blocked with one; the report filed, and the event with summary and blockers, actor and reason as given |
| PromotionEffects.CanaryNeeds | internal/activationpromotion/manager.go:360-383 | StartCanary succeeds if and only if the revision is as expected, the phase is validated and the snapshot file is free |
| PromotionEffects.CanaryRefuses | internal/activationpromotion/manager.go:360-376 | The error otherwise, and that nothing is written |
| PromotionEffects.CanaryDoes | internal/activationpromotion/manager.go:376-382 | The phase, revision and time committed, all else of the state kept, and the event with actor and reason as given |
| PromotionEffects.AcknowledgeNeeds | internal/activationpromotion/manager.go:188-224 | Acknowledge succeeds if and only if the promotion is validated or a canary, the acknowledgement is well formed, of this intent and its candidate, and the first of its instance or the same again; the error otherwise |
| PromotionEffects.AcknowledgeDoes | internal/activationpromotion/manager.go:211-223 | The acknowledgement filed with its time, and its event by the instance; the state stays |
| PromotionEffects.PromoteNeeds | internal/activationpromotion/manager.go:226-260 | Promote succeeds if and only if the revision is as expected, the phase is the canary, at least as many instances as required have a ready file, the activation can be switched, and the snapshot file is free |
| PromotionEffects.PromoteRefuses | internal/activationpromotion/manager.go:236-249 | With fewer ready files than required it is refused as not ready and nothing is written; likewise on another revision or phase |
| PromotionEffects.PromoteDoes | internal/activationpromotion/manager.go:250-259 | The candidate is active, the state promoted without blockers, and the event carries the number of ready files |
| PromotionEffects.RollbackNeeds | internal/activationpromotion/manager.go:262-288 | Rollback succeeds if and only if the revision is as expected, the phase is promoted, the activation can be switched back, and the snapshot file is free |
| PromotionEffects.RollbackRefuses | internal/activationpromotion/manager.go:272-277 | The error otherwise, and that nothing is written |
| PromotionEffects.RollbackDoes | internal/activationpromotion/manager.go:278-287 | The activation that was current is active again, the state rolled back, and the event with actor and reason as given |
| PromotionEffects.NeedsPreparation | internal/activationpromotion/manager.go:402-415 | Without a state and its intent every operation but Prepare is refused before it writes |
| PromotionOrphans.InterruptedAcknowledgement | internal/activationpromotion/manager.go:188-224 | An acknowledgement interrupted between its two audit writes leaves a settled disk but for one orphan event that continues its log |
| PromotionLeftovers.OrphanBreaksAudit | internal/activationpromotion/audit.go:32-53 | With an orphan event on disk the log verifies, and after the next append it verifies if and only if that append wrote the same event |
| PromotionLeftovers.OrphanLeft | internal/activationpromotion/manager.go:188-224 | The two together for the disk an interrupted acknowledgement leaves: if the next append is of the orphan all is settled again, if not two events have one sequence number |
| PromotionLeftovers.DoubledForever | internal/activationpromotion/manager.go:328-358 | Once two events have one sequence number that the head has reached, VerifyAudit fails after every call, whatever it is and wherever it is interrupted |
| PromotionLeftovers.CanaryRetry | internal/activationpromotion/manager.go:360-383 | From a validated state, starting the canary succeeds if and only if the next snapshot file does not hold another state than that to be written |
| PromotionLeftovers.EvaluationRetry | internal/activationpromotion/manager.go:140-182 | In a phase that may be evaluated, a well-formed summary is committed if and only if neither its report file nor the next snapshot file holds anything else |
| PromotionLeftovers.PreparationRetry | internal/activationpromotion/manager.go:56-138 | A request that passes its checks is committed if and only if neither its intent file nor the first snapshot file holds anything else |
| PromotionLeftovers.CanaryAgain | internal/activationpromotion/manager.go:424-445 | A canary start interrupted after its snapshot leaves the state as it was, and goes through again if and only if the clock reads the same |
| PromotionLeftovers.EvaluationAgain | internal/activationpromotion/manager.go:424-445 | An evaluation interrupted after its snapshot leaves the state as it was; then an evaluation goes through if and only if it is of the same summary at the same time |
| PromotionLeftovers.PreparationAgain | internal/activationpromotion/manager.go:56-138 | A preparation interrupted after its intent file, or the snapshot too, goes through again under its id if and only if the intent is the same, time included, and the first state is that of the snapshot |
| PromotionLeftovers.SwitchNeverAgain | internal/activationpromotion/manager.go:226-288 | A promotion or rollback cut short after its switch is refused ever after, with any revision, actor, reason or time |
| PromotionLeftovers.TakenBlocks | internal/activationpromotion/manager.go:424-445 | With the snapshot of the next revision on disk, every call commits exactly the state it holds, or none |
| PromotionLeftovers.TakenStays | internal/activationpromotion/manager.go:424-445 | The same over whole histories: the state stays until exactly the snapshot's state is committed |
| PromotionHalfway.HalfPromotion | internal/activationpromotion/manager.go:226-260 | A promotion ends half done if and only if the guards hold (state and intent, revision, canary, enough ready instances, the current activation active and linked) and it is interrupted after its first or second write, or the next snapshot file holds another state |
| PromotionHalfway.HalfRollback | internal/activationpromotion/manager.go:262-288 | The same for a rollback |
| PromotionHalfway.HalfwayRefuses | internal/activationpromotion/manager.go:56-288 | After either, every operation but an acknowledgement is refused before its first write |
| PromotionHalfway.HalfPromotedForever | internal/activationpromotion/manager.go:188-288 | After a half-done promotion no call, interrupted anywhere and with or without orphan events, changes the state or the active activation |
| PromotionHalfway.HalfRolledBackForever | internal/activationpromotion/manager.go:188-288 | The same after a half-done rollback |
| PromotionHalfway.InStepUntilTorn | internal/activationpromotion/manager.go:56-326 | In every history, with orphan events or not, the candidate is active exactly while the phase is promoted, until the first promotion or rollback cut short as above; ever after one of them is half done |
| PromotionCompletes.PromotionCompletes | internal/activationpromotion/manager.go:56-260 | From any empty directory, for any sound request, a summary within the thresholds and as many distinct instances as required, the calls from Prepare to Promote are a history that ends promoted; cut short after its first or second write Promote ends half done |
| PromotionCompletes.RollbackCompletes | internal/activationpromotion/manager.go:262-288 | Such a promotion can be rolled back, and cut short after its first or second write the rollback ends half done |
| PromotionCompletes.PromotionHappens | internal/activationpromotion/manager.go:56-260 | One history that ends promoted, and one that ends half promoted |
| PromotionCompletes.HalfRollbackHappens | internal/activationpromotion/manager.go:262-288 | One history that ends half rolled back |
| PromotionCompletes.OrphanHappens | internal/activationpromotion/manager.go:188-224 | One settled disk on which an interrupted acknowledgement leaves an orphan |
| PromotionManager.Manager.Write | internal/activationpromotion/manager.go:447-461 | One file write, or none if the process has died; no other file changes |
| PromotionManager.Manager.AppendAudit | internal/activationpromotion/audit.go:32-53 | The files and the outcome are those of the append's plan cut off where the crash comes: event file if new, then head, refused on another predecessor |
| PromotionManager.Manager.CommitState | internal/activationpromotion/manager.go:424-445 | The files and the outcome are those of the commit's plan cut off where the crash comes: snapshot, pending, event, head, state, pending removed |
| PromotionManager.Manager.VerifyAudit | internal/activationpromotion/manager.go:328-358 | Succeeds exactly when each sequence number from 1 to the head's has one event, sealed and chained to the one before, and the head names the last |
| PromotionManager.Manager.Recover | internal/activationpromotion/manager.go:299-326 | The files and the outcome are those of the recovery plan cut off where the crash comes |
| PromotionManager.Manager.Prepare | internal/activationpromotion/manager.go:56-138 | Checks, intent file and first commit, in the source's order, from any disk |
| PromotionManager.Manager.Evaluate | internal/activationpromotion/manager.go:140-182 | Checks, report file and commit of the validated or blocked phase |
| PromotionManager.Manager.StartCanary | internal/activationpromotion/manager.go:184-186 | Checks and commit of the canary phase |
| PromotionManager.Manager.Acknowledge | internal/activationpromotion/manager.go:188-224 | Checks, immutable acknowledgement file and audit append |
| PromotionManager.Manager.Promote | internal/activationpromotion/manager.go:226-260 | Checks, ready count, switch of the active activation and commit |
| PromotionManager.Manager.Rollback | internal/activationpromotion/manager.go:262-288 | Checks, switch back and commit |
| CaseRuns.ReplayAgrees | internal/alertcase/store.go:485-542 | After any run the fold of a case's event log is exactly its stored projection, generated evidence ids included, and log length, head sequence, head revision and projection revision agree |
| CaseRuns.EventsMatchReceipts | internal/alertcase/store.go:245-336 | A case has one event more than the distinct receipts of events accepted for it |
| CaseRuns.ReceiptsArePermanent | internal/alertcase/store.go:93-104 | A receipt on record is never changed or removed |
| CaseRuns.ReceiptDecides | internal/alertcase/store.go:71-91 | With a receipt on record its request is answered as a replay without any change; any other under that scope and key is a conflict without any change |
| CaseRuns.ExactlyOnce | internal/alertcase/store.go:169-336 | The same, from acceptance on through any further run: a repeated request has its effect exactly once |
| CaseRuns.SameAnswer | internal/alertcase/store.go:245-336 | A repeated event request is answered like the first time, event and projection, if and only if no event of the case was accepted in between |
| CaseRuns.FourEyesHold | internal/alertcase/store.go:386-422 | Every approve or reject event is by another actor than the latest propose event before it |
| CaseRuns.ApprovedByAnother | internal/alertcase/store.go:386-422 | An approved decision is that of a propose event approved later by somebody else, and the proposer is on record exactly while the case is pending approval or resolved |
| CaseStore.AuditVerifies | internal/alertcase/store.go:544-592 | After any run the audit chain links up from the first event to the head |
| CaseInvariant.RunInv | internal/alertcase/store.go:169-336 | The store invariant holds after any run of calls, accepted or refused |
| CaseLog.ProjectionTold | internal/alertcase/store.go:338-433 | After any run the projection is what the event log says: the state of the latest action that changes it; assignee, proposer, proposed and approved decision of the latest events that set or clear them; evidence and rescreening ids exactly those given or generated, in order; the times of the first and last event; and the identity of the case |
| CaseEffects.EventNeeds | internal/alertcase/store.go:275-290 | A new event is accepted if and only if it addresses the case at its revision with an actor and a time, its payload is JSON and says what its action needs, the case is in a state that action may start from, and a decision is on the proposal of someone else |
| CaseEffects.EventRefuses | internal/alertcase/store.go:338-433 | Otherwise nothing changes, and which error is reported |
| CaseEffects.EventDoes | internal/alertcase/store.go:291-335 | The event with all the request says, appended and linked; the answer, the audit entry and the receipt; nothing else changes |
| CaseEffects.CreationNeeds | internal/alertcase/store.go:182-200 | A creation is accepted if and only if tenant, creator, reason, alerts and time are given and every alert is on record for the tenant |
| CaseEffects.CreationDoes | internal/alertcase/store.go:201-242 | The case named by tenant, sorted alerts and grouping key is opened with one event that says all the request does, or answered as it is; receipt and audit entry |
| CaseEffects.KeyNeeded | internal/alertcase/store.go:71-79 | Without an idempotency key nothing is accepted or changed |
| CaseStore.Store.Lookup | internal/alertcase/store.go:71-91 | The receipt if it is for the same request, a conflict if for another, nothing if there is none |
| CaseStore.Store.Append | internal/alertcase/store.go:544-566 | The audit log grows by one event chained to the head, and nothing else changes |
| CaseStore.Store.CreateCase | internal/alertcase/store.go:169-243 | Reply and whole new store are those of the specification: replay, refusal, or new case with its first event, projection, audit event and receipt |
| CaseStore.Store.ApplyCaseEvent | internal/alertcase/store.go:245-336 | Reply, with its event, and whole new store are those of the specification: replay with the event at the head, refusal by revision or transition, or one more event, projection, audit event and receipt |
| CaseStore.Store.VerifyCase | internal/alertcase/store.go:485-542 | Succeeds exactly when the chain links and the fold of the events is the stored projection |
| CaseStore.Store.VerifyAudit | internal/alertcase/store.go:568-592 | Succeeds exactly when every event is sealed and linked to the one before, and counts them |
| EditDistance.Levenshtein | internal/matcherbaseline/similarity.go:94-124 | The two rolling rows end with the edit distance |
| EditDistance.LevOptimal | internal/matcherbaseline/similarity.go:94-112 | The distance is the least length of an edit script that turns one sequence into the other |
| EditDistance.LevMetric | internal/matcherbaseline/similarity.go:94-112 | Zero only on equal input, symmetric, triangular, between the length difference and the longer length |
| TokenMatching.LongestOptimal | internal/matcherbaseline/similarity.go:163-187 | The table's last cell is the size of a longest order-preserving matching, for any relation, transitive or not |
| TokenMatching.NoneLonger | internal/matcherbaseline/similarity.go:163-187 | No order-preserving matching of two prefixes is longer than their cell says |
| TokenMatching.CommonOptimal | internal/matcherbaseline/similarity.go:188-219 | The sum over non-empty codes of the smaller multiplicity is the size of a largest matching of equal codes |
| TokenMatching.CommonOfSame | internal/matcherbaseline/similarity.go:188-219 | A list of codes matches itself completely if and only if none is empty |
| Similarity.EditSimilarity | internal/matcherbaseline/similarity.go:82-93 | The share of the longer name the edit distance leaves, 10000 for two empty names |
| Similarity.LengthBoundsEdit | internal/matcherbaseline/similarity.go:125-139 | Edit similarity never exceeds length similarity |
| Similarity.LongestMatching | internal/matcherbaseline/similarity.go:163-187 | The table of the ordered-token loop ends with the longest matching under edit similarity of at least 7000 |
| Similarity.OrderedTokenSimilarity | internal/matcherbaseline/similarity.go:163-187 | The longest matching over the length of the longer list, in basis points |
| Similarity.Soundex | internal/matcherbaseline/similarity.go:220-262 | The loop that stops after four characters computes the code of all the letters |
| Similarity.GreedyMatches | internal/matcherbaseline/similarity.go:188-219 | Taking the first free equal code finds a maximum matching |
| Similarity.PhoneticSimilarity | internal/matcherbaseline/similarity.go:188-219 | The maximum matching of soundex codes over the length of the longer list, in basis points |
| Similarity.PhoneticScoreOfSame | internal/matcherbaseline/similarity.go:188-219 | A token list matches itself fully if and only if every token has an A-Z letter |
| NameScore.CodesForgetOrder | internal/matcherbaseline/similarity.go:188-219 | Reordering tokens reorders their codes |
| NameScore.DirectedTokenScore | internal/matcherbaseline/similarity.go:149-162 | The average of each token's best edit similarity in the other list |
| NameScore.TokenAlignmentSimilarity | internal/matcherbaseline/similarity.go:140-148 | The average of both directions |
| NameScore.PerfectAlignment | internal/matcherbaseline/similarity.go:140-162 | Alignment is symmetric, and 10000 if and only if both lists have the same set of tokens |
| NameScore.BestEditSimilarity | internal/matcherbaseline/similarity.go:64-80 | The better of the raw and the token-sorted edit similarity |
| NameScore.ReorderingIsFree | internal/matcherbaseline/similarity.go:39-80 | Equal multisets of two or more tokens score 10000 in edit and alignment, and phonetically as the list against itself |
| NameScore.ScoreName | internal/matcherbaseline/similarity.go:13-37 | Score, sorted evidence and single-token penalty |
| NameScore.ScoreInRange | internal/matcherbaseline/profile.go:75-85 | With weights that sum to 10000 the score lies in 0 to 10000 |
| NameScore.ScoreSymmetric | internal/matcherbaseline/similarity.go:13-37 | Swapping query and candidate changes neither score nor evidence |
| NameScore.IdenticalNames | internal/matcherbaseline/similarity.go:13-37 | A name scores 10000 against itself if and only if every token has an A-Z letter or phonetics carry no weight |
| NameScore.DigitName | internal/matcherbaseline/similarity.go:13-37 | The name "7" does not, under any balanced profile with phonetics |
| NameEvidence.EvidenceIs | internal/matcherbaseline/similarity.go:13-27 | Each evidence entry has its own name, its own weight of the profile and its own similarity, and contributes their product in basis points, rounded down |
| NameEvidence.ScoreIs | internal/matcherbaseline/similarity.go:24-36 | The score is the sum of the five contributions less the penalty, at least 0; the penalty is taken exactly if the names differ and a side has a single token |
| NameEvidence.AloneDecides | internal/matcherbaseline/similarity.go:13-37 | Under a profile with one weight of 10000 the score is that one similarity less the penalty, at least 0, for each of the five |
| NameEvidence.BestEditScoreIs | internal/matcherbaseline/similarity.go:64-93 | Edit similarity is the share of the longer text that the least number of edits leaves, of the names or, if higher and a side has two tokens, of their tokens in order |
| NameEvidence.LengthScoreIs | internal/matcherbaseline/similarity.go:125-139 | Length similarity is the share of the longer name that the shorter one is long |
| NameEvidence.OrderedScoreIs | internal/matcherbaseline/similarity.go:163-187 | Ordered similarity is the share of the longer list covered by a longest list of pairs, both sides in order, of tokens with an edit similarity of 7000 or more |
| NameEvidence.PhoneticScoreIs | internal/matcherbaseline/similarity.go:188-219 | Phonetic similarity is the share of the longer list covered by a largest set of disjoint pairs with one non-empty Soundex code |
| NameEvidence.AlignmentScoreIs | internal/matcherbaseline/similarity.go:140-162 | Alignment is the average of both directions, each the average over its tokens of the highest edit similarity with the other side |
| NameEvidence.CodeIs | internal/matcherbaseline/similarity.go:220-244 | A Soundex code is the first letter, the digits of exactly the later letters that have one and not that of the letter before, and zeros, cut to four |
| NameEvidence.DigitsAre | internal/matcherbaseline/similarity.go:245-262 | The letters of each group share their digit, and no other letter has it |
| Catalog.ValidateCatalog | internal/ofaccatalog/project.go:75-112 | Accepts exactly the valid catalogs |
| Catalog.IdsDistinct | internal/ofaccatalog/project.go:75-112 | Accepted records have distinct ids |
| Catalog.UidsRise | internal/ofaccatalog/project.go:75-112 | Accepted records come in order of their uid numbers |
| CatalogRefresh.BuildRecordMap | internal/catalogrefresh/diff.go:75-81 | The map from id to record |
| CatalogRefresh.ValidRecordMap | internal/catalogrefresh/diff.go:75-81 | The map of a valid catalog loses no record |
| CatalogRefresh.CompareBase | internal/catalogrefresh/diff.go:26-42 | In whatever order the map is walked, the removed and modified ids are listed once each and the unchanged counted |
| CatalogRefresh.CollectAdded | internal/catalogrefresh/diff.go:43-48 | In whatever order the map is walked, the added ids are listed once each |
| CatalogRefresh.Diff | internal/catalogrefresh/diff.go:15-73 | The whole report, or the refusal |
| CatalogRefresh.DiffConserves | internal/catalogrefresh/diff.go:24-72 | Removed, modified and unchanged add up to the base; added, modified and unchanged to the target |
| CatalogRefresh.DiffAccepted | internal/catalogrefresh/validate.go:71-79 | The report of valid catalogs is accepted if and only if 10000 times the changes is below 10001 times the larger size; the deletion ratio never exceeds 10000 |
| CatalogRefresh.DisjointRefused | internal/catalogrefresh/validate.go:71-79 | Catalogs without a common record differ by all records, and are refused exactly at that bound |
| CatalogDelta.CheckOperations | internal/catalogrefresh/validate.go:18-69 | Accepts exactly operation lists in rising order of id, each of the shape its type asks for |
| CatalogDelta.ValidateDelta | internal/catalogrefresh/validate.go:18-69 | Accepts exactly the valid deltas |
| CatalogDelta.ListOperations | internal/catalogrefresh/delta.go:12-52 | From the three id lists in any order, the operations sorted by id |
| CatalogDelta.BuildDelta | internal/catalogrefresh/delta.go:12-52 | The whole delta, or the refusal |
| DeltaRoundTrip.BuildExact | internal/catalogrefresh/delta.go:12-52 | A delta is built if and only if both catalogs are valid, the changes within the diff's bound, sequence and time set and the target manifest identified |
| CatalogDelta.Patch | internal/catalogrefresh/delta.go:54-116 | The loop that inserts, replaces and deletes in the record map, stopping at the first operation that does not fit |
| DeltaRoundTrip.ApplyAllIs | internal/catalogrefresh/delta.go:54-116 | Operations on distinct ids succeed together if and only if each fits the base, and then change just their ids |
| DeltaRoundTrip.OrderFree | internal/catalogrefresh/delta.go:54-116 | Operations on distinct ids may be applied in any order: same success, same map |
| DeltaRoundTrip.BuiltPatches | internal/catalogrefresh/delta.go:12-116 | The built operations turn the base's record map into the target's |
| CatalogDelta.Collect | internal/catalogrefresh/delta.go:54-116 | The records are collected once each, in whatever order the map is walked |
| CatalogDelta.Apply | internal/catalogrefresh/delta.go:54-116 | The result is that of the specification for one of the record orders the map and the unstable sort may produce |
| DeltaRoundTrip.AppliedBuilt | internal/catalogrefresh/delta.go:12-116 | Applying a built delta gives the target if the records come out in the target's order, and an identity error otherwise; the possible orders are those sorted by uid number |
| DeltaRoundTrip.RoundTrip | internal/catalogrefresh/delta.go:12-116 | A built delta restores its target in every possible order if and only if the target's uid numbers rise strictly |
| DeltaRoundTrip.StrictRoundTrip | internal/catalogrefresh/delta.go:12-116 | With strictly rising uid numbers the round trip always succeeds |
| DeltaRoundTrip.TiedRoundTrip | internal/catalogrefresh/delta.go:12-116 | With two records of one uid number some possible order makes Apply refuse |
| DeltaRoundTrip.TiedHappens | internal/ofaccatalog/project.go:75-112 | A valid catalog with uids "1" and "01", its delta to itself, and an order of its records that Apply refuses |
| DeltaRoundTrip.SelfDelta | internal/catalogrefresh/delta.go:12-52 | Every valid catalog with an identified manifest has a delta to itself |
| DeltaRoundTrip.DisjointHappens | internal/catalogrefresh/validate.go:71-79 | Two valid catalogs of one record each whose report is refused |
| DeltaRoundTrip.NoWrongTarget | internal/catalogrefresh/delta.go:54-116 | Whatever the base, the delta and the order, a success is the very catalog the delta names; injectivity of the checksum carries this |
| RefreshReports.ReportIs | internal/catalogrefresh/diff.go:15-73 | The report of two valid catalogs: exactly the ids that only the target has, only the base has, or whose records differ, in order; their numbers; the change ratio over the larger catalog and the deletion ratio over the base, each by its inequality |
| RefreshReports.ValidExactly | internal/ofaccatalog/project.go:75-112 | A catalog is valid if and only if header, count and checksum are right, every record is sound, no two share an id and the numbers never fall |
| DeltaEffects.ApplyNeeds | internal/catalogrefresh/delta.go:54-72 | A sound delta is applied only in its turn, to the very catalog it was built against, and only if every record it touches is as it was; which error is reported otherwise |
| DeltaEffects.ApplyMisfit | internal/catalogrefresh/delta.go:66-99 | The first operation that does not fit the base decides the error |
| DeltaEffects.BuiltIs | internal/catalogrefresh/delta.go:12-52 | A built delta holds exactly the operations the two catalogs call for, by ascending ids, under both references, the target manifest, and the given number and time |
| DeltaEffects.SoundExactly | internal/catalogrefresh/validate.go:18-69 | A delta is sound if and only if its header is complete, every operation is shaped as its kind asks, the ids ascend, and its sums cover it |
| RegistryRuns.ChecksSuffice | internal/catalogregistry/store.go:130-226 | After any run a request that clears Activate's checks passes the validator that runs once the files are written; a refused one changes nothing |
| RegistryRuns.PointerIsLast | internal/catalogregistry/store.go:130-226 | After any run a component's pointer names its last activation, its epoch is the number of its activations, and it exists if and only if there was one |
| RegistryRuns.LoadSucceeds | internal/catalogregistry/store.go:228-281 | After any run an initialized registry passes Verify against its files |
| RegistryRuns.ActivateIs | internal/catalogregistry/store.go:130-226 | From an invariant state Activate either stops at a check or writes exactly one activation, its pointer, sequence and head |
| RegistryEffects.ActivateNeeds | internal/catalogregistry/store.go:130-177 | After any run an activation goes through if and only if the component is on record and in use, the target is one of its versions and not that of its last activation in the chain, the expected version is not given or is, a rollback target was activated before, the action is supported, and reason, actor and time are given; otherwise nothing changes |
| RegistryEffects.ActivateRefuses | internal/catalogregistry/store.go:137-171 | The first of these demands that is not met is the one reported |
| RegistryEffects.ActivateDoes | internal/catalogregistry/store.go:172-224 | The record appended to the chain with all the request says, after the last activation of the component; the pointer; the files; nothing else changes |
| RegistryEffects.RecordsNamed | internal/catalogregistry/validate.go:18-103 | After any run every component and version on record is named after its key, or its component and identity, a version is of a source of the mode of its component, and no two share a key, or component and identity |
| RegistryRuns.RegisterComponentIs | internal/catalogregistry/store.go:46-87 | From an invariant state only its own checks refuse, never the validator afterwards, and the invariant is kept |
| RegistryRuns.RegisterVersionIs | internal/catalogregistry/store.go:89-128 | The same for versions |
| RegistryRuns.ClashIsById | internal/catalogregistry/store.go:46-87 | The check for another component of the same key never fires, since the id is determined by namespace and key |
| RegistryRuns.InitializeKeepsInv | internal/catalogregistry/store.go:19-44 | Initialization establishes the invariant, and fails exactly on a blank namespace or where a registry exists |
| RegistryRuns.RunInv | internal/catalogregistry/store.go:19-226 | The invariant, validity included, holds after any run |
| RegistryRuns.PointersAccepted | internal/catalogregistry/validate.go:247-261 | Of an otherwise valid registry the validator accepts exactly the lists of pointers that are sorted, one a component at most, and name some activation of their component, at any time and by any actor |
| RegistryRuns.PointerAccepted | internal/catalogregistry/validate.go:247-261 | One pointer may be replaced by exactly those that name some activation of their component |
| RegistryRuns.EarlierAccepted | internal/catalogregistry/validate.go:247-261 | In particular by that of any earlier activation |
| RegistryRuns.NoPointersAccepted | internal/catalogregistry/validate.go:247-261 | With every pointer dropped the registry is still accepted |
| RegistryRuns.MissingPointerPasses | internal/catalogregistry/store.go:130-226 | A run of four calls after which a component has a pointer, and whose registry is accepted without it |
| RegistryRuns.ExampleActivatable | internal/catalogregistry/validate.go:18-103 | Records for such a run |
| RegistryCuts.CutLoads | internal/catalogregistry/store.go:130-281 | An activation interrupted after any of its writes leaves files that Verify accepts if and only if the pointer file is not the last written, or the component had no pointer before |
| RegistryCuts.CutRepeats | internal/catalogregistry/store.go:130-226 | The same request again goes through, and the files end as if it had never been interrupted |
| RegistryCuts.CutThenOther | internal/catalogregistry/store.go:130-226 | So does every other request that clears its checks, with the registry it would have made before |
| RegistryCuts.OtherLoads | internal/catalogregistry/store.go:130-281 | After that request Verify accepts the files if and only if it is for the same component, or the pointer file was not the last written, or there was no pointer before |
| RegistryCuts.CutHappens | internal/catalogregistry/store.go:130-281 | A run of five calls, and a request whose interruption after the pointer file breaks the files until it is repeated |
| RegistryLoops.ValidateRegistry | internal/catalogregistry/validate.go:169-271 | The loops with their maps accept exactly the registries that satisfy the declarative conditions |
| RegistryLoops.CheckComponents | internal/catalogregistry/validate.go:176-193 | Accepts exactly valid components of the namespace with distinct ids and keys, and indexes them |
| RegistryLoops.CheckVersions | internal/catalogregistry/validate.go:194-206 | Accepts exactly valid versions of known components with distinct ids, and indexes them |
| RegistryLoops.CheckActivations | internal/catalogregistry/validate.go:207-243 | The running sequence, hash, epochs and activated versions accept exactly the chains in which every activation fits its predecessors |
| RegistryLoops.CheckActive | internal/catalogregistry/validate.go:247-261 | Accepts exactly pointers of distinct components that agree with a version and an activation |
| RegistryStore.Store.Initialize | internal/catalogregistry/store.go:19-44 | Result and files are those of the specification |
| RegistryStore.Store.RegisterComponent | internal/catalogregistry/store.go:46-87 | Result and files are those of the specification |
| RegistryStore.Store.RegisterVersion | internal/catalogregistry/store.go:89-128 | Result and files are those of the specification |
| RegistryStore.Store.SetActive | internal/catalogregistry/store.go:430-440 | Replaces the component's pointer in place or appends it, and sorts |
| RegistryStore.Store.Activate | internal/catalogregistry/store.go:130-226 | Result and files are those of the specification |
| MappingResolution.TimelineAdvances | internal/alertlistmapping/validate.go:126-157 | In every reachable registry a mapping's versions take effect in strictly rising order |
| MappingResolution.ScanSelectsInForce | internal/alertlistmapping/resolve.go:45-66 | In every reachable registry the in-force intervals of a mapping's versions are disjoint, and the scan selects exactly the version in force |
| MappingTimeline.SelectedUnique | internal/alertlistmapping/resolve.go:45-66 | The selected version is the only one of the mapping that is effective by then and takes effect no earlier than any other |
| MappingResolution.RegisterEffect | internal/alertlistmapping/store.go:50-109 | A new version leaves every answer about other lists and about earlier times as it was, but for unmapped turning into not effective; from its effective time on it is the one selected |
| MappingEffects.AnswerMeans | internal/alertlistmapping/resolve.go:10-98 | After any run, for every query and catalog, each of the eight statuses is given exactly if: no key, no version in force, past its end, retired, component missing, component retired, no active catalog version on record, or none of these; and a resolved answer carries the component and its active catalog version |
| MappingEffects.RegisterNeeds | internal/alertlistmapping/build.go:46-107 | After any run an input is accepted if and only if it is well formed, the catalog is of the namespace, and it is newer than every version of its list, its component is in use and no version is alike to the second; or the last version of its list is alike |
| MappingEffects.RegisterDoes | internal/alertlistmapping/build.go:75-107 | A newer input becomes the next version with all it says, after the last version of its list, and a key for a new list; another is answered with the last version and changes nothing |
| MappingEffects.InputIs | internal/alertlistmapping/validate.go:20-68 | What an input must be: action, component, period, reason, creator and times, source and list name |
| MappingEffects.VersionsStated | internal/alertlistmapping/validate.go:70-165 | After any run every version on record is such an input, numbered by its place, with an id of its own |
| MappingResolution.Reregistering | internal/alertlistmapping/build.go:53-70 | An input that does not advance its timeline returns the latest version unchanged if it digests to that version's id, and is refused otherwise; nothing changes either way |
| MappingResolution.SameSecondCollides | internal/alertlistmapping/store.go:50-109 | Register answers with a collision if and only if the version could be built, the input advances its timeline, and some version on record is alike to the second; then nothing changes |
| MappingResolution.LaterInTheSecond | internal/alertlistmapping/id.go:35-64 | After any new version was accepted, the same input later in the same second is refused so |
| MappingResolution.CollisionHappens | internal/alertlistmapping/id.go:35-64 | A run, an input accepted after it, and one refused next |
| MappingRuns.RegisteredIs | internal/alertlistmapping/store.go:50-109 | From an invariant state Register fails only as BuildVersion or the id check says, never at a file or at the validator afterwards; a success adds exactly one version and at most one key |
| MappingRuns.BuiltNeverInvalid | internal/alertlistmapping/build.go:46-107 | With a validated catalog, what BuildVersion checks is enough for ValidateVersion |
| MappingTimeline.MappingIdInjective | internal/alertlistmapping/id.go:27-33 | Mapping ids of sound sources and lists are equal only for equal sources and lists |
| MappingRuns.LoadedIs | internal/alertlistmapping/store.go:111-153 | Loading an invariant registry fails only because of the catalog |
| MappingRuns.RunInv | internal/alertlistmapping/store.go:22-109 | The invariant, chain and files included, holds after any run |
| MappingCuts.CutLoads | internal/alertlistmapping/store.go:50-153 | A registration interrupted before the registry is written loads as before, under every catalog |
| MappingCuts.CutRepeats | internal/alertlistmapping/store.go:50-109 | The same input again goes through, and the files end as if it had never been interrupted |
| MappingCuts.CutThenOther | internal/alertlistmapping/store.go:50-174 | Another input that would have made a new version is refused if and only if it is for the same list, of which the key file was left, with another creator or time of creation, or digests to the id of the version file that was left without being the same to the last field |
| MappingCuts.KeyStays | internal/alertlistmapping/store.go:50-174 | A key file left without its key on record stays so through every call until an input with exactly that key is accepted; so no other creator or time of creation opens the list |
| MappingCuts.KeyCollisionHappens | internal/alertlistmapping/store.go:50-109 | A run, an input interrupted after its key file, and one created later that is refused then |
| MappingStore.ScanLatest | internal/alertlistmapping/resolve.go:45-54 | The scan ends with the first of the latest candidates, under a time bound or none |
| MappingStore.ValidateRegistry | internal/alertlistmapping/validate.go:106-165 | The loops with their maps accept exactly the registries that satisfy the declarative conditions |
| MappingStore.Resolve | internal/alertlistmapping/resolve.go:10-98 | The whole answer, or the refusal |
| MappingStore.ResolveBatch | internal/alertlistmapping/resolve.go:100-131 | Answers exactly when all alerts have their own ids and can be resolved; each gets the answer it would get alone, in order, and the summary counts them |
| MappingStore.TalliesAddUp | internal/alertlistmapping/resolve.go:141-160 | The counters of a summary add up to its total |
| MappingStore.Store.Initialize | internal/alertlistmapping/store.go:22-48 | Result and files are those of the specification |
| MappingStore.Store.Load | internal/alertlistmapping/store.go:111-153 | The stored registry if it is valid and its files agree |
| MappingStore.Store.Build | internal/alertlistmapping/build.go:46-107 | The version built, the latest one returned again, or the refusal |
| MappingStore.Store.Register | internal/alertlistmapping/store.go:50-109 | Result and files are those of the specification |
| IsoParsing.ParseBuilds | internal/iso20022coverage/parser.go:96-154 | Parsing the tokens of any document within the limits builds its nodes in document order with names, tidied text, children, parents and sibling indexes |
| IsoParsing.ParseRoundTrip | internal/iso20022coverage/parser.go:96-154 | The document read back from the parsed nodes is the one the tokens came from, up to tidied text |
| IsoParsing.ParsedForm | internal/iso20022coverage/parser.go:96-154 | Whatever tokens parse, the tree is well formed: parents and children agree, children come later, indexes count same-named siblings |
| IsoForms.ParsesExactly | internal/iso20022coverage/parser.go:96-154 | Tokens parse if and only if there is no directive, an element opens only while fewer than 128 are open and 200000 opened, only one outside all others, ends close open elements, at least one was opened and all were closed |
| IsoForms.TidyIs | internal/iso20022coverage/parser.go:140-148 | The text of a node is the words of its character data, which only white space separates, with one space between them |
| IsoTree.ParseTree | internal/iso20022coverage/parser.go:96-154 | The stack machine accepts and rejects as the specification does, with its result |
| IsoTree.Parser.OpenElement | internal/iso20022coverage/parser.go:113-136 | A new node with its sibling index is appended, linked to its parent and pushed; no other node changes |
| IsoTree.Parser.Accept | internal/iso20022coverage/parser.go:96-154 | One token moves the machine to the specified state, or is refused |
| IsoPaths.NodePath | internal/iso20022coverage/parser.go:418-431 | Climbing, reversing in place and joining gives the path of the steps from the root |
| IsoPaths.PathInjective | internal/iso20022coverage/parser.go:418-444 | In a well-formed tree with plain names, nodes with equal paths are one node |
| IsoPaths.PathsNameNodes | internal/iso20022coverage/parser.go:418-444 | The same for every tree that parses: paths are equal if and only if the nodes are |
| IsoForms.StepIs | internal/iso20022coverage/parser.go:418-444 | In every tree that parses a step is the local name, with one more than the number of earlier siblings of that name exactly if there are other siblings of it |
| IsoTransactions.WalkVisits | internal/iso20022coverage/parser.go:392-397 | The walk from a node visits exactly the nodes at or below it, each once |
| IsoTransactions.TransactionIndexes | internal/iso20022coverage/parser.go:191-205 | The numbers are those given to the containers met on the walk, in order |
| IsoTransactions.NumbersBijective | internal/iso20022coverage/parser.go:191-205 | Transaction numbers are a bijection of the containers with 1 to their count, rising in document order |
| IsoTransactions.NearestTransaction | internal/iso20022coverage/parser.go:409-416 | The loop finds the number of the nearest numbered node at or above |
| IsoTransactions.NearestIs | internal/iso20022coverage/parser.go:409-416 | That number is 0 only if no node at or above is numbered, and otherwise that of a numbered one with none in between |
| CandidateText.Normalize | internal/candidatescoring/normalize.go:9-25 | The loop with its pending space computes the specified text |
| CandidateText.NormalizeIdempotent | internal/candidatescoring/normalize.go:9-25 | Normalizing twice is normalizing once, for every alphabet whose upper case is idempotent and keeps the word characters |
| CandidateText.NormalizedWords | internal/candidatescoring/normalize.go:9-25 | Normalized text is the longest runs of word characters of the value, in upper case, with one space between them |
| CandidateText.CollectUnique | internal/candidatescoring/normalize.go:134-148 | The distinct non-empty normalized values in order, in whatever order the map is walked |
| CandidateText.UniqueSortedForgets | internal/candidatescoring/normalize.go:134-148 | The result depends on the set of values only |
| RankingLaws.RankingOrderFree | internal/candidatescoring/engine.go:47-89 | Permuting the candidates, and reordering or repeating entries of any list in them or in the subject, changes neither the ranked results nor a refusal |
| RankingLaws.ScoredForgets | internal/candidatescoring/engine.go:127-227 | One candidate's result depends only on the sets its lists and the subject's make |
| RankingLaws.ScoreIsClampedSum | internal/candidatescoring/engine.go:127-227 | The score is the sum of the components clamped to floor and ceiling, no component is 0, and the evidence is bounded |
| RankingLaws.RankingSorted | internal/candidatescoring/engine.go:65-76 | The ranking holds every candidate's result once: scores never rise, and among equal ones an exact identifier comes first, then an exact name, then the order of ids |
| RankingEvidence.BestNameIs | internal/candidatescoring/engine.go:336-381 | No pair of names matches more strongly than the one reported, which is the first by text of those as strong; none is reported exactly if no pair matches |
| RankingEvidence.RankIs | internal/candidatescoring/engine.go:346-364 | The rank is that of the strongest of the six shapes: same text, same without spaces, same tokens, same tokens but particles, prefix, containment |
| RankingPoints.ResultIs | internal/candidatescoring/engine.go:127-227 | A result rests on what its five comparisons earn, each outcome with its own weight, reason and texts: components are those that score, evidence as many as the policy has room for, the score their total within the bounds, the band the one whose threshold it reaches |
| RankingPoints.ExactlyMarked | internal/candidatescoring/engine.go:127-227 | A candidate is marked exact on an identifier exactly if it shares one, and on the name exactly if two names are the same when normalized |
| RankingPoints.ReasonsAre | internal/candidatescoring/engine.go:127-227 | Routes, retrieval reasons and all reasons are exactly the codes of what was given and earned, in order and each once |
| RankingPoints.RankingNeeds | internal/candidatescoring/engine.go:229-258 | A request is ranked exactly if it has 1 to 1000 candidates with ids, none twice, under a complete lineage of the profile of the policy |
| CandidateRanking.Score | internal/candidatescoring/engine.go:47-89 | The whole ranking, or the refusal |
| CandidateRanking.ScoreCandidate | internal/candidatescoring/engine.go:127-227 | The whole result for one candidate |
| CandidateRanking.Tally.Add | internal/candidatescoring/engine.go:127-227 | One contribution extends components, evidence and reasons as the specification's lists |
| CandidateScoring.BestNameMatch | internal/candidatescoring/engine.go:336-381 | The best of all pairs of names under rank and then the names |
| CandidateScoring.BestNameForgets | internal/candidatescoring/engine.go:336-381 | The best match depends on the sets of names only |
| CandidateScoring.IdentifierMatch | internal/candidatescoring/engine.go:304-334 | The least shared identifier, if any |
| RankingPoints.IdentifiersAre | internal/candidatescoring/engine.go:304-334 | The least typed identifier both sides have, none exactly if they share none |
| CandidateScoring.BestIdentifierForgets | internal/candidatescoring/engine.go:304-334 | It depends on the sets of identifiers only |
| CandidateScoring.DateMatch | internal/candidatescoring/engine.go:383-412 | The date comparison, exact before year only |
| RankingPoints.DatesAre | internal/candidatescoring/engine.go:383-412 | A shared date, else one year, else a conflict of the first dates, each the first by text; nothing exactly if a side has none |
| RankingLaws.DatesForget | internal/candidatescoring/engine.go:383-412 | It depends on the sets of dates only |
| CandidateScoring.SetMatch | internal/candidatescoring/engine.go:414-430 | The country comparison |
| RankingPoints.CountriesAre | internal/candidatescoring/engine.go:414-430 | The first shared country, else a conflict of the first ones; nothing exactly if a side has none |
| RankingPoints.TypesAgree | internal/candidatescoring/normalize.go:39-52 | Entity types agree exactly if their words are the same or stand for one type |
| RankingLaws.CountriesForget | internal/candidatescoring/engine.go:414-430 | It depends on the sets of countries only |

## Left out

- Real I/O, fsync, temporary files, lock files and their polling, JSON encoding, HTTP, PostgreSQL and command lines: a file is a field, and one write or rename is one atomic step.
- SHA-256 and the 24- and 32-digit prefixes used as ids: injective constructors take their place, so collisions are not modelled.
- Registry checksums of the component and mapping registries: recomputed over the whole value on every write, they add a field that always agrees.
- RuntimeRegistry.Registry.Advance: 64-bit wrap-around of epochs and reader counts, nil generations and zero leases, copies of a `Lease` value, and waiting in `WaitDrained` are not modelled.
- RuntimeRuns.EpochsRiseByOne: epochs are unbounded, so a wrap-around at 2^64 activations is not modelled.
- PromotionHistory.HistorySound: a history runs Recover right after a crash, before any other call.
- PromotionManager.Manager.Prepare: schema versions, normalization of the allow list and digests of activation documents are not modelled; `scoringactivation` is a compare-and-set register.
- ActivationPromotion: routing of canary traffic, the shadow comparison that produces a summary, and the Status document.
- CaseStore.Store.CreateCase: existing alerts and their tenants are a parameter, since alert creation, batches and alert replay are not modelled; each call is atomic, so a crash between its files is not either.
- NameScore.ScoreName: the token lists are given, since folding, tokenizing, nicknames and suffixes are data; the search around the scoring is left out.
- CatalogRefresh.Diff: counts per modified field, report ids, and the policy that decides over a report are left out; checks of the manifest are one flag.
- RegistryStore.Store.Activate: concurrent processes are serialized by the lock; the method runs to its end, and RegistryCuts says what an interruption leaves of an activation only, not of a registration; field checks that concern one field alone are a flag on the record.
- MappingStore.Store.Register: concurrent processes are serialized by the lock; the method runs to its end, and MappingCuts says what an interruption leaves; text is taken to be valid UTF-8; the catalog checks inside ValidateVersion are made in a pass of their own, which changes no verdict, only which error comes first.
- IsoTree.ParseTree: the XML decoder's tokens are the input, nodes are positions in a list instead of pointers; profile detection, classification and evidence records are left out.
- CandidateText.Normalize: upper case and word characters are parameters with the laws they need, in place of the Unicode tables.
- CandidateRanking.Score: the request digest, decoding, batches and the policy's checksum are left out; the check for duplicate ids runs as a loop of its own before the scoring, which changes no result.
- RuntimeRegistry.Registry.Activate: the checks BuildActivation makes of a record's strings are two flags, passed or not; the record it returns is left out.
