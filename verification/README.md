# Coordination core of coordin8, in Dafny

This project models the coordination core of the Djinn and proves what its protocols keep:

- **Two-phase commit** (`Txn`, `TwoPhase`, `TwoPhaseRuns`): any number of `commit`, `abort`, lease-expiry and
  `enlist` calls race on one record through compare-and-set. Every store access, every message
  sent and every answer is a step of its own, and any call may stop for ever between two steps,
  which covers a client gone, a storage error (before or after its write) and a coordinator crash.
- **The tuple space** (`SpaceSpec`, `SpaceAtomicity`, `SpaceHistory`, `SpaceWait`): an abstract
  store that says where each live tuple is, with whole-history results about transactions,
  leases, takes and waiting. The in-memory provider (`SpaceRep`, `SpaceStoreLocal`) and the
  DynamoDB provider (`SpaceStoreDynamo`) are classes whose operations carry one and the same
  contract over that store; `SpaceManager` adds enlistment, lease cancels and broadcasts, and
  `SpaceStoreSteps` takes the DynamoDB operations apart into single table accesses.
- **Both together** (`GlobalAtomicity`): a transaction across any number of Spaces, with messages
  delivered late, repeatedly or never, and client operations landing at any time after enlistment.
- **Durable events** (`EventStore`, `EventDelivery`), **leases** (`LeasePolicy`, `Leases`,
  `Sweep`), the **Registry** (`Registry` with handlers that run alone, `RegistryRaces` with
  interleaved ones), and three small ones (`Matcher`, `PortAllocator`, `Cidr`).

Runs are sequences of states and steps; the run theorems quantify over all of them.

Assumptions, all visible in the `Enabled` predicates and preconditions:

- generated ids are fresh;
- the clock never runs backwards and stays before chrono's last instant;
- in `SpaceHistory` and `GlobalAtomicity` a `SpaceStore` method is one atomic step; `SpaceWait`
  splits a take into a scan and claims, `SpaceStoreSteps` every operation into table accesses;
- methods of the registry, event, lease and transaction stores are one atomic step each;
- a Space runs an operation under a transaction only after enlisting in it
  (`GlobalAtomicity.MayOperate`);
- times are whole seconds.

Where the code does not meet a promise, the model follows the code and gives the exact condition:

- A reclaimed lease removes its tuple for good only if the write had already stored it
  (`SpaceHistory.ReclaimFinalExactly`): the lease is granted before the insert.
- A take waiting under a transaction is not woken by that transaction's own write
  (`SpaceWait.ParkedMissesOnlyOwnWrites`, `OwnWriteIsMissed`).
- A waiting read may return a tuple that has been taken meanwhile (`SpaceWait.WokenReadExactly`,
  `ReadOfTheTaken`).
- An operation under a transaction that reaches the store after the Space's vote or outcome stays
  in a buffer nobody releases (`GlobalAtomicity.LeftHoldingExactly`, `TakeIsStranded`).
- A client woken from its wait spends the wakeup on an attempt even if the store fails then
  (`SpaceWait.LostWakeupExactly`).
- DynamoDB operations act on lists they queried earlier. Overlapping or repeated Commits, a reclaim
  during a Commit, and two takes of one own write can bring back or hand out twice a tuple that is
  gone. `SpaceStoreSteps.CleanExactly` says which steps do, `GoneForeverExactly` when a tuple is
  safe from it, and four runs show it. A take under a transaction that stops between its two
  writes loses the tuple (it is carried by a call that never stores it).
- Registry events can go out in another order than the writes they report, and a modification
  whose entry is gone still sends MODIFIED (`RegistryRaces.InStepExactly`, `ExpiredOvertaken`,
  `WritersSwapped`, `Registry.Registry.WriteBack`).
- The TTL cap does not bind a preferred TTL above it, and a cap spelled as the FOREVER number
  still lets unrepresentable TTLs through (`LeasePolicy.CapBindsExactly`, `NeverOverflowsExactly`).

`dafny verify dfyconfig.toml` checks the whole project.

## Model

| member | source | states |
|---|---|---|
| `Txn.VoteFromWire` | djinn/crates/coordin8-txn/src/manager.rs:461-471 | 0 and only 0 is PREPARED, 1 and only 1 is NOTCHANGED; every other i32 is a no |
| `Txn.TxnStore.Create` | djinn/providers/local/src/txn_store.rs:26-29 | the record is stored and no other record changes |
| `Txn.TxnStore.UpdateStateIf` | djinn/providers/local/src/txn_store.rs:45-62 | compare-and-set on one record, with its three answers, and no other record touched |
| `Txn.TxnStore.AddParticipant` | djinn/providers/local/src/txn_store.rs:64-79 | appends only while Active; refusals change nothing |
| `Txn.Tally` | djinn/crates/coordin8-txn/src/manager.rs:242-258 | the loop with its early exit: no refusal exactly when every ballot is yes, the first refusal otherwise, and the PREPARED endpoints in order |
| `Txn.PreparedEndpointsExact` | djinn/crates/coordin8-txn/src/manager.rs:245-248 | an endpoint is in the commit round exactly when one of its ballots was PREPARED |
| `TwoPhase.NextKeepsInv` | djinn/crates/coordin8-txn/src/manager.rs:112-338 | every step of every call, with any votes, failures and stops, keeps the protocol invariant |
| `TwoPhase.HeldByOne` | djinn/crates/coordin8-txn/src/manager.rs:159-175 | at most one call at a time has claimed the transaction, and nobody has while it is Active |
| `TwoPhase.Agreement` | djinn/crates/coordin8-txn/src/manager.rs:112-311 | in every run, never both an Abort and a Commit or PrepareAndCommit, to anyone |
| `TwoPhase.StoredOutcomeIsTrue` | djinn/crates/coordin8-txn/src/manager.rs:158-311 | stored Committed: whole final list voted yes, PREPARED voters were told, no Abort sent; stored Aborted: no Commit sent |
| `TwoPhase.OneVoterOneReleaser` | djinn/crates/coordin8-txn/src/manager.rs:439-458 | all messages of a transaction come from one call, so one vote and one abort round at most |
| `TwoPhase.NoEnlistmentLost` | djinn/crates/coordin8-txn/src/manager.rs:89-91 | a participant whose enlist ever returned Ok is in the exact list every later commit and abort works on |
| `TwoPhase.UnexpectedStateUnreachable` | djinn/crates/coordin8-txn/src/manager.rs:313-338 | the invariant-violation branch of `transition` is dead in every interleaving |
| `TwoPhase.ReportsAgree` | djinn/crates/coordin8-txn/src/manager.rs:138-170 | no two callers are ever told opposite outcomes, now or later |
| `TwoPhase.NeverBackwards` | djinn/crates/coordin8-txn/src/manager.rs:158-311 | states only advance, terminal records never change, the list is frozen once not Active and only grows before |
| `TwoPhase.BallotOrigin` | djinn/crates/coordin8-txn/src/manager.rs:240-258 | a ballot on record is a participant's answer to a vote request of the owning commit |
| `TwoPhase.AbortNeedsRefusal` | djinn/crates/coordin8-txn/src/manager.rs:242-267 | a commit that ends in a stored Aborted has a recorded vote that is no yes |
| `TwoPhase.CommitResultExactly` | djinn/crates/coordin8-txn/src/manager.rs:158-311 | the call that ran the vote reports CommitOk if and only if everybody said yes, ErrOutcomeUnknown if and only if the sole participant could not be reached, ErrAborted if and only if somebody refused otherwise, nothing else ever, and the stored state agrees |
| `TwoPhase.CommitOnlyToPrepared` | djinn/crates/coordin8-txn/src/manager.rs:269-283 | Commit goes to PREPARED voters only |
| `TwoPhase.AbortTellsEveryone` | djinn/crates/coordin8-txn/src/manager.rs:439-458 | a returned call that decided an abort sent one to every participant, except after the sole participant's own no |
| `TwoPhase.ClaimExactly` | djinn/crates/coordin8-txn/src/manager.rs:112-170 | a claim succeeds exactly on an Active transaction; otherwise the record stays and the caller is sent to read it, or told there is none |
| `TwoPhase.LostCallsReport` | djinn/crates/coordin8-txn/src/manager.rs:138-170 | a call that lost its claim reports the stored state; an enlist is accepted exactly while Active |
| `TwoPhase.StopForgets` | djinn/crates/coordin8-txn/src/manager.rs:112-311 | a call may stop anywhere; what it has done stays |
| `TwoPhaseRuns.CommitCanEnd` | djinn/crates/coordin8-txn/src/manager.rs:158-311 | for every participant list (none, one, many) and every way they answer there is a run in which the commit ends with exactly the result and stored state the answers call for; all yes ends in Committed and CommitOk |
| `TwoPhaseRuns.AbortCanEnd` | djinn/crates/coordin8-txn/src/manager.rs:112-156 | the same for an abort on request and on lease expiry |
| `GlobalAtomicity.NoSplitOutcome` | djinn/crates/coordin8-space/src/participant.rs:64-86 | coordinator and Spaces together: no Space publishes while any Space undoes |
| `GlobalAtomicity.AbortedEverywhere` | djinn/crates/coordin8-txn/src/manager.rs:112-156 | stored Aborted: no Space ever published, and each Space, once it releases what it holds, equals the run without the transaction; after a finished abort round every Space still holding was sent Abort |
| `GlobalAtomicity.CommittedEverywhere` | djinn/crates/coordin8-txn/src/manager.rs:269-304 | stored Committed: no Space ever undid, and a Space still holding anything has been told to commit, or holds what landed after its NOTCHANGED vote |
| `GlobalAtomicity.PublishedInOneInstant` | djinn/crates/coordin8-space/src/manager.rs:312-336 | where a Space published, all its takes and writes took effect at one point of its schedule; it holds something of the transaction afterwards if and only if an operation landed late |
| `GlobalAtomicity.DeliveryTakesEffect` | djinn/crates/coordin8-space/src/participant.rs:43-108 | a delivered Commit makes t's writes public and its takes final, an Abort the other way round, nothing of t is left and nothing else touched; a vote request changes nothing and is answered by whether the Space holds anything |
| `GlobalAtomicity.NextKeepsInv` | djinn/crates/coordin8-space/src/participant.rs:43-108 | every coordinator step, client operation (however late) and (repeated, delayed) delivery keeps the joint invariant |
| `GlobalAtomicity.LeftHoldingExactly` | djinn/crates/coordin8-space/src/manager.rs:132-133 | after its outcome or NOTCHANGED vote a Space is left holding something if and only if an operation of the transaction landed later and was not released since |
| `GlobalAtomicity.TakeIsStranded` | djinn/crates/coordin8-space/src/manager.rs:223-234 | and such a run exists: enlisted, lease expired, Abort delivered, then the take reaches the store |
| `SpaceSpec.NewlyVisibleIsPublished` | djinn/crates/coordin8-space/src/manager.rs:324-353 | whatever becomes visible is among the tuples the manager broadcasts |
| `SpaceSpec.ConsumedIsGone` | djinn/crates/coordin8-space/src/manager.rs:319-348 | whatever has its lease cancelled was live and is gone |
| `SpaceSpec.GoneIsConsumed` | djinn/crates/coordin8-space/src/manager.rs:233-240 | whatever a step other than a reclaim makes disappear has its lease cancelled |
| `SpaceSpec.PublishedIsVisible` | djinn/crates/coordin8-space/src/manager.rs:324-353 | whatever is broadcast became visible just then |
| `SpaceSpec.VisibleAfter` | djinn/providers/local/src/space_store.rs:45-97 | a tuple is visible after a step exactly if the step published it, or it was visible and not removed |
| `SpaceSpec.Scan` | djinn/providers/local/src/space_store.rs:106-111 | finds a match in a table, in any order, exactly when there is one |
| `SpaceSpec.NothingHeldNothingToDo` | djinn/crates/coordin8-space/src/participant.rs:49-59 | a NOTCHANGED voter has nothing to publish, restore, cancel or broadcast |
| `SpaceSpec.ShortcutIsPrepareThenCommit` | djinn/crates/coordin8-space/src/participant.rs:88-108 | PrepareAndCommit has the vote and the effect of Prepare then Commit |
| `SpaceSpec.DuplicateOutcomeIsNoop` | djinn/providers/local/src/space_store.rs:215-282 | after an outcome, any further Commit or Abort changes, cancels and broadcasts nothing |
| `SpaceAtomicity.OwnStepKeepsView` | djinn/providers/local/src/space_store.rs:127-184 | nothing t does short of committing changes committed-plus-taken-by-t |
| `SpaceAtomicity.AbortRestoresView` | djinn/providers/local/src/space_store.rs:252-282 | abort makes the committed map equal that view and leaves every other transaction's buffers |
| `SpaceAtomicity.AbortCommutesWithOthers` | djinn/providers/local/src/space_store.rs:252-282 | aborting t commutes with every step that is not t's |
| `SpaceAtomicity.AbortedLeavesNoTrace` | djinn/providers/local/src/space_store.rs:252-282 | over any interleaving, the store after an abort is the store of the same schedule without t |
| `SpaceAtomicity.CommittedIsOneInstant` | djinn/providers/local/src/space_store.rs:215-250 | a commit installs its surviving takes and writes at once on what the others built; before it, the others see that store minus the takes |
| `SpaceAtomicity.HeldExactly` | djinn/providers/local/src/space_store.rs:53-184 | over any schedule a transaction holds exactly what its steps put into its buffers and no outcome or reclaim has released since |
| `SpaceHistory.NextKeepsInv` | djinn/crates/coordin8-space/src/manager.rs:107-143 | freshness, lease bindings, cancels and announcements stay consistent in every history |
| `SpaceHistory.GoneStaysGone` | djinn/providers/local/src/space_store.rs:78-97 | a tuple id or lease that is gone never comes back |
| `SpaceHistory.CancelsComeBackEmpty` | djinn/crates/coordin8-djinn/src/services.rs:862-878 | a lease cancelled by take, cancel, commit or abort comes back through the cascade as a no-op, however late |
| `SpaceHistory.ExpiryAnnouncedOnce` | djinn/crates/coordin8-space/src/manager.rs:407-413 | no tuple is announced expired twice, and none whose lease was cancelled |
| `SpaceHistory.LeasesAccountedFor` | djinn/crates/coordin8-space/src/manager.rs:407-434 | in every history a lease that was bound and backs nothing any more had its cancel sent or its tuple announced as expired, and not both |
| `SpaceHistory.GrantsAreKept` | djinn/crates/coordin8-space/src/manager.rs:116-118 | a lease is granted once and binds to one tuple |
| `SpaceHistory.ReclaimIsFinal` | djinn/providers/local/src/space_store.rs:78-97 | after the lease of a stored tuple is reclaimed no commit publishes it and no abort restores it |
| `SpaceHistory.ReclaimOvertakesWrite` | djinn/crates/coordin8-space/src/manager.rs:116-140 | the failing case: a reclaim between grant and insert finds nothing and the tuple then appears |
| `SpaceHistory.ReclaimFinalExactly` | djinn/crates/coordin8-space/src/manager.rs:116-140 | a reclaim is final if and only if the write had stored its tuple when it ran |
| `SpaceHistory.ExclusiveTake` | djinn/providers/local/src/space_store.rs:149-183 | a tuple handed out twice went first to a transaction that aborted in between |
| `SpaceHistory.Isolation` | djinn/providers/local/src/space_store.rs:99-213 | until t commits nobody else sees or is handed what it wrote |
| `SpaceRep.CommitFacts` | djinn/providers/local/src/space_store.rs:215-250 | all a commit does to the six maps represents the abstract commit; flushed and taken lists are exactly the published and consumed tuples |
| `SpaceRep.AbortFacts` | djinn/providers/local/src/space_store.rs:252-282 | the same for abort |
| `SpaceRep.ReclaimRepr` | djinn/providers/local/src/space_store.rs:85-95 | pulling a reclaimed tuple out of any of the three buffers keeps buffers and indexes exact |
| `SpaceStoreLocal.SpaceStore.Insert` | djinn/providers/local/src/space_store.rs:45-51 | the new tuple is public; partition and both lease indexes stay exact |
| `SpaceStoreLocal.SpaceStore.InsertUncommitted` | djinn/providers/local/src/space_store.rs:53-63 | the new tuple is in t's write buffer only |
| `SpaceStoreLocal.SpaceStore.Remove` | djinn/providers/local/src/space_store.rs:69-76 | removes and returns a visible tuple, else nothing |
| `SpaceStoreLocal.SpaceStore.RemoveByLease` | djinn/providers/local/src/space_store.rs:78-97 | removes the tuple a lease backs from wherever it is, and answers None exactly when it backs nothing |
| `SpaceStoreLocal.SpaceStore.FindMatch` | djinn/providers/local/src/space_store.rs:99-125 | a visible match if there is one, committed ones first |
| `SpaceStoreLocal.SpaceStore.Claim` | djinn/providers/local/src/space_store.rs:159-177 | the remove step of a racing take |
| `SpaceStoreLocal.SpaceStore.TakeOwnMatch` | djinn/providers/local/src/space_store.rs:134-147 | takes one of t's own buffered writes into the self-taken buffer, if one matches |
| `SpaceStoreLocal.SpaceStore.TakeMatch` | djinn/providers/local/src/space_store.rs:127-184 | takes a visible match if there is one, own writes first, by exactly the matching abstract step |
| `SpaceStoreLocal.SpaceStore.HasTxn` | djinn/providers/local/src/space_store.rs:284-295 | true exactly when some buffer of t is non-empty |
| `SpaceStoreLocal.SpaceStore.CommitTxn` | djinn/providers/local/src/space_store.rs:215-250 | equals the abstract commit; returns exactly the published and the consumed tuples |
| `SpaceStoreLocal.SpaceStore.AbortTxn` | djinn/providers/local/src/space_store.rs:252-282 | equals the abstract abort; returns exactly the discarded and the restored tuples |
| `SpaceStoreDynamo.SpaceStore.Insert` | djinn/providers/dynamo/src/space_store.rs:398-408 | same contract as the in-memory store |
| `SpaceStoreDynamo.SpaceStore.InsertUncommitted` | djinn/providers/dynamo/src/space_store.rs:410-422 | same contract as the in-memory store |
| `SpaceStoreDynamo.SpaceStore.Remove` | djinn/providers/dynamo/src/space_store.rs:440-455 | same contract as the in-memory store |
| `SpaceStoreDynamo.SpaceStore.RemoveByLease` | djinn/providers/dynamo/src/space_store.rs:457-486 | same contract as the in-memory store, by index query and buffer scans |
| `SpaceStoreDynamo.SpaceStore.FindMatch` | djinn/providers/dynamo/src/space_store.rs:488-517 | same contract as the in-memory store |
| `SpaceStoreDynamo.SpaceStore.Claim` | djinn/providers/dynamo/src/space_store.rs:562-600 | same contract as the in-memory store, by conditional delete |
| `SpaceStoreDynamo.SpaceStore.TakeMatch` | djinn/providers/dynamo/src/space_store.rs:519-616 | same contract as the in-memory store, own takes flagged `own_write` |
| `SpaceStoreDynamo.SpaceStore.HasTxn` | djinn/providers/dynamo/src/space_store.rs:754-765 | same contract as the in-memory store |
| `SpaceStoreDynamo.SpaceStore.PublishWrites` | djinn/providers/dynamo/src/space_store.rs:654-676 | item by item, the tables represent a half-committed store at every turn, and in the end every write is public |
| `SpaceStoreDynamo.SpaceStore.DeleteTakes` | djinn/providers/dynamo/src/space_store.rs:678-695 | item by item, every taken item of t goes, each handed back once |
| `SpaceStoreDynamo.SpaceStore.DeleteWrites` | djinn/providers/dynamo/src/space_store.rs:701-721 | item by item, every write of t goes, each handed back once |
| `SpaceStoreDynamo.SpaceStore.RestoreTakes` | djinn/providers/dynamo/src/space_store.rs:723-749 | the flag alone decides: own writes are discarded, committed tuples restored |
| `SpaceStoreDynamo.SpaceStore.CommitTxn` | djinn/providers/dynamo/src/space_store.rs:650-698 | same contract as the in-memory store |
| `SpaceStoreDynamo.SpaceStore.AbortTxn` | djinn/providers/dynamo/src/space_store.rs:700-752 | same contract as the in-memory store |
| `SpaceStoreDynamo.CommitInTwo` | djinn/providers/dynamo/src/space_store.rs:650-698 | the two table loops compose to the abstract commit |
| `SpaceStoreDynamo.AbortInTwo` | djinn/providers/dynamo/src/space_store.rs:700-752 | the two table loops compose to the abstract abort |
| `SpaceStoreDynamo.MidPublish` | djinn/providers/dynamo/src/space_store.rs:661-676 | between put and delete of a commit the tables represent a store but for that one row, and with it no store |
| `SpaceStoreDynamo.MidRestore` | djinn/providers/dynamo/src/space_store.rs:735-749 | the same between put and delete of an abort's restore |
| `SpaceStoreSteps.CleanRunRepresents` | djinn/providers/dynamo/src/space_store.rs:519-752 | one table access at a time, each call working from the list it queried, with overlaps, stops and repeats: the tables without leftover rows represent a store as long as every step is clean (a listed row is put only while it is current or its tuple visible, an own write is taken only while it is current) |
| `SpaceStoreSteps.CleanExactly` | djinn/providers/dynamo/src/space_store.rs:526-752 | a step is clean if and only if the tables go on representing a store and nothing that was gone is back |
| `SpaceStoreSteps.EraseErases` | djinn/providers/dynamo/src/space_store.rs:665-752 | a delete takes its row out of the table its call works on, and nothing else |
| `SpaceStoreSteps.GoneForeverExactly` | djinn/providers/dynamo/src/space_store.rs:526-752 | a tuple is never handed out again in any continuation if and only if it is in no visible row, no buffered write or restorable take, and no call's list of rows to put or to take, nor carried by one |
| `SpaceStoreSteps.ExclusiveHandOut` | djinn/providers/dynamo/src/space_store.rs:526-600 | in clean runs a tuple handed out twice was first taken under a transaction whose abort restored it in between |
| `SpaceStoreSteps.RepeatedCommitHandsOutTwice` | djinn/providers/dynamo/src/space_store.rs:654-676 | a Commit stops after a put, the tuple is taken, the Commit runs again, the tuple is taken again, and nobody aborted |
| `SpaceStoreSteps.OverlappingOwnTakes` | djinn/providers/dynamo/src/space_store.rs:526-558 | two takes under one transaction list the same own write, and both get it |
| `SpaceStoreSteps.OverlappingCommits` | djinn/providers/dynamo/src/space_store.rs:654-676 | two Commits list the same write; after the first and a take under another transaction, the second leaves tables that represent no store |
| `SpaceStoreSteps.ReclaimedThenPublished` | djinn/providers/dynamo/src/space_store.rs:654-676 | a Commit publishes a write whose lease was reclaimed after the Commit listed it |
| `SpaceManager.SpaceManager.EnsureEnlisted` | djinn/crates/coordin8-space/src/manager.rs:81-98 | asks the coordinator at most until it accepts; Ok exactly if enlisted before, accepted now, or no coordinator is configured |
| `SpaceManager.SpaceManager.Write` | djinn/crates/coordin8-space/src/manager.rs:107-143 | a plain write is broadcast at once, a transactional one not at all and only once enlisted; a refused enlistment stores nothing |
| `SpaceManager.SpaceManager.TryTake` | djinn/crates/coordin8-space/src/manager.rs:223-245 | enlists first; a plain take cancels the lease at once, a transactional one defers it |
| `SpaceManager.SpaceManager.CancelTuple` | djinn/crates/coordin8-space/src/manager.rs:422-434 | removes a visible tuple and cancels its lease, else reports it missing |
| `SpaceManager.SpaceManager.CommitSpaceTxn` | djinn/crates/coordin8-space/src/manager.rs:312-336 | exactly the consumed leases are cancelled and exactly the published tuples broadcast, once each; the Space still holds only for transactions it is enlisted in |
| `SpaceManager.SpaceManager.AbortSpaceTxn` | djinn/crates/coordin8-space/src/manager.rs:338-362 | exactly the discarded leases are cancelled and exactly the restored tuples broadcast, once each; the Space still holds only for transactions it is enlisted in |
| `SpaceManager.SpaceManager.OnTupleExpired` | djinn/crates/coordin8-space/src/manager.rs:407-413 | announces the removed tuple, if the lease backed one |
| `SpaceManager.SpaceManager.Prepare` | djinn/crates/coordin8-space/src/participant.rs:43-62 | PREPARED exactly when the Space holds something of t |
| `SpaceManager.SpaceManager.PrepareAndCommit` | djinn/crates/coordin8-space/src/participant.rs:88-108 | vote, store, cancels and broadcasts as Prepare then Commit |
| `Broadcast.ArriveSignals` | djinn/crates/coordin8-space/src/manager.rs:274-284 | on a bounded channel a message is queued or covered by a lag notice, and no earlier signal is lost |
| `Broadcast.ArriveExactly` | djinn/crates/coordin8-space/src/manager.rs:274-284 | only a full receiver loses anything, then only its oldest messages, and is told |
| `SpaceWait.NoLostWakeup` | djinn/crates/coordin8-space/src/manager.rs:228-288 | a parked take or read with nothing to receive, whose last attempt met no storage error, has no committed match, save tuples whose broadcast is still owed, however stale the scan it worked from |
| `SpaceWait.ParkedMissesOnlyOwnWrites` | djinn/crates/coordin8-space/src/manager.rs:254-288 | with all broadcasts out and no storage error in its last attempt, what a parked client can see and has missed is exactly its own transaction's writes |
| `SpaceWait.OwnWriteIsMissed` | djinn/crates/coordin8-space/src/manager.rs:130-134 | and such a miss occurs |
| `SpaceWait.FaultLosesWakeup` | djinn/crates/coordin8-space/src/manager.rs:261-279 | a storage error in a woken attempt spends the wakeup: the take waits again, its tuple visible and announced |
| `SpaceWait.LostWakeupExactly` | djinn/crates/coordin8-space/src/manager.rs:261-288 | for any template and matching tuple, a parked client can miss it, visible and announced, if and only if its last attempt ended in a storage error |
| `SpaceWait.VisibleExactly` | djinn/crates/coordin8-space/src/manager.rs:107-143 | in every run a tuple is visible if and only if it was published and not removed since |
| `SpaceWait.WokenReadExactly` | djinn/crates/coordin8-space/src/manager.rs:176-182 | a read that wakes on a message returns a tuple that was published, still visible if and only if nobody removed it since it last was |
| `SpaceWait.TakeGetsIt` | djinn/crates/coordin8-space/src/manager.rs:228-245 | a take that claims a tuple it saw, while it is there, has it, and the store does not show it any more |
| `SpaceWait.ReadGetsIt` | djinn/crates/coordin8-space/src/manager.rs:160-170 | a read that finds a tuple returns it and leaves the store alone |
| `SpaceWait.ReadOfTheTaken` | djinn/crates/coordin8-space/src/manager.rs:176-182 | and it need not be: a read returns a tuple taken meanwhile |
| `EventStore.NextAbove` | djinn/providers/local/src/event_store.rs:99-104 | the least key above a cursor, if any |
| `EventStore.Peek` | djinn/providers/local/src/event_store.rs:92-110 | a page: ascending, none skipped, cut short only by the limit |
| `EventStore.EventStore.CreateSubscription` | djinn/providers/local/src/event_store.rs:38-43 | subscription and empty mailbox together |
| `EventStore.EventStore.RemoveByLease` | djinn/providers/local/src/event_store.rs:58-73 | drops the subscription a lease backs with its mailbox, or nothing |
| `EventStore.EventStore.Enqueue` | djinn/providers/local/src/event_store.rs:79-90 | the next number, never one in use |
| `EventStore.EventStore.Emit` | djinn/crates/coordin8-event/src/manager.rs:140-168 | every wanting durable subscription gets the event once under its own next number, except where storage fails, which is reported and stops nobody else; no other mailbox changes |
| `EventStore.WantsExactly` | djinn/crates/coordin8-event/src/manager.rs:140-150 | a subscription wants an event if and only if it is durable, of its source, and each template value is satisfied by the attributes with the event type |
| `EventStore.DeliveredExactly` | djinn/crates/coordin8-event/src/manager.rs:138-168 | what an emit does, mailbox by mailbox, without naming how |
| `EventDelivery.NextKeepsInv` | djinn/crates/coordin8-event/src/service.rs:163-237 | every emit, read, send, pull, ack, wake, disconnect and removal keeps the delivery invariant |
| `EventDelivery.AtLeastOnce` | djinn/crates/coordin8-event/src/service.rs:158-210 | each number ever given out is still in the mailbox with its event, or that event was pulled off a stream |
| `EventDelivery.NumbersIdentifyEvents` | djinn/providers/local/src/event_store.rs:79-90 | numbers are never reused: one number is one event on all streams for ever |
| `EventDelivery.InOrder` | djinn/crates/coordin8-event/src/service.rs:176-210 | when a stream sends n, every smaller number was already pulled off some stream |
| `EventDelivery.SendsAscend` | djinn/crates/coordin8-event/src/service.rs:163-210 | the numbers one stream sends are strictly ascending |
| `EventDelivery.AckedIsGone` | djinn/crates/coordin8-event/src/service.rs:192-197 | an acknowledged number is out of the mailbox for good, no page read later on any stream holds it, and the cursor is past it |
| `EventDelivery.LeavesOnlyAcked` | djinn/crates/coordin8-event/src/service.rs:176-210 | a number leaves the mailbox only by an ack after its pull, or with the subscription |
| `EventDelivery.ReopenedReadsFromTheStart` | djinn/crates/coordin8-event/src/service.rs:163-175 | a new stream's first page is the head of the mailbox, so everything unacknowledged comes again |
| `EventDelivery.StreamGoesOn` | djinn/crates/coordin8-event/src/service.rs:192-235 | an ack goes on with the rest of the page; a parked receiver reads again on a broadcast of its source or a lag, and on nothing else |
| `EventDelivery.DropLosesNothing` | djinn/crates/coordin8-event/src/service.rs:163-210 | a stream that drops takes nothing out of the mailbox |
| `EventDelivery.RemovedIsFinal` | djinn/providers/local/src/event_store.rs:58-73 | a removed subscription has no mailbox any more, for good |
| `EventDelivery.NoLostWakeup` | djinn/crates/coordin8-event/src/service.rs:212-235 | a parked receiver with nothing to receive has an empty mailbox, save entries whose emit has not broadcast |
| `LeasePolicy.NegotiationIsSafe` | djinn/crates/coordin8-core/src/lease.rs:110-124 | well-formed policy: within the cap, expiry computable, FOREVER exactly when uncapped and asked for more than 100 years |
| `LeasePolicy.GrantedAsAsked` | djinn/crates/coordin8-core/src/lease.rs:110-124 | a finite request within the cap (100 years without one) is granted as asked, a longer one gets the cap (FOREVER without one), ANY the preferred TTL |
| `LeasePolicy.ExpiryExactly` | djinn/providers/local/src/lease_store.rs:8-15 | the expiry is the last instant for FOREVER and now plus TTL otherwise, and exists exactly if representable |
| `LeasePolicy.MaxUtcIsLastSecond` | djinn/providers/local/src/lease_store.rs:8-15 | the last instant is the last second of the year 262142 |
| `LeasePolicy.CapBindsExactly` | djinn/crates/coordin8-core/src/lease.rs:110-124 | the cap binds every request if and only if the preferred TTL is within it |
| `LeasePolicy.NeverOverflowsExactly` | djinn/providers/local/src/lease_store.rs:8-15 | no request can overflow if and only if preferred TTL and cap themselves have an expiry |
| `Leases.LeaseStore.Create` | djinn/providers/local/src/lease_store.rs:38-50 | stores the lease, or refuses an unrepresentable expiry and stores nothing |
| `Leases.LeaseStore.Renew` | djinn/providers/local/src/lease_store.rs:52-61 | rewrites an existing lease only, due now plus TTL, same resource and grant time; never re-creates one |
| `Leases.RenewalExtends` | djinn/providers/local/src/lease_store.rs:52-61 | a renewal succeeds exactly on a stored lease with a representable due time; it runs from now for the new TTL, keeps resource and grant time, and touches no other lease |
| `Leases.LeaseStore.ListExpired` | djinn/providers/local/src/lease_store.rs:80-87 | exactly the expired leases, each once |
| `Leases.LeaseStore.RemoveIfUnchanged` | djinn/providers/local/src/lease_store.rs:89-96 | removes exactly when the stored expiry is the one seen |
| `Leases.LeaseStore.DrainExpired` | djinn/crates/coordin8-lease/src/manager.rs:44-56 | an undisturbed pass removes exactly the expired leases and returns exactly those |
| `Leases.NeverReapedEarly` | djinn/crates/coordin8-lease/src/manager.rs:82-105 | with renewals in between listing and removing, a reap finds the lease expired by the record stored at that moment; FOREVER never, no lease twice |
| `Leases.RenewalSurvivesListing` | djinn/providers/local/src/lease_store.rs:89-96 | a lease that is not expired when collected is left alone |
| `Leases.ReapedOnce` | djinn/crates/coordin8-lease/src/manager.rs:47-56 | over a run each lease is reaped at most once, at or after its expiry |
| `Leases.KeepsItsTerm` | djinn/crates/coordin8-lease/src/manager.rs:47-105 | a lease written for a TTL is not reaped before that time is up, unless a later renewal wrote an earlier due time |
| `Leases.ListedWhenDue` | djinn/providers/local/src/lease_store.rs:80-87 | and from that very time on it is listed as expired, never before |
| `Leases.EndsExactly` | djinn/providers/local/src/lease_store.rs:89-96 | a stored lease goes exactly by a cancel or by the reaper finding the expiry it listed, and a reaped one is reported |
| `Leases.EndedStaysEnded` | djinn/providers/local/src/lease_store.rs:52-61 | and never comes back |
| `Leases.ExpiredIsNotRenewed` | djinn/crates/coordin8-lease/src/manager.rs:82-105 | an expired lease that no renewal had checked before is never extended |
| `Leases.ClockAndRenewals` | djinn/crates/coordin8-lease/src/manager.rs:82-105 | a renewal writes once |
| `Sweep.OrphanTracker.Pass` | djinn/crates/coordin8-djinn/src/sweep.rs:62-71 | reports the leaseless that were suspects; the other leaseless become the suspects |
| `Sweep.Leaseless` | djinn/crates/coordin8-djinn/src/sweep.rs:89-94 | exactly the listed resources whose lookup says absent; an error counts as present |
| `Sweep.SuspectIffOddStreak` | djinn/crates/coordin8-djinn/src/sweep.rs:62-71 | a suspect is a resource with an odd run of leaseless passes |
| `Sweep.ReportedIffEvenStreak` | djinn/crates/coordin8-djinn/src/sweep.rs:62-71 | reported exactly when the run of leaseless passes ending now is positive and even |
| `Sweep.LeaseOnEitherPassProtects` | djinn/crates/coordin8-djinn/src/sweep.rs:17-21 | a lease seen on either of the last two passes protects |
| `Sweep.Run` | djinn/crates/coordin8-djinn/src/sweep.rs:115-130 | the tracker run over any history reports exactly the closed form |
| `Registry.EditAttrs` | djinn/crates/coordin8-registry/src/service.rs:265-272 | removes then adds; an add wins |
| `Registry.Registry.Insert` | djinn/providers/local/src/registry_store.rs:30-35 | entry and index entry together; for fresh ids the index stays the exact inverse |
| `Registry.Registry.Update` | djinn/providers/local/src/registry_store.rs:37-51 | rewrites an existing entry and keeps the index its exact inverse |
| `Registry.Registry.RemoveByLease` | djinn/providers/local/src/registry_store.rs:53-58 | removes what the lease backs and keeps the index exact |
| `Registry.Registry.RegisterNew` | djinn/crates/coordin8-registry/src/service.rs:194-245 | REGISTERED; a watcher replaying the events has the entries |
| `Registry.Registry.Reregister` | djinn/crates/coordin8-registry/src/service.rs:133-193 | errors in order; refused without the entry's current lease id; silent when nothing but the lease changed, MODIFIED otherwise; replay stays exact |
| `Registry.Registry.ModifyAttrs` | djinn/crates/coordin8-registry/src/service.rs:248-292 | errors in order; refused without the entry's current lease id; MODIFIED with the edited attributes; replay stays exact |
| `Registry.Registry.WriteBack` | djinn/crates/coordin8-registry/src/service.rs:276-289 | write and event as one step: replay stays exact if and only if the entry still exists, because the event goes out regardless |
| `Registry.Registry.OnLeaseReclaimed` | djinn/crates/coordin8-djinn/src/services.rs:729-746 | removes exactly what the lease backs, sends EXPIRED for it once or nothing, replay stays exact |
| `RegistryRaces.NextKeepsInv` | djinn/crates/coordin8-registry/src/service.rs:133-292 | store writes, event sends and stops in any order: the store holds what the last write to each capability left |
| `RegistryRaces.StopForgets` | djinn/crates/coordin8-registry/src/service.rs:276-289 | a call that stops between write and send never sends; the store keeps its write |
| `RegistryRaces.InStepExactly` | djinn/crates/coordin8-registry/src/service.rs:276-289 | at every moment of every run a watcher is in step on a capability if and only if the last event sent about it says what the last store write left; on a reclaimed one, if and only if that event is EXPIRED or nothing about it was sent yet |
| `RegistryRaces.OrderlyStaysInStep` | djinn/crates/coordin8-registry/src/service.rs:171-185 | if each event about a capability is sent before its next write, none is lost and no write-back finds it gone, a watcher is in step whenever no event about it is owed |
| `RegistryRaces.OverIsForEver` | djinn/crates/coordin8-registry/src/service.rs:276-289 | once a capability is gone and no call has it in hand, a watcher out of step on it stays so |
| `RegistryRaces.ExpiredOvertaken` | djinn/crates/coordin8-djinn/src/services.rs:733-744 | a run in which EXPIRED goes out before the MODIFIED of an earlier write |
| `RegistryRaces.WritersSwapped` | djinn/crates/coordin8-registry/src/service.rs:276-289 | a run in which two modifications send in the opposite order of their writes |
| `Matcher.MatchesExactly` | djinn/crates/coordin8-registry/src/matcher.rs:12-56 | attributes match if and only if each template value is empty or a star, or the attribute is there and contains what follows contains:, starts with what follows starts_with:, or equals a plain value |
| `Matcher.PinnableIffPlain` | djinn/crates/coordin8-registry/src/matcher.rs:23-46 | a template can demand exactly the value v if and only if v does not itself read as an operator |
| `PortAllocator.RoundIsPermutation` | djinn/crates/coordin8-proxy/src/manager.rs:111-119 | a round goes up from its start, wraps at the top, and visits each port of the range once |
| `PortAllocator.PortAllocator.Bind` | djinn/crates/coordin8-proxy/src/manager.rs:108-127 | the first usable port of the round; exhaustion exactly when none is usable; counter in range afterwards, also at 65535, and after a fruitless round back where it was |
| `Cidr.ContainsIffPrefix` | djinn/crates/coordin8-txn/src/allowlist.rs:168-185 | same family and first `len` bits agree, for 32 and 128 bits and every length from 0 |

## Left out

- SpaceStoreLocal.SpaceStore.TakeMatch: alone in the store no claim can fail, so the retry after losing a race does not arise; it is the `Claim` and `Retry` steps of `SpaceWait`.
- SpaceStoreDynamo.SpaceStore.TakeMatch: the same for the next candidate after a failed conditional delete and for two takes of one own write; in `SpaceStoreSteps` a take is a list and two writes.
- SpaceStoreDynamo.SpaceStore.CommitTxn: a call that runs to its end alone; stops, repeats and overlaps are `SpaceStoreSteps`.
- SpaceStoreDynamo.SpaceStore.AbortTxn: a call that runs to its end alone; stops, repeats and overlaps are `SpaceStoreSteps`.
- SpaceManager.SpaceManager.Write: a refused enlistment leaves the granted lease to expire; the lease manager is not part of this class.
- Watches and notifications of the Space, `contents`, best-effort event streams: plain filters over the same matching.
- Finishing a commit whose Commit call failed: the source defers it; safety is proved, not eventual commit.
- Reclaim events exactly once: cancel reads and then removes unconditionally, so it can broadcast twice; the cascade is proved a no-op the second time instead.
- Two racing `bind_listener` calls, which can try a port twice.
- Registry lookups and watches, host patterns other than CIDR, endpoint parsing.
- gRPC, channels, tokens, tracing, metrics, boot and shutdown, the SDKs, the CLI, the DynamoDB request building and its other stores.
