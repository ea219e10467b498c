# Verified model of the TRON-to-EVM adapter

The adapter lets Ethereum tooling deploy and upgrade contracts on TRON. Tooling speaks of *predicted*
addresses, computed from sender and nonce as on Ethereum; TRON creates contracts at *actual* ones. The
adapter keeps the table between the two worlds, a durable journal of every transaction it was asked to
send, the nonces its contracts' child CREATEs will use, and it is meant never to send two native
transactions for one Ethereum nonce. These Dafny modules model that behaviour, prove what it promises, and
say exactly where a promise depends on something else.

`dafny verify dfyconfig.toml` checks everything.

## How the modules fit together

- `Wrappers`, `Addresses`, `ChainState`: results, addresses as 40 hex digits, and the durable state of one
  chain as a value. Library code (Keccak-256, the CREATE address of section 7 of the Ethereum Yellow Paper,
  transaction decoding, canonical artifact names, code hashes) is the parameter `Env`; no property assumes
  that hashes are injective except where its `requires` names the very values that must not collide. That
  contracts start at nonce 1 is item (a) of EIP-161.
- `AddressMap`, `Journal`, `Planner`, `Reconciler`: every operation on the chain as a function, with the
  lemmas that say what it means. `ChainDraft` is the draft that a store transaction hands to its callback,
  a class whose methods write the tables in place and loop as the program does; each is proved to do what
  the function says. `Store` is the state file and its replacement step by step; `DurableReconciler` puts
  preparation and reconciliation on that file, where locks are lost, writes fail and crashes happen.
- `Derivation` and `Confirmation` say exactly which plan a simulation gives and exactly when a receipt confirms
  it, without the planner and the walk over the receipt that find that out.
- `Protocol` has the handlers' steps for any number of transactions, and what each may do to the durable
  state. `Runs` puts them into runs in any order, with crashes that lose everything in memory and losses of
  power that may bring back an earlier state file while the directory is not synced. `Progress` shows that the
  steps get somewhere: from a claim to a transmission, from there to a receipt, and to an end from anywhere.
  `NonceCount` derives the Ethereum nonce from the journal.
- `TransactionQueue` (the queue with its scheduled pumps, timers and runs as a value), `QueuePromises` (what
  becomes of every promise, event by event), `QueueEntries` (where its entries and runs come from) and `NonceOrderedQueue` (the class, updated in place) are the admission
  queue; `Composition` runs it over the protocol and has its releases start the builds. `StateLock`
  interleaves lock acquisitions over the eight candidate ports, `LockExclusion` says exactly when they exclude
  each other, and `LockTable` performs one on the port table in place.
- `Projection`, `Adoption`, `CodeReads`, `Rewriter`, `LinkedLibraries`, `LogTranslation`: translating code, ABI values,
  link references and logs between the two worlds.

## What turned out to be false, and when it holds

- Two native transactions can be sent for one nonce. A commit that returns success although the file system
  refuses to sync directories, or that lands although the sync failed, can be undone by a loss of power
  (`Store.JsonStore.WriteState`); if the native transaction it recorded was sent in between, the source is
  recovered and built again, and another one is sent. `Runs.UnguardedSendsTwice` gives that continuation for
  every run that sends something which some state file a loss of power could bring back does not hold, and
  `Runs.GuardedSendIsFinal` shows that anything sent under the opposite condition is the last word on its
  nonce. Nothing is ever sent unguarded if every commit that records a native transaction syncs its directory
  (`Runs.SyncedPreparationsGuard`); crashes of the process alone never matter. That the journal, the tables
  and the latest count only advance, and that releases never go back, likewise holds while no commit is lost
  (`Runs.KeepsCommits`, `Composition.CountKept`, and `Composition.LostCountReleasesAgain` for the converse).
- Overlapping lock acquisitions can end with two capabilities. Let k candidate ports never be foreign, let m
  more change between foreign and free, and let the rest always be foreign. Two attempts can hold the lock at
  once if and only if k + m is at least 2 and at least k attempts may be closed, by release or by dying in
  the middle (`LockExclusion.TwoExactlyByCloses`), or, counted otherwise, at least k + 2 attempts take part
  (`LockExclusion.TwoExactlyByAttempts`). An attempt that starts while a capability is held never succeeds
  while it is held, whatever happens.
- The journal alone would let a prepared or broadcast record be failed without a receipt, which frees its
  nonce (`Protocol.DirectFailureFreesNonce`). The handlers only fail records that are still received, and
  `Runs.NoDoubleExecution` rests on that.
- Repeating a successful preparation is accepted exactly when its simulation has no child CREATE
  (`Reconciler.RetryAcceptedOnlyWithoutChildren`).
- An ABI value survives the round trip exactly when every address leaf is a mapped predicted address or not
  a mapped actual one; tuples given as objects are rewritten outward but never translated back. Log words
  and fields have the mirrored condition.
- eth_getLogs filters by the node's logs, not by what the caller sees of them. The two agree unless the filter
  names an address that the table knows in one world only and that the native log shows at that place
  (`LogTranslation.FilterSelects`; for a single field or topic exactly then, `LogTranslation.FieldSelected`,
  `LogTranslation.WordSelected`).
- Overlapping immutable windows project exactly when they agree wherever they overlap.
- A commit whose directory sync fails is reported as an error although the new file is in place.

## Model

| member | source | states |
|---|---|---|
| Runs.NoDoubleExecution | rpc-src/journal.ts:598-651 | over every run, crashes and losses of power included, in which each sending step's transaction is held by every state file a loss of power could bring back, two transmissions for sources of the same sender and nonce are the same native transaction for the same source |
| Runs.GuardedSendIsFinal | rpc-src/handlers.ts:1255-1353 | whatever the rest of the run does, after one transmission under that condition nothing else is ever sent for its sender and nonce |
| Runs.UnguardedSendsTwice | rpc-src/store.ts:172-218 | after a transmission without it the run can always go on, by a loss of power and with every later commit synced, to send any other native transaction for the same source |
| Runs.SyncedPreparationsGuard | rpc-src/store.ts:208-218 | if every commit of a preparation syncs its directory, no sending step lacks the condition |
| Runs.SentBytesWereRecorded | rpc-src/handlers.ts:1255-1390 | under the same condition what is sent for a source was recorded before in every state file that could come back, stays so, and is all that is sent for it from then on |
| Runs.RunSound | rpc-src/journal.ts:570-590 | every journal, address table and counter table any run leaves, and any state file that could come back, passes the checks of the next read, with one occupant per nonce and plans disjoint |
| Runs.RunOnlyAdvances | rpc-src/journal.ts:598-685 | while no commit is lost, from any moment of a run to any later one sources, native transactions and plans stay, finished records are final, counters never decrease and tables only climb |
| Runs.SettledKeepsCommits | rpc-src/store.ts:172-218 | no commit is lost when every loss of power finds the directory synced |
| Runs.ConfirmedStaysPublished | rpc-src/create-reconciler.ts:644-764 | while no commit is lost, a confirmed transaction keeps its own successful receipt, and its contract and every successful child stay in the tables under their planned creator, sender and source, with exactly the metadata the operation and the plan give them |
| Runs.ReservationsDisjoint | rpc-src/create-reconciler.ts:358-455 | no caller and nonce is planned by two records in any run |
| Runs.CounterConflictUnreachable | rpc-src/create-reconciler.ts:708-719 | in no run does reconciliation find a counter below a reserved final |
| Progress.SentEndsConfirmed | rpc-src/handlers.ts:1351-1354 | in every run, a source whose native transaction has been sent ends confirmed, with its receipt kept, once the transmission is noted and a receipt that fits arrives |
| Progress.ReceiptFinishes | rpc-src/create-reconciler.ts:644-787 | in every run, a receipt that arrives for what waits for one finishes its record: confirmed exactly if it fits, failed with it otherwise, unchanged if it was finished |
| Progress.RunKeepsWaiting | rpc-src/journal.ts:850-867 | in every run, whatever waits for a receipt is noted as broadcast or finished |
| Progress.NoteEffect | rpc-src/journal.ts:850-867 | noting a transmission makes a prepared record broadcast, keeps its preparation, and leaves a finished one alone |
| Progress.ClaimedIsSent | rpc-src/handlers.ts:1269-1353 | in every run, a claimed source nobody works on is built, recorded and sent, with the very native transaction it was prepared with |
| Progress.PreparedIsResent | rpc-src/handlers.ts:1255-1267 | in every run, a prepared record nobody works on is resumed, and sent again exactly if the network does not know it |
| Progress.FailedBuild | rpc-src/handlers.ts:1380-1390 | a build that fails for good fails its record with that error, if the claim is held here; one that may be retried leaves the journal alone |
| Progress.RejectedInQueue | rpc-src/handlers.ts:1428-1444 | a source the queue rejects as too low fails for that reason, if the claim is held here |
| Progress.RecoveryEffect | rpc-src/handlers.ts:1643-1671 | a successor process takes over the claim of an interrupted build |
| Progress.NothingIsStuck | rpc-src/handlers.ts:1643-1671 | from every moment of every run, whatever the journal holds unfinished can be brought to an end |
| Progress.TableEffect | rpc-src/address-map.ts:215-644 | a table update is made exactly if it agrees with the tables and touches nothing else |
| Protocol.StepDurable | rpc-src/handlers.ts:1255-1390 | each handler step writes at most one record, forwards only, keeps a held nonce held, and moves counters only in a first preparation from base to final |
| Protocol.DirectFailureFreesNonce | rpc-src/journal.ts:791-828 | failing a prepared or broadcast record directly always succeeds and leaves its nonce free for another source |
| Composition.ReleaseFollowsJournal | rpc-src/handlers.ts:494-513 | a release happens only at the journal's latest count; above the baseline a finalized record with the preceding nonce exists |
| Composition.ReleasesNeverDecrease | rpc-src/transaction-queue.ts:136-194 | while no loss of power brings back a count below a released nonce, released nonces of a signer never go back, across crashes and deletion of the queue's state |
| Composition.LostCountReleasesAgain | rpc-src/transaction-queue.ts:136-194 | otherwise a run can go on to release that lower count again |
| Composition.OneRunPerSigner | rpc-src/transaction-queue.ts:136-194 | at most one run per signer is in flight in every reachable world |
| Composition.BuildsGoThroughQueue | rpc-src/handlers.ts:1416-1445 | while requests are served, work for a decodable source starts only as a run of the queue in flight |
| Composition.OneBuildPerSigner | rpc-src/handlers.ts:1416-1445 | at most one task started by the queue is in flight per signer |
| Composition.BuildsFollowJournal | rpc-src/handlers.ts:494-513 | while a task of the queue is in flight, its nonce is at most the baseline or the preceding nonce is finalized |
| QueueEntries.EventKeepsRuns | rpc-src/transaction-queue.ts:187-194 | only its own end takes a run out of flight |
| QueueEntries.EventKeepsEntries | rpc-src/transaction-queue.ts:88-185 | what holds of every entry's signer, nonce and hash keeps holding, pending or running, if it holds of each entry admitted |
| QueuePromises.EventFated | rpc-src/transaction-queue.ts:88-220 | what every event does to every promise: only a run's own good end resolves it and only its bad end fails it; too low goes exactly to those below the turn at a decision for their signer, the run to the one at the turn; a gap timeout takes exactly those waiting for the signer whose timer fires while nothing stands at its turn; a new promise is made only for a hash and nonce no live one stands for |
| QueuePromises.EventFollows | rpc-src/transaction-queue.ts:88-220 | a release happens exactly at a decision whose turn is waited for; after it an idle signer is timed if something waits and forgotten otherwise; an admission schedules one pump and a pump runs once |
| NonceCount.VirtualTransactionCount | rpc-src/handlers.ts:359-417 | the loop returns the least number above every counted nonce and not below the baseline, 0 for earliest or another address, and an error exactly when a finalized record has no block to be counted at |
| NonceCount.ListOrderIrrelevant | rpc-src/handlers.ts:359-417 | the count does not depend on the order of the journal list |
| NonceCount.LatestNeverDecreases | rpc-src/handlers.ts:359-417 | while no commit is lost, latest never decreases along a run, baselines set on the way included |
| NonceCount.LatestBelowPending | rpc-src/handlers.ts:359-417 | latest never exceeds pending |
| NonceCount.HistoryGrows | rpc-src/handlers.ts:359-417 | the count at a block grows with the block and never exceeds latest |
| NonceCount.LatestIsSpent | rpc-src/handlers.ts:394-416 | a latest count above the baseline means the nonce just below it is finalized |
| NonceCount.CountMeans | rpc-src/handlers.ts:359-417 | under latest, pending and a block alike, the count is above every nonce a record stands for, spent, prepared or still to be built, and above the baseline only because one stands just below it |
| NonceCount.ReceivedIsPending | rpc-src/handlers.ts:378-393 | a source counts as pending from the moment it is received |
| NonceCount.FinishedIsSpent | rpc-src/handlers.ts:394-416 | a confirmed record, or one failed with its receipt, counts under latest |
| Journal.ValidatePlan | rpc-src/journal.ts:331-419 | the counter replay accepts exactly the plans whose attempts use, caller by caller, the nonces from base to final and the addresses that go with them |
| Journal.PlanFillsIntervals | rpc-src/journal.ts:331-419 | in a valid plan every caller's interval of nonces is spent exactly, each nonce by one attempt |
| Journal.CallWritesOne | rpc-src/journal.ts:598-685 | every journal operation that succeeds writes one well-formed record, forwards in the order of the states |
| Journal.CallKeepsJournal | rpc-src/journal.ts:433-590 | every journal an operation writes passes the record checks of the next read |
| Journal.CallKeepsOneOccupant | rpc-src/journal.ts:627-640 | no operation makes two records hold one sender's nonce |
| Journal.BuiltWrites | rpc-src/journal.ts:598-651 | recording a native transaction takes a nonce no other record holds, or repeats itself word for word |
| Journal.FailedWrites | rpc-src/journal.ts:791-828 | recording a failure keeps the preparation, never takes a nonce, and frees none if the record was received |
| Journal.ReceivedOnce | rpc-src/journal.ts:718-744 | a source is handed out for building once; receiving it again changes nothing |
| Journal.RecoveryTransfersClaim | rpc-src/journal.ts:748-773 | after recovery the previous owner can neither prepare nor fail the transaction nor lose it a second time |
| Journal.FinishedIsFinal | rpc-src/journal.ts:653-685 | whatever is still accepted for a confirmed or failed record changes nothing |
| Journal.CallExact | rpc-src/journal.ts:598-867 | every journal operation is accepted exactly in the states it starts from, or if it would only repeat itself, and leaves the record in its state with exactly what it stores |
| Journal.LeftRecordUnique | rpc-src/journal.ts:433-569 | state, stored fields and the record checks leave no choice about that record |
| Journal.CallRefused | rpc-src/journal.ts:598-867 | each error of a refused operation has its own reason |
| Planner.DerivePlanInOrder | rpc-src/create-reconciler.ts:312-444 | the attempt-by-attempt planner equals the recursive plan, errors included |
| Planner.PlannerAgreesWithValidator | rpc-src/create-reconciler.ts:312-444 | every derived plan is accepted by the validator, its sender is the operation's, and its bases are the stored counters |
| Planner.CallersResolve | rpc-src/create-reconciler.ts:326-357 | every attempt follows its trace entry, its caller is the sender, the target or an earlier child if it names one and otherwise the table's entry, and a successful child is new |
| Planner.CallersAreNamed | rpc-src/create-reconciler.ts:326-342 | at every point the provisional callers are exactly the sender, the target and the children planned so far |
| Planner.ChildrenDistinct | rpc-src/create-reconciler.ts:358-444 | barring hash collisions, two children of one plan have distinct predicted and distinct actual addresses |
| Planner.OnlyPlainCreates | rpc-src/create-reconciler.ts:257-385 | a plan holds only labelled plain CREATEs, or the one ProxyAdmin creation of a canonical transparent proxy under a constant simulation |
| Planner.ProxyAdminOnly | rpc-src/create-reconciler.ts:144-170 | a child is named in advance exactly when it is the successful nonce-1 creation of a canonical transparent proxy being deployed, and then as that artifact's ProxyAdmin |
| Planner.ReservedCountersValid | rpc-src/create-reconciler.ts:117-138 | the counters a plan leaves pass their own check: positive, and never for the zero address |
| Derivation.DerivationExact | rpc-src/create-reconciler.ts:312-444 | the planner returns a plan exactly if that plan fits: profile, trace, callers, stored counters, addresses and names in advance, attempt by attempt; at most one fits and it is found |
| Derivation.DerivationRefused | rpc-src/create-reconciler.ts:312-444 | it refuses exactly when none fits |
| Derivation.ProfileExact | rpc-src/create-reconciler.ts:230-310 | a simulation is acceptable exactly if complete, of this transaction and target, and, when constant, of the operation's kind and without creations but the canonical transparent proxy's one |
| Derivation.AttemptRefused | rpc-src/create-reconciler.ts:358-444 | each error of a refused attempt has its own reason |
| Derivation.PreparationExact | rpc-src/create-reconciler.ts:606-631 | a preparation is recorded exactly if its plan fits and the journal accepts it |
| Derivation.PreparationRefused | rpc-src/create-reconciler.ts:606-631 | and refused for the planner's reason otherwise |
| Reconciler.PreparationReserves | rpc-src/create-reconciler.ts:606-631 | a first preparation takes every planned counter from base to final, records the plan, and touches nothing else |
| Reconciler.RejectionReservesNothing | rpc-src/create-reconciler.ts:606-642 | a rejected preparation reserves nothing; at most the received record becomes a failure |
| Reconciler.RejectionOutcome | rpc-src/create-reconciler.ts:631-642 | a received record whose claim is held here fails with the very error that rejected its preparation; any other rejection leaves the journal alone |
| Reconciler.RetryAcceptedOnlyWithoutChildren | rpc-src/create-reconciler.ts:606-631 | repeating a successful preparation is accepted if and only if the simulation has no child CREATE |
| Reconciler.CreationTreeAgrees | rpc-src/create-reconciler.ts:661-761 | at every position of a confirmed plan the receipt's success, caller and child are the planned ones under the resulting table, and successful children are published with creator, sender and source |
| Reconciler.SuccessesAlign | rpc-src/create-reconciler.ts:705-706 | an attempt and its creation stand at the same place in the two separately filtered success lists |
| Reconciler.SuccessAt | rpc-src/create-reconciler.ts:705-706 | every place in the success list is some successful attempt's |
| Reconciler.OnlyPlannedPublished | rpc-src/create-reconciler.ts:721-758 | a confirmation publishes no address but the deployment's own and its successful planned children |
| Reconciler.OnlyPlannedDescribed | rpc-src/create-reconciler.ts:721-758 | metadata is new only for a deployment of a known kind and for children named in advance |
| Reconciler.ReconcileConfirms | rpc-src/create-reconciler.ts:644-764 | a confirmation changes mappings, metadata and the one record, alters no existing entry, keeps the tables well-formed, and gives a deployment its mapping and exactly its own metadata |
| Reconciler.KeptReceiptShowsPlan | rpc-src/create-reconciler.ts:574-582 | the kept receipt shows a successful child under its planned address and its creator under its predicted one |
| Reconciler.ReconcileAllOrNothing | rpc-src/create-reconciler.ts:644-787 | reconciling confirms with everything published, or leaves tables and counters with the record broadcast or failed with its receipt |
| Reconciler.OtherErrors | rpc-src/create-reconciler.ts:664-761 | with counters intact reconciliation never reports a counter error, and the success lists never run out of step |
| Confirmation.ReconcileExact | rpc-src/create-reconciler.ts:651-764 | a broadcast record is confirmed exactly if the receipt is its own and intact, its creations are the planned attempts one for one, no counter is below what was reserved, and what is to be published fits the tables and itself |
| Confirmation.ReconcileOutcome | rpc-src/create-reconciler.ts:644-787 | what a reconciliation leaves and answers, whatever state the record is in |
| Confirmation.ReconcileErrors | rpc-src/create-reconciler.ts:661-719 | the error of a refused receipt, by the first thing that is wrong with it |
| Confirmation.CreationsExact | rpc-src/create-reconciler.ts:457-484 | the creations read from a receipt are all of its creation notes in order, and reading fails exactly on a note that is not intact |
| Confirmation.MatchedExact | rpc-src/create-reconciler.ts:669-704 | the walk succeeds exactly if at every attempt success and caller agree, the caller being what this receipt created there last, the target, the sender, or the table's entry |
| Confirmation.PublicationExact | rpc-src/create-reconciler.ts:721-758 | publishing succeeds exactly if every entry, metadata included, is new to the tables or there word for word, and any two entries fit together |
| Confirmation.ConfirmedReceipt | rpc-src/create-reconciler.ts:574-582 | the kept receipt is the one that came, with every party of every internal transaction under the name the table has for it, and nothing else changed |
| DurableReconciler.CreateReconciler.Reconcile | rpc-src/create-reconciler.ts:644-787 | on the state file, with either commit losing its lock or failing, the chain and error are exactly those spelled out, other chains stay, and every disk on the way is accounted for |
| DurableReconciler.CreateReconciler.RecordPreparedNative | rpc-src/create-reconciler.ts:606-642 | the same for a preparation and the failure it may record: chain and error as spelled out, other chains untouched, every disk on the way accounted for |
| DurableReconciler.CrashLeavesWhole | rpc-src/store.ts:172-201 | a crash at any file-system step of a reconciliation brings back a file that could have come back before it (the file itself if the directory was synced), or one with the chain as it was, confirmed in whole, or failed with its receipt, and other chains untouched |
| DurableReconciler.CrashLeavesTogether | rpc-src/store.ts:172-201 | likewise for a preparation: the prepared record and its counters are there together or not at all |
| DurableReconciler.DurableWhole | rpc-src/create-reconciler.ts:644-787 | whatever happens to the writes, the chain left is one of those three |
| DurableReconciler.DurableIsReconcile | rpc-src/create-reconciler.ts:644-787 | when both commits go through it is the plain reconciliation |
| DurableReconciler.DurableIsPreparation | rpc-src/create-reconciler.ts:606-642 | likewise for a preparation and the failure it records when rejected |
| DurableReconciler.PrepareDurablyWhole | rpc-src/create-reconciler.ts:606-642 | a preparation records and reserves together, or only fails the received record, or does nothing |
| DurableReconciler.DurableIsProtocolStep | rpc-src/create-reconciler.ts:762-787 | a reconciliation whose writes fail is a step the protocol already has |
| DurableReconciler.DurablePrepareIsProtocolStep | rpc-src/create-reconciler.ts:606-642 | so is a preparation: its own step, a failed build, or nothing |
| DurableReconciler.CommitMirrors | rpc-src/store.ts:172-218 | the chains a loss of power may bring back in a run are those the disk may bring back, commit after commit |
| Store.JsonStore.WriteState | rpc-src/store.ts:172-201 | the file is replaced in whole or not at all; every intermediate disk can only come back as an earlier state or the new one; after a directory sync only as the new one |
| Store.JsonStore.End | rpc-src/store.ts:124-153 | a commit asserts the lock first; it lands, lands with an error, or does not land |
| Store.JsonStore.Begin | rpc-src/store.ts:124-134 | a transaction starts from a private copy of the chain, empty if there is none |
| ChainDraft.ChainDraft.SetMappingInChain | rpc-src/address-map.ts:215-232 | the in-place setter does what its function says and changes nothing when it refuses |
| ChainDraft.ChainDraft.SetContractMetadataInChain | rpc-src/address-map.ts:308-323 | likewise for contract metadata |
| ChainDraft.ChainDraft.SetArtifactSnapshotInChain | rpc-src/address-map.ts:429-458 | likewise for artifact snapshots |
| ChainDraft.ChainDraft.SetDeploymentDescriptorInChain | rpc-src/address-map.ts:560-581 | likewise for deployment descriptors |
| ChainDraft.ChainDraft.SetNonceBaselineInChain | rpc-src/address-map.ts:629-644 | likewise for nonce baselines |
| ChainDraft.ChainDraft.RecordNativeBuiltInChain | rpc-src/journal.ts:598-651 | the in-place transition with its scan for another occupant does what its function says |
| ChainDraft.ChainDraft.FindOccupant | rpc-src/journal.ts:627-640 | the scan finds another record holding the sender's nonce exactly when there is one |
| ChainDraft.ChainDraft.RecordConfirmedInChain | rpc-src/journal.ts:653-667 | the in-place confirmation |
| ChainDraft.ChainDraft.RecordRetainedFailureInChain | rpc-src/journal.ts:669-685 | the in-place failure that keeps its receipt |
| ChainDraft.ChainDraft.ReceiveInChain | rpc-src/journal.ts:718-744 | the in-place receipt of a source, telling whether to build |
| ChainDraft.ChainDraft.RecoverReceivedInChain | rpc-src/journal.ts:748-773 | the in-place compare-and-swap of a build claim |
| ChainDraft.ChainDraft.RecordBroadcastInChain | rpc-src/journal.ts:850-867 | the in-place advance to broadcast |
| ChainDraft.ChainDraft.RecordFailedInChain | rpc-src/journal.ts:791-828 | the in-place failure |
| ChainDraft.ChainDraft.ReserveChildCreateCounters | rpc-src/create-reconciler.ts:449-455 | the loop sets every planned caller's counter to its final nonce and no other |
| ChainDraft.ChainDraft.RecordPreparedNativeInChain | rpc-src/create-reconciler.ts:612-631 | plan, record and reserve, as one in-place transaction |
| ChainDraft.ChainDraft.MatchAttempts | rpc-src/create-reconciler.ts:684-704 | the walk over plan and receipt succeeds exactly when every attempt matches under what was learned before it |
| ChainDraft.ChainDraft.PublishSuccesses | rpc-src/create-reconciler.ts:740-758 | the publishing loop, with the separately kept reverse table equal to the published one |
| ChainDraft.ChainDraft.ReconcileInChain | rpc-src/create-reconciler.ts:651-764 | the whole in-place transaction of a reconciliation |
| AddressMap.RequireIndexes | rpc-src/address-map.ts:157-203 | the index check accepts exactly canonical records whose reverse index is their inverse, and its second scan never rejects |
| AddressMap.SetMappingExact | rpc-src/address-map.ts:215-232 | a mapping is accepted if and only if it is new on both sides or already there word for word |
| AddressMap.SetMappingAdds | rpc-src/address-map.ts:215-232 | an accepted mapping adds its own pair, alters no existing one, and keeps the indexes inverse |
| AddressMap.WritesClimb | rpc-src/address-map.ts:308-644 | over any setter calls the tables stay well-formed, mappings, metadata and baselines are set once, snapshots only gain offsets, descriptors only complete |
| AddressMap.AcceptedWriteShown | rpc-src/address-map.ts:215-644 | what an accepted write asks for is in the tables afterwards, unless a fuller snapshot or capture already was |
| AddressMap.WriteExact | rpc-src/address-map.ts:215-644 | a table write is accepted exactly if it disagrees with nothing set for good, and its own entry is then the one asked for or the fuller one that was there; a pending capture can be completed, missing offsets can be added |
| AddressMap.FoundByFace | rpc-src/address-map.ts:325-600 | metadata and descriptors are found under either face of the address they belong to and under no other |
| ChainDraft.ChainDraft.WriteInChain | rpc-src/cli.ts:892-923 | several writes of one transaction in place, stopping at the first refused |
| AddressMap.WriteAllClimbs | rpc-src/cli.ts:892-923 | the same at every point of a transaction that makes several writes |
| AddressMap.SnapshotOrderIrrelevant | rpc-src/address-map.ts:429-458 | mutually compatible snapshot writes give the same table in any order |
| AddressMap.LookupsInvert | rpc-src/address-map.ts:672-698 | predicted-to-actual and actual-to-predicted lookups undo each other |
| TransactionQueue.EventKeepsValid | rpc-src/transaction-queue.ts:88-220 | after every event hashes are exactly those pending or running, each signer has at most one run, and every live signer is active, timed or pumped |
| TransactionQueue.EventKeepsPromises | rpc-src/transaction-queue.ts:88-127 | no promise is lost, moved, overwritten or settled twice |
| TransactionQueue.EventMovesOnlyToCursor | rpc-src/transaction-queue.ts:136-185 | an event releases at most one entry, its own signer's, at the cursor it pins |
| TransactionQueue.ReleaseAtExpected | rpc-src/transaction-queue.ts:136-185 | while cursors are at most the durable count, a release is at exactly that count and cursors stay below it |
| NonceOrderedQueue.NonceOrderedQueue.Submit | rpc-src/transaction-queue.ts:88-112 | enqueueing in place: join, refuse, or a new entry with a scheduled pump |
| NonceOrderedQueue.NonceOrderedQueue.OnMicrotask | rpc-src/transaction-queue.ts:136-185 | a scheduled pump in place is the pump event |
| NonceOrderedQueue.NonceOrderedQueue.AfterRun | rpc-src/transaction-queue.ts:187-194 | a run's end in place is the finish event, its signer always being there |
| NonceOrderedQueue.NonceOrderedQueue.OnDeadline | rpc-src/transaction-queue.ts:196-220 | a firing gap timer in place is the timer event |
| NonceOrderedQueue.NonceOrderedQueue.SettleAll | rpc-src/transaction-queue.ts:156-161 | the settling loop removes and settles exactly the given entries |
| StateLock.LaterAttemptExcluded | rpc-src/state-lock.ts:292-332 | however foreign listeners move, an attempt that starts while a capability is held does not succeed while it stays held |
| StateLock.ExactlyOneCapability | rpc-src/state-lock.ts:292-332 | with a never-foreign port and nobody giving up, once all attempts are over exactly one holds the lock |
| StateLock.FixedOccupancy | rpc-src/state-lock.ts:292-332 | with fixed foreign ports and nobody giving up, a finished contest has a holder if and only if some candidate port is not foreign, and never two |
| LockExclusion.FewerClosesThanPorts | rpc-src/state-lock.ts:292-332 | while fewer attempts have been closed than ports never are foreign, at most one attempt holds the lock |
| LockExclusion.AdmitsTwo | rpc-src/state-lock.ts:307-317 | for any never-foreign and any changing ports, at least two together, a run in which one attempt dies on each of the former ends with two capabilities |
| LockExclusion.TwoExactlyByCloses | rpc-src/state-lock.ts:292-332 | two capabilities are possible if and only if two ports can be bound at all and as many attempts may be closed as there are never-foreign ports |
| LockExclusion.TwoExactlyByAttempts | rpc-src/state-lock.ts:292-332 | and if and only if at least two more attempts than that take part |
| LockExclusion.TwoExactlyWithFixedListeners | rpc-src/state-lock.ts:292-332 | with fixed foreign listeners: two ports that are not foreign, and as many closed attempts as there are such ports |
| LockExclusion.TwoExactlyWithoutCloses | rpc-src/state-lock.ts:292-332 | while nobody gives up: at least two changing ports and no never-foreign one |
| LockTable.LockTable.AcquireStateLock | rpc-src/state-lock.ts:292-332 | an uninterrupted acquisition succeeds exactly when no same-state server listens and a candidate is free, takes every free one as a good capability, or rolls back to the ports it found |
| LockTable.LockTable.AssertStateLockHeld | rpc-src/state-lock.ts:231-243 | asked about a granted capability it answers yes exactly if that was neither released nor lost since, and then no later attempt holds the lock |
| LockTable.LockTable.ReleaseStateLock | rpc-src/state-lock.ts:245-257 | release closes every server of the capability for good |
| Projection.ProjectDescriptorImmutables | rpc-src/immutable-projection.ts:208-234 | the in-place rewriting of the digit array is the window-by-window projection |
| Projection.ProjectExact | rpc-src/immutable-projection.ts:208-234 | for any windows, projection succeeds exactly when each shows its commitment at its turn and resolves; each digit is decided by the last window over it |
| Projection.DisjointProjection | rpc-src/immutable-projection.ts:208-234 | disjoint windows project exactly when each shows its commitment in the original code and resolves, and only their digits change |
| Projection.OverlappingProjection | rpc-src/immutable-projection.ts:208-234 | windows bound from the code project exactly when they agree wherever they overlap |
| Projection.OrderIrrelevant | rpc-src/immutable-projection.ts:208-234 | disjoint windows give the same result in any order |
| Projection.ProjectionReverses | rpc-src/immutable-projection.ts:208-234 | projecting back through the inverse table restores the code |
| Projection.BuildDescriptorsFromRanges | rpc-src/immutable-projection.ts:175-201 | the binding loop collects the descriptors of the address-wide ranges in order |
| Projection.BindingSucceeds | rpc-src/immutable-projection.ts:109-113 | binding succeeds exactly when every address-wide range lies in the code |
| Projection.BoundShows | rpc-src/immutable-projection.ts:175-201 | every bound descriptor passes the drift check on the code it came from and has the role its kind gives it |
| Projection.RangeIsBound | rpc-src/immutable-projection.ts:175-201 | every address-wide range that plays a role is bound |
| Projection.MaskImmutables | rpc-src/cli.ts:610-618 | the masking loops fail exactly when a range leaves the code and otherwise zero exactly the ranges |
| Projection.EqualMasks | rpc-src/cli.ts:828-846 | two codes have equal masks exactly when they agree outside the ranges |
| Adoption.AdoptChecks | rpc-src/cli.ts:773-890 | the checks in order accept exactly the acceptable adoptions, refuse each other one for its own reason, and yield the descriptors bound from the live code |
| Adoption.AdoptThenRead | rpc-src/cli.ts:828-927 | after a committed adoption of a proxy with disjoint address-wide immutables every later read of its code succeeds, shows the controller's predicted address in each of them and changes nothing else |
| Adoption.OverlappingAdoptionReads | rpc-src/handlers.ts:761-797 | with windows that may overlap, the read succeeds exactly when the controller's predicted address repeats the code on each overlap |
| Adoption.ProxyNeverServedRaw | rpc-src/handlers.ts:761-827 | a proxy's code is served projected with its role's window, or equal to a template that declares no address-wide immutable |
| Adoption.AcceptedCodeIsTemplate | rpc-src/cli.ts:828-846 | barring collisions of the compared hashes, accepted code is the template outside its immutables |
| Adoption.BoundToController | rpc-src/cli.ts:628-647 | every descriptor of an accepted proxy commits to the declared admin or beacon, in that role |
| Adoption.AdoptionStored | rpc-src/cli.ts:892-923 | the one transaction leaves mapping, metadata and a complete descriptor record |
| Adoption.ReferencesExact | rpc-src/cli.ts:664-771 | kind by kind, which references an adoption must and may be given and what each is held against |
| CodeReads.CompleteRead | rpc-src/handlers.ts:771-797 | for every kind of contract, a complete record with descriptors is served exactly if each window shows its commitment at its turn and resolves, and a proxy has its role's window; each digit is decided by the last window over it |
| CodeReads.DisjointCompleteRead | rpc-src/handlers.ts:771-797 | with windows apart: exactly if the served code shows every commitment and each resolves; every window then shows the predicted address and no other digit changes |
| CodeReads.EmptyCompleteRead | rpc-src/handlers.ts:773-788 | a complete record without descriptors: a contract is served as it is, a proxy only if its code is a template without address-wide immutables |
| CodeReads.PendingContractRead | rpc-src/handlers.ts:798-825 | a contract with a pending record is always served: as it is if no artifact resolves or fits, otherwise with its own predicted address exactly where the code shows its actual one |
| CodeReads.PendingProxyRead | rpc-src/handlers.ts:798-825 | a proxy with a pending record is served exactly if its artifact resolves and fits and every address-wide window shows a mapped address, or there is none and the code is the template |
| CodeReads.PendingOverlappingRead | rpc-src/handlers.ts:798-825 | the same for ranges that may overlap |
| Rewriter.RoundTrip | rpc-src/handlers.ts:944-980 | for every nested type and accepted value, translating back is possible and gives the value back if and only if it is restorable |
| Rewriter.UntouchedExact | rpc-src/rewriter.ts:151-189 | rewriting leaves a value as it is exactly when no deciding leaf is moved |
| Rewriter.RewriteExact | rpc-src/rewriter.ts:135-189 | rewriting accepts exactly the values whose address leaves are nonzero addresses, whose payloads have whole bytes and carry no known predicted address on a byte boundary, and whose lists, tuples and objects fit their types |
| Rewriter.ReverseExact | rpc-src/handlers.ts:944-980 | translating back accepts exactly the values without a zero address, well-shaped or not, and this is what becomes of them |
| Rewriter.RewriteAlike | rpc-src/rewriter.ts:151-189 | rewriting keeps the shape and changes nothing but address leaves, each to the actual address of what it names |
| Rewriter.ReverseAlike | rpc-src/handlers.ts:944-980 | translating back keeps it as well and turns leaves into their predicted addresses at most |
| Rewriter.AssertOpaqueBytesSafe | rpc-src/rewriter.ts:135-149 | the search ends and rejects exactly the payloads carrying a known predicted address on a byte boundary |
| LinkedLibraries.RewriteLinkedLibraries | rpc-src/rewriter.ts:420-455 | accepts exactly ordered, fitting placeholder ranges with known libraries, moves exactly those to their actual addresses, and names the reason otherwise |
| LogTranslation.FilterReturns | rpc-src/handlers.ts:1586-1596 | a filter built from a translated log reaches the node as the native log's filter if and only if its address and topics are restorable |
| LogTranslation.FilterSelects | rpc-src/handlers.ts:1586-1596 | asking the node with the filter moved inward answers with exactly the logs whose translations the caller's filter selects, alternatives and wildcards included, unless the filter names an address of one world only |
| LogTranslation.FieldSelected | rpc-src/log-translation.ts:32-41 | for one field that exception is exact |
| LogTranslation.WordSelected | rpc-src/log-translation.ts:47-57 | and for one topic |
| LogTranslation.LogReturns | rpc-src/log-translation.ts:80-89 | a whole log, data included, comes back exactly if its address, topics and every full word of its data do |
| LogTranslation.DataReturns | rpc-src/log-translation.ts:66-77 | outward then inward restores the data if and only if every full word is restorable; length and tail always stay |
| LogTranslation.DataKeepsTail | rpc-src/log-translation.ts:66-77 | translating data keeps its length and the digits that fill no word |
| LogTranslation.DataWord | rpc-src/log-translation.ts:66-77 | every full word of the data is translated on its own |
| LogTranslation.WordReturns | rpc-src/log-translation.ts:47-57 | the same for one word |
| LogTranslation.MapLogData | rpc-src/log-translation.ts:66-77 | the loop over words is the recursive translation |

## Left out

- HTTP, the upstream client, building, signing, polling and timeouts (rpc-src/server.ts, rpc-src/upstream.ts, rpc-src/tron-client.ts): their results are arbitrary parameters of the steps.
- Which of several wrong things an operation names first, where no caller tells them apart (windows of one projection, leaves of one ABI value, conflicts of one publication).
- JSON shapes, patterns, hex case and checksums: the model works on normalized addresses, numbers and digits.
- Re-coding of errors: a failure keeps the first error's own code where the program wraps foreign errors in CHILD_CREATE_PREFLIGHT_FAILED, CHILD_CREATE_CONFLICT or CHILD_CREATE_RECONCILIATION_FAILED; messages are not modelled.
- Order of errors within one nested ABI value: the first in index order is reported, where the program awaits all leaves at once.
- Metadata kept beside provisional callers while planning, which nothing reads.
- Recomputing hex-padded notes of internal transactions: a note is a creation, something else, or malformed.
- The nonce order in which startup recovery replays records: the protocol allows any order.
- A process that keeps sending after it lost the state lock: a crash ends the old process, and the lock (StateLock) and the write assertion (Store) are proved separately.
- Removal of the temporary file failing after a failed write: the file is only ever left behind, never read.
- Deadlines: an armed timer may fire at any time.
- A count that cannot be read while the queue decides: the error escapes a microtask, a timer or a promise nobody handles and ends the process, which the composition has as a crash.
- Which artifact source a code read resolves when a record is pending (snapshot or disk): a parameter of Adoption.ProjectCodeImmutables; adopted proxies do not depend on it.
- Proxy constructor arguments, nested upgrade payloads, receipts and block formatting, artifact discovery, configuration, command-line parsing: not modelled.
- Store.JsonStore: one process; a state file deleted while the store is open counts as missing, as in the program, but a file corrupted by others is not modelled.
- StateLock: assumes that a live same-state listener answers its probe in time and that nobody forges the HMAC proof.
