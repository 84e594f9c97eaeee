# Verified model of the shared sessions, the graph store and the metadata migration

This project models the stateful core of a collaborative graph application and
proves what its protocols are for. It has four parts.

**Shared sessions.** A session is a document (node references, positions, hidden and
dimmed elements, annotations) that several clients change at once. `SessionModel`
says what each op does to it; the class in `SessionStore` does it field by field,
and is proved to do the same. `ManagerModel` is the session manager as a state
machine, with asynchronous batches that apply in memory, suspend at their save and
then commit or roll back, synchronous writers, undo, connections and catch-up; the
class in `Manager`, with its lease and claim maps (`Leases`), roster (`Presence`) and
lossy bus (`EventBus`), is proved to make exactly its steps. `Protocol` adds the disk,
restarts, subscribers' queues and the subscribers' own copies, together with the
history of saved documents by seq. `Convergence` proves one invariant for every
interleaving, `Guarantees` reads convergence and order off it, `Atomicity` what a failed
save, a held lock and a delete leave behind, and `EarlyCopies` decides which copies of an
unsaved batch go wrong. `SessionFacts`, `Versions`, `Undo`, `UndoStack`, `Replica` and
`BatchFacts` hold the laws of single ops, of field versions, of undo, of the client's
mirror and of batches. `OpLaws` and `Answers` say outright, field by field and caller by
caller, what each op does, what is answered and what subscribers are told.

**The rate limiter** (`TokenBucket`): a token bucket that forgets idle clients.

**The graph store** (`GraphModel`, `GraphStorage`, `Traversal`, `GraphLaws`): dictionaries, multigraph
index and text cache that must agree through every mutation; search through the
cache; breadth-first traversal against path reachability.

**The metadata migration** (`Migration`, `MigrationFacts`, `MigrationExact`, `MigrationLaws`,
`Migrator`):
list surgery that should converge. **Annotations** (`Annotations`): building, patching,
moving and reading.

Several promises of the code turn out to need a condition. For each the model has the
input that fails and says exactly when the promise holds.

- A subscriber that catches up while a batch is unsaved can end at the server's seq on a
  document the server never had, because `catch_up` does not look at the lock. Its copy
  converges in every continuation exactly when no batch is unsaved at that moment (or a
  resync marker already waits for it).
- The browser's mirror skips an op that carries an empty id, which the server applies. A
  write reaches the mirror exactly when it carries none, or moves it nowhere.
- A failed batch rolls everything back except the memory of deleted ids, so a client that
  then upserts an annotation it failed to delete is ignored.
- An undo of a delete fails when the delete had been sent twice, and an undo of a creation
  when the annotation has the empty id.
- The rate bound, like the invisibility of eviction, holds exactly when a client that is
  silent for the idle limit would have filled up (with the shipped limits it would).
- A migration is idempotent exactly when no classification loses to a later one the last
  item of a code it wants and every item keeps what its last classification said of it.
  Items that are not shared are enough for that, but not needed.
- Loading a graph leaves dictionaries and index in agreement exactly when no stored edge
  lacks an end and edges of one id join the same nodes.
- Resizing an annotation in one dimension leaves the other alone exactly when its stored
  size agrees with its geometry there.

One statement about the documentation: a failed `add_nodes` reports that nothing was
added, but keeps what it had added before the refused item.

## Model

| member | source | states |
|---|---|---|
| `Guarantees.ReplicasConverge` | backend/core/session_manager.py:1865-1952 | over every run from a new session: a subscriber's copy is the saved document at the subscriber's seq; with its line drained and no batch in flight it is the server's document |
| `EarlyCopies.EarlyCopyConvergesIff` | backend/core/session_manager.py:1922-1952 | exactly which copies converge, from every reachable state and for every queue bound: no later run leaves the subscriber on another document than the server's if and only if no batch was unsaved when it caught up, or a resync marker already waited at the front of its line; otherwise it can end so even at the server's seq, where no later op shows the difference |
| `EarlyCopies.EndsSilentlyApart` | backend/core/session_manager.py:926-935 | the continuation that shows it: the copy is of the batch in flight, the save fails, other writes take the batch's seqs, and the subscriber lets each pass as stale |
| `EarlyCopies.NeverAheadIff` | backend/core/session_store.py:567-580 | no later crash, during a save, between two saves or before a publish, leaves a subscriber beyond the reloaded seq if and only if no batch was unsaved when it caught up |
| `Guarantees.OneWriteConvergesIff` | frontend/web/src/services/sessionSyncClient.js:312-409 | a write that reaches an up-to-date subscriber leaves it on the server's document if and only if the op is one that the client's mirror takes over |
| `Guarantees.EmptyIdMoveDiverges` | frontend/web/src/services/sessionSyncClient.js:312-409 | the op that it does not: the move of a node with the empty id, which the server applies and the mirror skips |
| `Guarantees.PublishedInOrderAndSaved` | backend/core/session_manager.py:892-959 | in every interleaving the published ops carry consecutive seqs from the seq the process loaded, and each is already in the saved history |
| `Guarantees.DeliveriesHaveNoGap` | backend/core/session_hub.py:133-145 | the state op at the front of a subscriber's line is stale or exactly the next one; a gap is only ever met behind a resync marker |
| `Atomicity.NothingWrittenInFlight` | backend/core/session_manager.py:1076-1077 | along every run in which a batch awaits its save while writers, undos, deletes and other clients keep trying, store, disk, history and rollback copy stay as they are: whoever needs the lock is answered busy or waits |
| `Atomicity.FailedSaveLeavesNoTrace` | backend/core/session_manager.py:926-935 | a batch whose save raises leaves session, ring, disk, saved history and published ops as before it began, wipes out nobody's write, and changes nothing else but the deleted memory, which keeps exactly the ids the batch had deleted |
| `Atomicity.DeletedSessionStaysDeleted` | backend/core/session_manager.py:614-640 | a delete during a batch's save is refused or waits; one that goes through leaves memory and disk empty along every later run, with batches that were waiting for the lock and writers that come later: nothing more is saved or published |
| `Atomicity.GoneStep` | backend/core/session_manager.py:811-821 | every single act on a deleted session, a waiting batch that gets the lock among them, leaves it deleted |
| `Atomicity.GoneAnswers` | backend/core/session_manager.py:811-821 | batch, writer, undo, catch-up and delete are each told that the session is not there, and a restart does not bring it back |
| `Guarantees.ReleasedWithLastConnection` | backend/core/session_manager.py:1879-1920 | a close releases the client's leases and claims exactly when it closes the last connection, and nobody else's ever |
| `Convergence.RunKeeps` | backend/core/session_manager.py:811-959 | the system invariant (history, disk, flight, queues, copies) holds along every run, by one lemma per kind of step |
| `Convergence.StepKeeps` | backend/core/session_manager.py:811-1027 | every single step keeps the system invariant |
| `Convergence.BeginKeeps` | backend/core/session_manager.py:811-925 | starting a batch, whether it fails, finishes unsaved or suspends, keeps the invariant |
| `Convergence.SaveSucceedsKeeps` | backend/core/session_manager.py:925-925 | a save that succeeds keeps the invariant |
| `Convergence.CommitsBatchKeeps` | backend/core/session_manager.py:937-1027 | publishing the pending entries after the save keeps every subscriber's line complete |
| `Convergence.SaveRaisesKeeps` | backend/core/session_manager.py:926-935 | rolling back leads to the saved history again; the subscribers who copied the batch are the ones astray |
| `Convergence.SyncKeeps` | backend/core/session_manager.py:1789-1851 | a synchronous write, whether it goes through, is refused or fails to save, keeps the invariant |
| `Convergence.UndoKeeps` | backend/core/session_manager.py:1694-1759 | an undo keeps the invariant, whichever of its two saves fails |
| `Convergence.DiesAfterUndoKeeps` | backend/core/session_manager.py:1734-1759 | so does a crash of the process between the two saves of an undo, or before its publish |
| `Convergence.RemoveKeeps` | backend/core/session_manager.py:614-640 | so does a delete |
| `Convergence.CatchesUpKeeps` | backend/core/session_manager.py:1922-1952 | what catch-up hands out, the ops or the session in the payload, makes the subscriber's copy the document at its new seq |
| `Convergence.DeliversKeeps` | frontend/web/src/services/sessionSyncClient.js:1691-1709 | taking the next event, with its stale guard and its resync, keeps the copy on the history |
| `SessionStore.LiveSession.ApplyStateOp` | backend/core/session_store.py:659-1133 | the in-place op application ends in exactly the answer and the state that the specification `ApplyOp` gives, for every op |
| `SessionStore.LiveSession.RemoveNodes` | backend/core/session_store.py:700-712 | the removals in place, list by list and annotation by annotation, are those of the op, whose effect `OpLaws.NodesRemovedIs` gives |
| `SessionStore.LiveSession.CreateAnnotation` | backend/core/session_store.py:869-967 | the four ends of a create: refused, dropped for a deleted id, an upsert that keeps the type, a new annotation at version 1 |
| `SessionStore.LiveSession.UpdateAnnotation` | backend/core/session_store.py:968-1031 | the ends of an update: dropped when gone, refused on a type change or a field conflict, merged otherwise |
| `SessionStore.LiveSession.MergeAt` | backend/core/session_store.py:1013-1031 | the merge in place, field version by field version, equals `Merge` and touches only that annotation |
| `SessionStore.LiveSession.DeleteAnnotation` | backend/core/session_store.py:1032-1050 | a delete removes every copy, remembers the id within the bound, and logs what it removed |
| `SessionStore.LiveSession.ChangeMembership` | backend/core/session_store.py:1051-1068 | membership changes only on an existing group, without a version |
| `SessionStore.Unite` | backend/core/session_store.py:474-481 | the loop over `seen` is order-preserving union |
| `SessionStore.LiveSession.OpsAfter` | backend/core/session_store.py:1139-1159 | the catch-up query returns what `OpsSince` says |
| `SessionStore.LiveSession.FindLatestUndoable` | backend/core/session_activity.py:133-148 | the scan from the end finds the newest eligible record |
| `SessionStore.LiveSession.Restore` | backend/core/session_manager.py:926-935 | a rollback puts back everything but the memory of deleted ids |
| `Lists.UnionFacts` | backend/core/session_store.py:474-481 | union holds exactly the items of both lists, extends the first, and repeats nothing |
| `Lists.RemoveAllFacts` | backend/core/session_store.py:484-486 | removal keeps exactly the other items, and repeats nothing |
| `Lists.SortedSetFacts` | backend/core/session_store.py:733-735 | the canonical id list is ascending and has exactly the given items |
| `Lists.UnionAppends` | backend/core/session_store.py:474-481 | a union leaves the old list in front and adds the new items in the order they come, each once |
| `Lists.SelectKeeps` | backend/core/session_store.py:484-486 | a removal keeps every other item, as often as before and in order |
| `OpLaws.NodesAddedIs` | backend/core/session_store.py:696-699 | adding nodes appends exactly the new ids, in order and once each, and changes nothing else |
| `OpLaws.NodesRemovedIs` | backend/core/session_store.py:700-712 | removing nodes takes their ids out of the refs, the positions, the hidden and dimmed nodes and every list of members, keeps the rest in order, and changes nothing else |
| `OpLaws.FlagSetIs` | backend/core/session_store.py:731-743 | hiding and dimming append exactly the ids that were not in that one list |
| `OpLaws.FlagClearedIs` | backend/core/session_store.py:744-756 | showing and undimming take the ids out of that one list and keep the rest in order |
| `OpLaws.IntensitySetIs` | backend/core/session_store.py:857-868 | the intensity is the given one, or the nearer end of [0,1] |
| `OpLaws.GroupMembershipIs` | backend/core/session_store.py:1051-1068 | membership changes on the group of that id, to the given members in order, and nothing else but its time; no group is an error |
| `OpLaws.CreatedIs` | backend/core/session_store.py:869-967 | when a create is refused, dropped, merged or appended, and every field of what it appends |
| `OpLaws.UpdatedIs` | backend/core/session_store.py:968-1031 | when an update is refused, dropped or merged; a conflict names exactly the patched fields that moved after the base version |
| `OpLaws.DeletedIs` | backend/core/session_store.py:1032-1050 | a delete removes every annotation of the id it names and remembers the newest two hundred ids |
| `OpLaws.TargetIs` | backend/core/session_manager.py:321-357 | an op is checked against the lease of exactly the existing annotation it names |
| `OpLaws.RecordIs` | backend/core/session_store.py:1102-1131 | the log gains one record of an attributed op exactly when the op is worth one, and the record tells the truth about its target before and after |
| `OpLaws.PruneIs` | backend/core/session_activity.py:101-119 | retention leaves of the records young enough exactly the newest, up to the cap |
| `SessionFacts.OpKeepsStoreOk` | backend/core/session_store.py:659-1133 | every applied op keeps the session well formed: unique annotation ids within the limit, field versions up to the version, lists without duplicates, intensity in [0,1], invertible records, a contiguous ring that ends at seq |
| `SessionFacts.AnnotationsAfter` | backend/core/session_store.py:869-1068 | what each op does to every annotation, id by id |
| `SessionFacts.UntargetedUnchanged` | backend/core/session_manager.py:321-357 | an op changes no annotation but the one it targets, apart from members that a node removal drops |
| `SessionFacts.LifetimeStep` | backend/core/session_store.py:1013-1031 | while an annotation lives its type is fixed and each content change raises its version by exactly one |
| `SessionFacts.DeletedStaysGone` | backend/core/session_store.py:220-222 | without undo, a deleted id does not come back before as many further deletes as the memory has room for |
| `SessionFacts.OpsSinceExact` | backend/core/session_store.py:1139-1159 | catch-up gives exactly ops since+1 to seq, and none at all exactly when op since+1 is no longer held |
| `SessionFacts.PruneKeepsTail` | backend/core/session_activity.py:101-119 | pruning keeps the newest records in order, up to the cap, when they are young enough |
| `Replica.FoldMatchesServerIff` | frontend/web/src/services/sessionSyncClient.js:312-409 | folding the broadcast form of any applied op into a mirror of the document before gives a mirror of the document after if and only if the op carries no empty id, or moves it nowhere |
| `Versions.RefusedIffFieldMoved` | backend/core/session_store.py:983-1011 | a patch that names a base version of this lifetime is refused if and only if a field it changes took another value after that version |
| `Versions.NoLostUpdate` | backend/core/session_store.py:983-1011 | every field a committed patch changes still had its base-version value just before |
| `Versions.DisjointPatchesCommute` | backend/core/session_store.py:983-1021 | two patches from one base on disjoint fields both commit in either order, with the same content and version |
| `Versions.HistoryChain` | backend/core/session_store.py:1013-1021 | along every chain of committed steps the field versions tell the truth about the contents at each version |
| `Undo.LatestUndoable` | backend/core/session_activity.py:133-148 | the newest record of the actor that is not undone; none exactly when there is none |
| `Undo.UndoRestores` | backend/core/session_manager.py:1694-1752 | a successful undo restores its target, leaves everything else alone, adds no record, marks only its own, and leaves the actor one fewer to undo and everybody else as many |
| `Undo.UndoSucceedsIff` | backend/core/session_manager.py:1694-1749 | exactly when an undo succeeds, for every state, actor and lease snapshot: an eligible record, its target as the action left it, nobody else's lease; for a deletion, room and an id remembered at most once; for a creation, an id that is not empty |
| `Undo.EmptyIdCreationNotUndone` | backend/core/session_store.py:1032-1035 | the failing input: an annotation created under the empty id, which ingest accepts, cannot be undone, since the delete that would undo it is refused |
| `Undo.RetriedDeleteBlocksUndo` | backend/core/session_manager.py:1721-1727 | a delete that is sent twice cannot be undone: its id is remembered twice and forgotten once |
| `Undo.InverseRestores` | backend/core/session_store.py:713-1100 | the stored inverse of every kind of record restores what it touched and nothing else |
| `UndoStack.UndoStackLaw` | backend/core/session_manager.py:1694-1752 | after any run of one actor's moves, layouts, hiding, dimming and intensity changes, k undos of records still in the log never conflict and show the document k recorded actions earlier |
| `UndoStack.UndoStackWithinRetention` | backend/core/session_activity.py:101-119 | the same with retention resolved: within the record cap and the age limit any k up to the number of recorded actions works |
| `UndoStack.UnrecordedKeepsDoc` | backend/core/session_store.py:731-868 | an op of this kind that logs nothing has changed nothing |
| `BatchFacts.WalkFacts` | backend/core/session_manager.py:855-890 | a batch that walks through numbers its ops consecutively, leads from document to document by folding them, and changes nothing when it has no state op |
| `BatchFacts.FailedBatchLeavesNoTrace` | backend/core/session_manager.py:926-935 | a batch that fails before its save leaves everything as it was, but for the ids of the deletes it had applied, which stay in the deleted memory |
| `BatchFacts.RolledBackDeleteBlocksUpsert` | backend/core/session_manager.py:926-935 | the exception shows: after a failed batch that deleted an annotation, the annotation is there but an upsert of it is dropped |
| `BatchFacts.LeasedAnnotationSurvives` | backend/core/session_manager.py:878-885 | a batch leaves an annotation that another client has leased as it was, apart from dropped members |
| `BatchFacts.LeasedAnnotationSurvivesSync` | backend/core/session_manager.py:1761-1787 | so does every synchronous writer, and the lease stays |
| `BatchFacts.LeasedAnnotationSurvivesUndo` | backend/core/session_manager.py:1715-1719 | so does undo, and the lease stays |
| `BatchFacts.BatchLeasesHold` | backend/core/session_manager.py:980-1025 | what a batch decided about leases when it walked, its commit does, id by id, whatever expired and whoever left during the save |
| `Atomicity.BatchLeasesHoldInRuns` | backend/core/session_manager.py:845-876 | over every run from a batch's walk to its commit: all leases the walk granted are granted, and who holds what in the end is what the batch's lease ops make of the holders at its start, taken one by one |
| `Atomicity.AcquiredIsHeld` | backend/core/session_manager.py:857-876 | over every such run: an id that nobody else held when the batch started and that it acquires last is the client's after the commit, and one that it releases last is nobody's |
| `Leases.AcquireLaw` | backend/core/session_manager.py:857-869 | an acquire is granted exactly the asked ids that nobody else holds, each once and in order; the working copy gains exactly those; the answer names the holder of every other |
| `Leases.ReleaseLaw` | backend/core/session_manager.py:870-876 | a release gives back exactly the asked ids the client holds, each once and in order, and the working copy loses exactly those |
| `Leases.WorkAllIs` | backend/core/session_manager.py:857-876 | the working copy after any lease ops, id by id: an acquire takes what is free, a release frees what the client holds |
| `Leases.LeaseOutcome` | backend/core/session_manager.py:980-1025 | whatever expired or departed during the save, a lease that is left is what the ops make of it, and an id they speak of that nobody else held is held exactly so |
| `BatchFacts.CommitKeepsOthersLeases` | backend/core/session_manager.py:980-1025 | committing one client's entries displaces no other client's live lease |
| `Leases.LeaseMap.Acquire` | backend/core/session_hub.py:359-384 | acquires or renews exactly what nobody else holds live, and reports the holders of the rest |
| `Leases.LeaseMap.Release` | backend/core/session_hub.py:386-399 | releases exactly the asked ids this client holds, each once |
| `Leases.LeaseMap.ReleaseAll` | backend/core/session_hub.py:401-408 | releases everything of one client and nothing else |
| `Leases.LeaseMap.Snapshot` | backend/core/session_hub.py:410-415 | prunes what has expired and gives the holders of the rest |
| `Leases.ClaimMap.Claim` | backend/core/session_hub.py:282-296 | claims every id, whoever held it |
| `Leases.ClaimMap.Release` | backend/core/session_hub.py:298-311 | releases exactly the ids this client holds, in order, each once |
| `Leases.ClaimMap.ReleaseAll` | backend/core/session_hub.py:313-320 | releases everything of one client and nothing else |
| `Leases.ClaimMap.Snapshot` | backend/core/session_hub.py:322-327 | prunes what has expired and gives the holders of the rest |
| `Leases.AcquireNeverDisplaces` | backend/core/session_hub.py:359-408 | no call by one client ends or moves another's live lease |
| `Leases.SimulationRefinesMap` | backend/core/session_manager.py:845-876 | every id the walk granted is granted at commit, and on every id the batch settled the real holder is the simulated one, after any expiries and departures in between |
| `Leases.WalkKeepsOthers` | backend/core/session_manager.py:857-876 | the walk never takes an id from another client |
| `Manager.SimulateAcquire` | backend/core/session_manager.py:857-869 | the loop over the working copy grants what is free or the client's, each once, and names the holders of the rest |
| `Manager.SimulateRelease` | backend/core/session_manager.py:870-876 | the loop over the working copy gives back what the client holds, each once |
| `Presence.PresenceRegistry.AssignColor` | backend/core/session_hub.py:196-207 | the round-robin scan is `NextColor` |
| `Presence.PresenceRegistry.JoinRoom` | backend/core/session_hub.py:209-225 | a join keeps a present member's colour, counts the connection, and names a guest |
| `Presence.PresenceRegistry.LeaveRoom` | backend/core/session_hub.py:227-251 | a leave reports the member only when it closes the last connection |
| `Presence.RosterIsWhoIsConnected` | backend/core/session_hub.py:209-251 | after any joins and leaves a client is on the roster exactly when it has an open connection |
| `Presence.DepartsWithLastConnection` | backend/core/session_hub.py:227-251 | a close reports a departure exactly when it closes the last connection |
| `Presence.NewJoinerColorUnused` | backend/core/session_hub.py:196-207 | a new joiner gets an unused colour whenever one of the ten is free |
| `Presence.ColorsStayDistinct` | backend/core/session_hub.py:196-251 | as long as at most ten clients are connected, no two share a colour |
| `Presence.NextColorIs` | backend/core/session_hub.py:196-207 | the colour is the first free one going round from the cursor, and with none free the one at the cursor, which moves just past it |
| `Presence.RosterNames` | backend/core/session_hub.py:209-251 | after any joins and leaves whoever is on the roster is there under the name of the latest join |
| `EventBus.InProcessEventBus.PublishToSubscriber` | backend/core/session_hub.py:133-145 | a full queue is emptied and holds only the marker; any other gets the event at its end |
| `EventBus.InProcessEventBus.Publish` | backend/core/session_hub.py:147-169 | every subscriber gets the event by that rule |
| `EventBus.InProcessEventBus.Drain` | backend/core/session_hub.py:172-177 | draining empties one queue |
| `EventBus.LossesAreMarked` | backend/core/session_hub.py:133-145 | in what a subscriber sees there is no silent gap: two neighbouring events were published one after the other, and every loss has a marker in its place |
| `EventBus.LostOnlyWhenFull` | backend/core/session_hub.py:133-145 | no line grows beyond its bound; an event is lost only when one finds the line full; until then everything published is there, once and in order |
| `Manager.SessionManager.WalkBatch` | backend/core/session_manager.py:855-890 | the loop over a batch's ops, with working leases and pending entries, is `Walk`, failures included |
| `Manager.SessionManager.BeginBatch` | backend/core/session_manager.py:811-925 | up to its await, a batch makes exactly the step `BeginBatch` of the state machine |
| `Manager.SessionManager.CommitEntry` | backend/core/session_manager.py:945-1025 | one pending entry has exactly its lease or claim effect and its broadcast |
| `Manager.SessionManager.CommitPending` | backend/core/session_manager.py:937-1025 | the pending entries are carried out in arrival order |
| `Manager.SessionManager.CommitBatch` | backend/core/session_manager.py:937-1027 | after its save a batch makes exactly the step `CommitBatch` |
| `Manager.SessionManager.RollBack` | backend/core/session_manager.py:926-935 | after a failed save a batch makes exactly the step `RollBack` |
| `Manager.SessionManager.LeaseConflict` | backend/core/session_manager.py:1761-1787 | the holder in the way of an op, if its target is leased by another |
| `Manager.SessionManager.ApplyOpSync` | backend/core/session_manager.py:1789-1851 | apply, save and publish, or everything as before but for the deleted memory |
| `Manager.SessionManager.SyncWrite` | backend/core/session_manager.py:1435-1504 | a synchronous writer is answered busy while a batch holds the lock and not found when the session is gone; otherwise prune, lease check, op, save and publish make the `SyncWrite` step |
| `Manager.SessionManager.UndoLastAction` | backend/core/session_manager.py:1694-1759 | an undo is answered busy while a batch holds the lock and not found when the session is gone; otherwise it makes the `UndoAction` step, with its two saves |
| `Manager.SessionManager.DeleteSession` | backend/core/session_manager.py:614-640 | a delete that has the lock drops the session and its file and, if there was one, tells the subscribers |
| `Manager.SessionManager.DeleteSessionSync` | backend/core/session_manager.py:703-724 | a synchronous delete does that, and during a batch's save does nothing and answers busy |
| `Manager.SessionManager.Connect` | backend/core/session_manager.py:1865-1877 | subscribes before it publishes the join, so the joiner sees its own |
| `Manager.SessionManager.Disconnect` | backend/core/session_manager.py:1879-1920 | unsubscribes, and on the last connection releases and announces |
| `Manager.SessionManager.CatchUp` | backend/core/session_manager.py:1922-1952 | hands out the missed ops, or the session with every field as it is held, lock or no lock, or says that there is none |
| `Answers.CatchUpIs` | backend/core/session_manager.py:1922-1952 | the ops after the client's seq, none missing, when the ring has them all; the whole session otherwise and for a newcomer; nothing when it is gone |
| `Answers.BatchAnswers` | backend/core/session_manager.py:845-890 | what each op of a batch is answered, in order: the applied op, the selection, the ids granted or given back and the holders of the rest as the earlier ops left them |
| `Answers.WalkFailsIff` | backend/core/session_manager.py:855-890 | a batch fails in memory if and only if one of its ops is refused or aimed at an annotation leased to somebody else, with that op's error |
| `Answers.CommitAnswers` | backend/core/session_manager.py:937-1027 | after the save the answer lists what was done, and every subscriber is told of it, one event an entry, in order |
| `Answers.ConnectTells` | backend/core/session_manager.py:1865-1877 | a new line starts empty, and everybody, the newcomer included, is told who joined |
| `Answers.DisconnectTells` | backend/core/session_manager.py:1879-1920 | a close tells nobody unless it is the client's last; then the others hear of the freed claims, the freed leases and the departure |
| `TokenBucket.Limiter.ConsumeTokens` | backend/core/session_manager.py:298-310 | one call refills, caps, takes or refuses, after the periodic sweep, as `TokenBucket.PlainIsExact` and `TokenBucket.ExactIff` describe it |
| `TokenBucket.Limiter.EvictIdle` | backend/core/session_manager.py:312-318 | the sweep drops exactly the entries older than the idle limit from both dictionaries |
| `TokenBucket.EvictionUnobservableIff` | backend/core/session_manager.py:272-318 | the evicting bucket answers every monotone call sequence like one that never evicts if and only if an idle client refills completely |
| `TokenBucket.BoundedIff` | backend/core/session_manager.py:272-318 | in no window does a client get more than one full bucket plus its refill, for every call sequence, if and only if an idle client refills completely |
| `TokenBucket.PlainIsBounded` | backend/core/session_manager.py:298-310 | without eviction that bound holds for every capacity, refill and window |
| `TokenBucket.PlainIsExact` | backend/core/session_manager.py:298-310 | without eviction a call is refused if and only if in some window up to it the client would get more than one full bucket and the refill |
| `TokenBucket.ExactIff` | backend/core/session_manager.py:272-318 | the evicting bucket refuses exactly those calls, for every monotone sequence, if and only if an idle client refills completely |
| `TokenBucket.CheatWorks` | backend/core/session_manager.py:312-318 | otherwise two full buckets are granted within one pause, where the plain bucket refuses |
| `GraphStorage.GraphStorage.Load` | backend/core/storage.py:375-448 | whatever is stored, the last node or edge of an id wins; dictionaries, index and cache agree if and only if no stored edge lacks an end and edges of one id join the same nodes |
| `GraphStorage.GraphStorage.AddNodes` | backend/core/storage.py:682-839 | whichever way it ends, nodes, edges, index and cache agree and are what `AddAll` says |
| `GraphStorage.GraphStorage.NameToId` | backend/core/storage.py:736-739 | the name dictionary gives a name its last bearer |
| `GraphStorage.GraphStorage.LinkWith` | backend/core/storage.py:741-783 | resolving ends by id, then by name, and the refusals, in the code's order |
| `GraphStorage.GraphStorage.AddEdge` | backend/core/storage.py:1469-1528 | one edge goes in between its resolved ends, or the store stays as it was |
| `GraphStorage.GraphStorage.UpdateNode` | backend/core/storage.py:841-1015 | the edit's four ends; an edit refreshes the text and leaves every edge and the order alone |
| `GraphStorage.GraphStorage.SetNodesArchived` | backend/core/storage.py:1017-1066 | exactly the found nodes whose flag differs change, and no text does |
| `GraphStorage.GraphStorage.UpdateEdge` | backend/core/storage.py:1259-1314 | an edge changes its type and caption, or nothing does; the index stays in agreement |
| `GraphStorage.GraphStorage.SetEdgesArchived` | backend/core/storage.py:1316-1362 | exactly the named edges get the flag; the index stays in agreement |
| `GraphStorage.GraphStorage.DeleteEdge` | backend/core/storage.py:1364-1414 | the edge leaves dictionary and index together |
| `GraphStorage.GraphStorage.DeleteEdges` | backend/core/storage.py:1416-1467 | exactly the named edges that exist go, each reported once |
| `GraphStorage.GraphStorage.DropNode` | backend/core/storage.py:1110-1138 | one node goes with exactly the edges at it, from all four structures |
| `GraphStorage.GraphStorage.DeleteNodes` | backend/core/storage.py:1068-1185 | at most ten, confirmed: exactly the named nodes and the edges at them go, each reported exactly once |
| `GraphStorage.GraphStorage.GetIncidentEdges` | backend/core/storage.py:1530-1556 | the edges read off the index are those a scan of all edges finds |
| `GraphStorage.GraphStorage.SearchNodes` | backend/core/storage_search.py:139-219 | search through the cache, complete or not, finds the nodes and terms that search without it finds, in insertion order, and keeps the cache right |
| `GraphStorage.AnyTermIsUnion` | backend/core/storage_search.py:176-205 | matching any term is matching one of them on its own |
| `GraphModel.AddAllFacts` | backend/core/storage.py:682-839 | an addition, even one that fails part-way, keeps the graph well formed and all that was in it; a success puts in every node as given and every edge between its resolved ends |
| `GraphModel.FailedAddLeavesNoTraceIff` | backend/core/storage.py:699-783 | a failed addition reports nothing added, and that is so exactly when its very first item was refused |
| `GraphModel.LinkIsLive` | backend/core/storage.py:742-783 | an edge that goes in has both ends among the nodes and a new id |
| `GraphLaws.LinkIs` | backend/core/storage.py:741-783 | an edge is accepted if and only if its ends stand for nodes, by id or else by the last name, its id is new and the rules allow it between their types |
| `GraphLaws.AddAllIff` | backend/core/storage.py:682-839 | an addition succeeds if and only if every node id is new and given once, and then every edge id is and every edge fits |
| `GraphLaws.NodesIn` | backend/core/storage.py:699-735 | the added nodes are in as given, in order, and nothing else has changed |
| `GraphLaws.NodesLoaded` | backend/core/storage.py:375-429 | loading takes each id once, in the order of its first node, and of the nodes of one id the last |
| `GraphLaws.EdgesLoaded` | backend/core/storage.py:431-437 | and of the edges of one id the last |
| `GraphLaws.HitIff` | backend/core/storage_search.py:139-219 | a search finds the nodes of the wanted types, archived ones only if asked for, in whose text one of the terms stands, and reports exactly those terms in order |
| `GraphLaws.FieldsSearched` | backend/core/storage_search.py:55-65 | a word stands in a node's text if and only if it stands in its name, description, summary, a tag, a subtype, an alias or the words for its type |
| `GraphLaws.ContainsIs` | backend/core/storage_search.py:190-196 | a term stands in a text if and only if it is a stretch of it |
| `Traversal.GetRelatedNodes` | backend/core/storage_search.py:280-352 | the layered search returns exactly `RelatedNodes` and `RelatedEdges`, for every depth |
| `Traversal.Expand` | backend/core/storage_search.py:316-345 | one layer visits all neighbours of its nodes and crosses all admissible edges at them |
| `Traversal.VisitOut` | backend/core/storage_search.py:317-330 | the outgoing half: the type, archive and neighbour filters in the code's order |
| `Traversal.VisitIn` | backend/core/storage_search.py:332-345 | the incoming half |
| `Traversal.RelatedIsReachability` | backend/core/storage_search.py:280-352 | the returned nodes are those that an admissible path of at most depth hops reaches, the returned edges those that continue a shorter path |
| `Traversal.BallIsReachability` | backend/core/storage_search.py:280-352 | layers and paths agree at every depth |
| `Traversal.RelatedGrows` | backend/core/storage_search.py:280-352 | a greater depth loses no node and no edge |
| `Traversal.NoArchivedNode` | backend/core/storage_search.py:304-311 | no archived node but the anchor is visited unless asked for |
| `GraphLaws.ReachIs` | backend/core/storage_search.py:280-352 | step by step: from the anchor alone, each step adds the edges of a wanted type, archived ones only if asked for, at a node reached before that lead to a node one may visit, and the nodes they lead to |
| `Migrator.Migrator.RetypeNodes` | scripts/migrate_stat_metadata_metaplus.py:332-389 | every instance variable becomes a variable that says what it was; every code list that is declared or marked becomes a declared classification, a version or a series, without the marker; every other node and field stays |
| `Migrator.Migrator.OrderCodes` | scripts/migrate_stat_metadata_metaplus.py:185-200 | deduplicating the entries keeps the first of each code, in order |
| `Migrator.Migrator.CollectItems` | scripts/migrate_stat_metadata_metaplus.py:202-220 | the items found by code are the classification's links, in edge order |
| `Migrator.Migrator.CreateAndUpdate` | scripts/migrate_stat_metadata_metaplus.py:222-277 | updates and creations in place equal the refreshed nodes followed by the new items and links |
| `Migrator.Migrator.RemoveUnwanted` | scripts/migrate_stat_metadata_metaplus.py:279-306 | the removals drop exactly the doomed items and every edge at them |
| `Migrator.Migrator.SyncItems` | scripts/migrate_stat_metadata_metaplus.py:154-306 | one parent's pass in place is `Sync` |
| `Migrator.Migrator.Migrate` | scripts/migrate_stat_metadata_metaplus.py:309-421 | the script makes `Migrated`, on graphs with shared items too, and its validation passes; nodes that are no items are retyped and otherwise stay; where items are not shared every readable classification has exactly the items its codes ask for |
| `MigrationFacts.MigrationConverges` | scripts/migrate_stat_metadata_metaplus.py:309-421 | migrating twice gives the graph of migrating once |
| `MigrationFacts.MigrationDelivers` | scripts/migrate_stat_metadata_metaplus.py:154-421 | a migrated graph has unique ids and no dangling edge, every readable classification has an up-to-date item for each wanted code and no generated one for an unwanted code, and no authored node is touched |
| `MigrationFacts.SyncedAfter` | scripts/migrate_stat_metadata_metaplus.py:154-306 | a pass brings its own classification in step with its codes |
| `MigrationFacts.OthersStaySynced` | scripts/migrate_stat_metadata_metaplus.py:154-306 | and leaves in step every other that was |
| `MigrationFacts.SyncedIsFixed` | scripts/migrate_stat_metadata_metaplus.py:222-306 | a classification in step is left alone |
| `MigrationFacts.ReadyAfter` | scripts/migrate_stat_metadata_metaplus.py:154-306 | a pass keeps ids unique, edges whole, items unshared and the derived ids still to come free |
| `MigrationFacts.AuthoredStays` | scripts/migrate_stat_metadata_metaplus.py:279-290 | a pass rewrites and removes nothing but generated items |
| `MigrationLaws.MigrationIs` | scripts/migrate_stat_metadata_metaplus.py:309-421 | a migrated graph in its own terms: retyped nodes, the items that the code lists ask for under their labels and places, and what people wrote |
| `MigrationLaws.InStepMatches` | scripts/migrate_stat_metadata_metaplus.py:222-306 | each listed code has its first linked item, named and placed after its first entry if it is generated, and no generated item stands under another code |
| `MigrationLaws.OrderedIs` | scripts/migrate_stat_metadata_metaplus.py:185-200 | a code is wanted at the place of its first entry among the distinct codes, under that entry's label or the code itself |
| `MigrationLaws.PassMakes` | scripts/migrate_stat_metadata_metaplus.py:222-277 | whatever is there after a pass was there, but for a generated item's name and place, or is a made item or link of one of the parent's codes, every field of it given |
| `MigrationLaws.PassKeeps` | scripts/migrate_stat_metadata_metaplus.py:279-306 | exactly the generated items under unlisted codes go, and with them exactly the edges that lose an end |
| `MigrationExact.MigrationConvergesIff` | scripts/migrate_stat_metadata_metaplus.py:154-421 | for graphs with shared items too: migrating twice gives the graph of migrating once if and only if, in the graph before, no classification loses to a later one the last item of a code it wants, and every item that stays has its last word on name and place |
| `MigrationExact.UnsharedSettles` | scripts/migrate_stat_metadata_metaplus.py:154-421 | graphs without shared items meet that condition |
| `MigrationExact.LostItemDoesNotConverge` | scripts/migrate_stat_metadata_metaplus.py:279-306 | wherever a classification's only items of a wanted code are unwanted by later ones, the first migration removes them and the second makes one anew |
| `MigrationExact.TracksAll` | scripts/migrate_stat_metadata_metaplus.py:154-306 | how far the passes have come, said of the graph before: which items are gone, what the others are called, which links each classification has, and which items were made |
| `Migration.OrderedDistinct` | scripts/migrate_stat_metadata_metaplus.py:185-200 | the wanted codes are exactly the readable ones, without repetition |
| `Annotations.BuildAnnotation` | backend/core/session_annotations.py:742-795 | a built annotation reads back as it was asked for, and is refused exactly on reserved or invalid content |
| `Annotations.BuildAnnotationPatch` | backend/core/session_annotations.py:854-919 | committing a patch, of whatever is stored, slides the content under a move and leaves everything unnamed; it shows exactly what its arguments ask for if and only if the stored size agrees with the shown one in a dimension that a resize leaves out |
| `Annotations.PointsSlide` | backend/core/session_annotations.py:798-852 | exactly the objects with two numbers x and y move, by the shift, and keep their other entries |
| `Annotations.TranslateLineEndpoints` | backend/core/session_annotations.py:798-820 | exactly the ends that are points, slid |
| `Annotations.TranslateFreehandPoints` | backend/core/session_annotations.py:823-852 | the list with its points slid and the rest kept, and nothing when there is no point |
| `Annotations.SlidIsMerge` | backend/core/session_annotations.py:899-901 | merging both translations over the content is sliding the content |
| `Annotations.MovesComposeAndReverse` | backend/core/session_annotations.py:854-962 | two moves show what the direct move shows, and a move back what was there, but for the bookkeeping |
| `Annotations.MovesCompose` | backend/core/session_annotations.py:798-852 | sliding twice is sliding by the sum, on every content |
| `Annotations.MoveIsRigid` | backend/core/session_annotations.py:798-852 | the difference between any two points of the content survives a move |

## Left out

- Several sessions in one manager: one session id and one incarnation of it are modelled. A rename or a join that makes a deleted session again starts another, where seq restarts, and a catch-up across the two is not modelled; nor is a delete whose removal of the file raises.
- Aliasing of annotation dictionaries: ring entries, pending entries and subscribers' events are immutable values, while the code keeps live dictionaries in them (and copies the ring shallowly for a rollback); nothing is said about an entry that changes after it was made.
- Guarantees.ReplicasConverge: compares documents without the annotations' `updated_at`, which a membership change sets on the server and does not send.
- Guarantees.ReplicasConverge: exempts a copy marked `stray`, which took a copy from a batch that failed or skipped an op with an empty id; EarlyCopies.EarlyCopyConvergesIff and Guarantees.OneWriteConvergesIff say exactly when that happens.
- EarlyCopies.EarlyCopyConvergesIff: speaks of runs in which the subscriber takes no further copy of an unsaved batch, and that save only ops its mirror takes over; both are the subject of other rows.
- SessionStore.LiveSession.ApplyStateOp: does not check the address and size of an image's pixel content, which is a check of one payload.
- Versions.NoLostUpdate: exempts `member_node_ids`, which changes without a version, and speaks of one lifetime of an annotation, since undoing a delete restarts its version at 1.
- Versions.RefusedIffFieldMoved: requires that the patch leaves `member_node_ids` alone, for the same reason.
- UndoStack.UndoStackLaw: views a missing position as the origin, which is where undo puts it, and the hidden and dimmed lists as sets.
- Replica.FoldMatchesServerIff: leaves the session name out, which the mirror does not carry, and models the browser's fold of remote ops; that a browser skips its own echoes, rounds coordinates and guards against out-of-order acknowledgements is not part of this model.
- Manager.SessionManager.SyncWrite: one writer stands for layout, node references, rename, and creating, updating and deleting annotations and group members; how each of them builds its op, and their revision checks, are not modelled, and `expected_revision` of undo is not either.
- Manager.SessionManager.CatchUp: prunes expired leases and claims, which the runs of `Protocol` leave to the next reader.
- Manager.SessionManager.BeginBatch: the byte budgets are one boolean, and the clock is read once per call; the envelope checks and the rate limit in front of a batch are not modelled.
- EventBus.InProcessEventBus.Publish: delivers on one event loop; publishing across loops, and the `needs_resync` flag that nothing reads, are left out.
- GraphStorage.GraphStorage.SearchNodes: gives the hits and their matched terms before ranking and the limit; trimming, splitting and capping the query happen before it, and case folding is a parameter.
- GraphLaws.FieldsSearched: is for a single word, and for a case folding that goes letter by letter.
- GraphStorage.GraphStorage.UpdateNode: building and validating the edited node, metadata patches included, is a parameter.
- GraphStorage.GraphStorage.UpdateEdge: takes the validated type and caption; edge metadata is left out.
- The index holds the same node and edge objects as the dictionaries; here it holds their ids, so an edit through a dictionary needs no second write.
- Migrator.Migrator.Migrate: requires unique ids, edges with both ends, and ids derived for items and links that are distinct and not in use for anything else; graphs on which the script aborts, the enrichment step and the report are not modelled.
- MigrationExact.MigrationConvergesIff: requires the same.
- Annotations.BuildAnnotationPatch: takes the annotation's type as resolved. Booleans as coordinates, which Python counts as numbers, are not numbers here.
- SessionModel.Merge: merges an annotation's entries as the store does, over one map; `Annotations.Merged` is the same `dict.update` over the envelope's fields, and no lemma ties the two representations together.
- Notes, groups and images: their own builders, attachment shapes and image address rules are single-branch checks.
- Equality is equality of JSON values; that Python holds `1`, `1.0` and `True` equal is not modelled.
- Cancellation of a task during its save, which bypasses the rollback: only raised exceptions are failures here.
- Floating point: amounts, coordinates and times are reals.
- Clock readings, random ids and derived hashes are inputs, new where the code relies on it.
- Files, locks, temporary names, embeddings, similarity scores, events to listeners, HTTP and MCP plumbing.
