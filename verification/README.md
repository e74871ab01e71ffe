# Durable authoring store: a Dafny model and its proofs

This project models the durable authoring store of `packages/authoring-core` and the pieces around it that
make promises about state. Each promise is proved for every input, every fault and every run, or the input that breaks
it is given together with the exact condition under which the code keeps it.

## How the system is modelled

**The disk** (`DurableDisk.dfy`). A map from canonical targets to cells, each a whole file or one whose writing was cut
short, and a second map for scratch files. Every primitive step (create, write, sync, rename, unlink, taking or giving
back locks) takes its outcome from a schedule: it happens, it fails without effect, or the process dies. A dead process
takes no further step, so whatever a method leaves when the process is dead is what a crash leaves: each postcondition of
a disk method speaks of every crash point at once. SHA-256 is taken to be injective, scratch tokens to be fresh.

The disk counts the steps that did not happen (`failed`). What each answer means is stated for every schedule, and so is
how many steps must have failed before it may be given: with no failing step every answer is determined, one failing step
never leaves a write half done, an apply is given up as indeterminate only after three. A scratch file's bytes count as
written once they are synced, `moved` and `made` are the directory entries not yet synced, and `held` the locks this process
holds: a canonical path is only ever changed under its lock, no call asks for a lock it holds, and each gives back what it
took.

**Atomic writes** (`AtomicWrite.dfy`). Staging, commit by renames, rollback from backups, clean-up.

**The apply journal** (`JournalModel.dfy`, `JournalProtocol.dfy`, `JournalOrder.dfy`, `JournalFiles.dfy`,
`ApplyJournal.dfy`, `JournalAvailability.dfy`, `ApplyTransaction.dfy`, `History.dfy`, `UndoStack.dfy`, `TwoStacks.dfy`,
`StackedDocuments.dfy`, `JournalExamples.dfy`). Records are parsed by the shape rules of the source. Two invariants are kept apart. A store is
*restorable* when its archive reads back, ids and orders are distinct and covered by the sequence, and an active entry comes
after everything completed with each of its documents at one of its two images. Every operation and every direct edit keeps
this at every point at which it may stop, and with it the cached undo candidate truthful. A store is *recoverable* when
besides the documents are the fold of the after-images of the completed entries, in order, over the initial documents, but
for those of an active entry (*settled* when nothing is active). Every journaled operation keeps that too; a direct edit
ends it, since no entry accounts for the edited bytes.

A run (`History.Run`) is any sequence of calls, each stopped anywhere, of direct edits while nothing is active, and of losses
of the sequence file.

**Proposals** (`JsonValues.dfy`, `JsonPointer.dfy`, `CanonicalJson.dfy`, `ProposeApply.dfy`,
`EditMeaning.dfy`, `ApplyService.dfy`). The
schema's parser, validator, serializer and differ are parameters used through stated laws: what parses is valid; validating
a value at most reorders its members (`packages/schemas/src/document.ts:144-246` rebuilds the object); the text of a valid
document parses back to it but for the sign of its zeros, which JSON text cannot hold; validating and serializing do not
look at that sign. What an edit does to a document is stated of the parsed texts alone, by reading at pointers.

**Locks** (`Locks.dfy`, `LockExamples.dfy`). Each process runs acquire, reclaim and both releases one file-system step at a
time; a run is any interleaving, with processes dying anywhere. A live owner is never judged stale. Reading a lock's token
and unlinking it is one step: between the two nobody else removes a live owner's lock.

**Beside the core**: the project migration (`ProjectMigration.dfy`), staging in the Git index with other writers acting
between any two steps (`GitStaging.dfy`), the desktop review session (`ReviewSession.dfy`), and the web shell's account panel
(`AccountPanel.dfy`) behind its operation queue (`OperationQueue.dfy`).

## Where the code does not keep a promise, and exactly when it does

- *Carrying an apply forward after a failed abort.* When clearing the active entry takes effect but is reported as failed,
  apply still moves the documents, with nothing active. A crash then leaves bytes that no log accounts for
  (`TornAbortLosesTheApply`, from a store in flight). The recovery is safe at every crash point if and only if the active
  file still names the entry (`RecoverySafeIffActive`). `ApplyDocuments` promises soundness, and `RunsStayRecoverable` the
  replay, under exactly that condition; that the store stays restorable needs no condition.
- *A refused apply may come back.* When writing the prepared entry takes effect but is reported as failed, apply refuses and
  has changed no document, but its entry is active. The next recovery that finishes carries a refused apply forward if and
  only if the active file names its entry, which is if and only if the files are those of the prepared entry
  (`RefusedApplyComesBack`); `RefusedApplyIsApplied` is an instance.
- *Abandoned redo entries.* Undone entries left behind by a later apply are offered again once that apply is undone
  (`AbandonedEntryComesBack`). n undos and n redos, however often cut short and recovered, give back the same documents, and
  the same records up to completion times, if and only if no such entry lies between the oldest entry undone and the newest;
  they give back the records to the letter if and only if besides every redo wrote the record that was there, which one
  finished by recovery need not (`UndosThenRedos`). In a run in which nothing is applied while something can be redone there
  never is an abandoned entry (`RunsAreTwoStacks`, `StacksAbandonNothing`), and without direct edits redo is available
  exactly while something is undone (`DocumentsFollowTheStacks`); n redos after n undos then exist (`RedosExist`) and none of
  them is ever refused (`RedoNeverSticks`).
- *A checked release that fails.* It unlinks while its set is still active, and keeps the set active when a directory sync
  fails afterwards. Another process can then lock the same target (`CheckedReleaseBreaksExclusion`). Two live sets on which
  no checked release was tried never share a target (`NoTwoLiveSetsShare`); of two that do, one has lost the target to a
  checked release of its own (`SharersLost`); and while the name is free a set that has lost a target can be joined there
  by any idle process (`LostTargetCanBeShared`). The ownership check tells: it passes if and only if the set still holds the target
  (`OwnershipHolds`).
- *A plain release of a lock that cannot be read* unlinks whatever has that name. That is safe if and only if it is the
  set's own file or one no live process holds (`BlindUnlinkSafeIff`), which it is unless a checked release was tried before.
- *Reclaiming a stale lock.* Comparing, judging and unlinking are separate steps in the code. Taken as one step, or apart
  with a second look before the unlink, they give exclusion (`NoTwoLiveSetsShare`). Taken apart without it, the unlink is
  safe if and only if the lock then under that name is not one a live process holds (`SplitUnlinkSafeIff`), and a run of four
  processes breaks exclusion (`SplitReclaimBreaksExclusion`).
- *Git staging among other writers.* A rolled-back answer leaves the captured index when nobody else wrote; otherwise it
  leaves what the others wrote. A refusal leaves the new index live if and only if it was published safely, reading the
  repository again threw, and clean-up and release succeeded (`Stage`); `RefusalLeavesNewIndex` is such a call.
- *The account panel.* Every tracked session other than the held one has a recorded failed revocation, after a granted
  sign-in, if and only if showing the new principal did not throw; after a sign-out always; after a refused sign-in or a
  refresh if and only if it was so before (`SubmitCredentials`, `Refresh`, `SignOutAll`, and over whole runs
  `QueuedPanel.End`). `ThrowingViewLosesSession` is the failing case.

## Model

| member | source | states |
|---|---|---|
| DurableDisk.Disk.Rename | packages/authoring-core/src/atomic-write.ts:948-951 | Moving a scratch file over a canonical path is one step, taken only under the lock of that path: it happens whole or not at all, and a dead process never does it |
| AtomicWrite.WriteDurableFile | packages/authoring-core/src/atomic-write.ts:144-155 | Exclusive creation, bytes, sync: the file is whole only once it is synced; success exactly if no step failed; a failure leaves nothing, or a partial file known to be created |
| AtomicWrite.StageAll | packages/authoring-core/src/atomic-write.ts:919-946 | Every plan's bytes are complete in its temporary file and every original complete in its backup, bytes and directory entries synced, before anything is committed; success exactly if no step failed; every scratch file of the call belongs to an item that will be cleared |
| AtomicWrite.CommitAll | packages/authoring-core/src/atomic-write.ts:948-955 | After any number of renames the committed targets hold their plans, the rest the originals, and the backups are still whole; success exactly if no step failed, and then no target waits for its directory to be synced |
| AtomicWrite.RollBackStep | packages/authoring-core/src/atomic-write.ts:984-1002 | Undoing one committed plan from its backup gives exactly the files with one plan fewer carried out |
| AtomicWrite.RollBack | packages/authoring-core/src/atomic-write.ts:982-1002 | A complete rollback gives back the files as they were, synced, and a rollback is complete unless one of its own steps fails; an incomplete one leaves each target wholly old or wholly new |
| AtomicWrite.CleanUpFailed | packages/authoring-core/src/atomic-write.ts:1004-1014 | After an incomplete rollback no backup is removed; scratch files of other calls never are; unless a step of its own fails the temporary files are gone, and after a complete rollback the backups |
| AtomicWrite.VerifyPreconditions | packages/authoring-core/src/atomic-write.ts:812-840 | Passes exactly if every plan's precondition holds and the ownership check happens, and names the first plan whose precondition does not |
| AtomicWrite.OverlayAt | packages/authoring-core/src/atomic-write.ts:860-1024 | In the files with all plans carried out each target holds its plan's bytes and every other path is unchanged |
| AtomicWrite.AtomicWriteAll | packages/authoring-core/src/atomic-write.ts:860-1024 | All or nothing: written means every plan in place and its precondition held; a conflict names the first plan whose precondition does not; every other answer but an incomplete rollback means unchanged files; at any crash each target is wholly old or new. One step must fail for busy or a rolled-back failure, two for an incomplete rollback; without a failure the answer is determined, and up to one failing step a write that is not carried out leaves no scratch file. Unless a rollback was incomplete no canonical path waits for a sync; only own scratch files change; locks are as before |
| AtomicWrite.AtomicWriteFile | packages/authoring-core/src/atomic-write.ts:842-858 | One file is as it was or holds the new bytes, which is known unless two steps failed; a conflict means its precondition does not hold |
| JournalModel.ImagesOfAt | packages/authoring-core/src/apply-journal.ts:432-445 | An entry's images hold exactly its documents, each at the text recorded for it |
| JournalModel.ParsesWhatIsWritten | packages/authoring-core/src/apply-journal.ts:247-359 | A journal record reads back as an entry exactly if it is the text written for that entry and the entry is well formed: another version or kind, an unknown key, a wrong hash, order or date is refused |
| JournalModel.ReplayExtends | packages/authoring-core/src/apply-journal.ts:602-610 | A newer entry extends the fold of the log by its after-images, and continues the log exactly if its before-images are what the log left |
| JournalModel.ReplayRetracts | packages/authoring-core/src/apply-journal.ts:1259-1308 | Putting the before-images back after the after-images gives the earlier documents |
| JournalProtocol.AdvanceKeeps | packages/authoring-core/src/apply-journal.ts:773-876 | A crash anywhere while an entry's documents move, its record is written and the active file is cleared leaves a recoverable store; the end is settled |
| JournalProtocol.FinishingSettles | packages/authoring-core/src/apply-journal.ts:851-876 | With all documents at one image and that image archived, clearing the active entry leaves documents equal to the replayed log |
| JournalProtocol.ReservedOrderIsNew | packages/authoring-core/src/apply-journal.ts:470-534 | The order reserved is above every archived order |
| JournalProtocol.SequenceLost | packages/authoring-core/src/apply-journal.ts:470-534 | Losing or corrupting the sequence file keeps the store recoverable |
| JournalProtocol.PreparingStarts | packages/authoring-core/src/apply-journal.ts:404-449 | A newly prepared entry over the documents as they are is in flight on top of the log |
| JournalProtocol.AbortingSettles | packages/authoring-core/src/apply-journal.ts:536-549 | An aborted apply whose documents were rolled back leaves the documents and the replay as they were |
| JournalProtocol.UndoingStarts | packages/authoring-core/src/apply-journal.ts:1200-1256 | In a settled store the newest completed entry's documents are at its after-images, and marking it undoing puts it in flight |
| JournalProtocol.RedoingStarts | packages/authoring-core/src/apply-journal.ts:1401-1452 | The next entry to redo, over its before-images, is in flight once marked redoing |
| JournalProtocol.AbortInterrupts | packages/authoring-core/src/propose-apply.ts:1058-1076 | Wherever a failed abort stops, the apply is interrupted and its entry is active, or nothing is active and the store is settled |
| JournalProtocol.InterruptedFinishes | packages/authoring-core/src/propose-apply.ts:1060-1069 | Carried all the way forward an interrupted apply settles, whether or not its entry was still active |
| JournalProtocol.RecoverySafeIffActive | packages/authoring-core/src/propose-apply.ts:1058-1076 | Carrying an interrupted apply forward is recoverable at every crash point if and only if the active file names the entry |
| JournalOrder.RecoverableIsRestorable | packages/authoring-core/src/apply-journal.ts:773-876 | A store that replays its log is in order |
| JournalOrder.PreparingIsOrderly | packages/authoring-core/src/apply-journal.ts:404-449 | A newly prepared entry is above everything archived, whatever the documents hold |
| JournalOrder.UndoingIsOrderly | packages/authoring-core/src/apply-journal.ts:1230-1256 | So is the newest completed entry above the others once it is marked undoing |
| JournalOrder.RedoingIsOrderly | packages/authoring-core/src/apply-journal.ts:1401-1452 | And the next entry to redo above everything completed once it is marked redoing |
| JournalOrder.AdvanceIsOrderly | packages/authoring-core/src/apply-journal.ts:773-876 | Every point on an entry's way keeps the journal in order, and its documents at its images while it is active |
| JournalOrder.AbortIsOrderly | packages/authoring-core/src/apply-journal.ts:536-549 | Any part of an abort keeps the journal in order |
| JournalOrder.FinishedIsLatest | packages/authoring-core/src/apply-journal.ts:451-468 | An entry carried forward is the newest completed one |
| JournalFiles.ActivatedView | packages/authoring-core/src/apply-journal.ts:239-245 | Writing the active file changes just the active entry of the store as read back |
| JournalFiles.ArchivedUnderItsName | packages/authoring-core/src/apply-journal.ts:551-593 | An entry is archived exactly when the record under its own id reads back as it |
| JournalFiles.RecordedView | packages/authoring-core/src/apply-journal.ts:227-237 | Writing an archive record replaces just the entry with that id, and keeps the archive readable |
| JournalFiles.AdvanceView | packages/authoring-core/src/apply-journal.ts:773-876 | Every file state on an entry's way reads back as the store state on its way |
| JournalFiles.OverlayMoves | packages/authoring-core/src/apply-journal.ts:826-832 | Carrying out an entry's plans puts exactly its documents at the chosen image |
| ApplyJournal.LatestCompleted | packages/authoring-core/src/apply-journal.ts:602-610 | Some completed entry of greatest order, and none only if no entry is completed |
| ApplyJournal.NextRedoIsNext | packages/authoring-core/src/apply-journal.ts:732-744 | The search over the archive finds the least undone order above every completed one exactly when there is one |
| ApplyJournal.MaxOrder | packages/authoring-core/src/apply-journal.ts:508-511 | The greatest archived order, or 0 |
| ApplyJournal.Journal.WriteJournal | packages/authoring-core/src/apply-journal.ts:227-237 | The record is written whole or not at all, and the cached candidate dropped exactly when the write succeeds; a failure means a step failed, one that took effect that two did |
| ApplyJournal.Journal.ReadJournals | packages/authoring-core/src/apply-journal.ts:551-593 | Lists exactly the archived entries, or refuses when any record is corrupt, misnamed or in progress |
| ApplyJournal.Journal.ReserveCompletionOrder | packages/authoring-core/src/apply-journal.ts:470-534 | Reserves the order after the sequence's value, or after every archived order when the sequence gives none; fails only if a step failed, the archive is unreadable or the orders are used up |
| ApplyJournal.Journal.Prepare | packages/authoring-core/src/apply-journal.ts:404-449 | Nothing is prepared over another active entry; the prepared entry is well formed, carries the planned documents and a newly reserved order, and no document has moved; refused without a failing step only if the orders are used up, refused with the entry active only after two |
| ApplyJournal.Journal.Complete | packages/authoring-core/src/apply-journal.ts:451-468 | Archive then clear, stopping at each step; failure means a step failed, failure with the entry cleared that two did; success leaves the entry in the cache, which stays truthful |
| ApplyJournal.Journal.Abort | packages/authoring-core/src/apply-journal.ts:536-549 | Archive as aborted without its order, then clear, stopping at each step; failure means a step failed, failure with the entry cleared that two did |
| ApplyJournal.Journal.RecoverJournalEntry | packages/authoring-core/src/apply-journal.ts:773-876 | Refuses untouched if a document is at neither image; otherwise moves all documents to one image, archives and clears, and every stopping point is on that way; anything but finishing means a step failed, and a refusal that moved a document, or an entry no longer active without finishing, that two did |
| ApplyJournal.Journal.RecoverIncompleteLocked | packages/authoring-core/src/apply-journal.ts:886-914 | Keeps the store restorable, and sound if it was, through any crash inside recovery; a recovery that finishes leaves nothing active; in a restorable store it finishes unless a step fails; with nothing active it changes nothing |
| ApplyJournal.Journal.RecoverIncompleteApplies | packages/authoring-core/src/apply-journal.ts:1038-1075 | The same under the store's lock, which is given back; it answers that another operation is in progress exactly when the lock was denied |
| ApplyJournal.HashTestPasses | packages/authoring-core/src/apply-journal.ts:781-818 | With each document at one of the entry's two images recovery's hash test never refuses |
| ApplyJournal.HashTestMeans | packages/authoring-core/src/apply-journal.ts:781-818 | Recovery touches an entry exactly if every one of its documents is there and wholly at one of the entry's two images, so it overwrites no foreign bytes |
| ApplyJournal.RecoveryRestores | packages/authoring-core/src/apply-journal.ts:886-914 | Every point of a recovery can be recovered from, also after direct edits |
| ApplyJournal.RecoveryKeeps | packages/authoring-core/src/apply-journal.ts:886-914 | Every point of a recovery can be recovered from, and its end is settled |
| ApplyJournal.FinishIsCached | packages/authoring-core/src/apply-journal.ts:451-468 | The entry a recovery carries forward is what a scan of the archive then finds newest, whatever the other documents hold |
| ApplyJournal.NextLatestIsCached | packages/authoring-core/src/apply-journal.ts:1230-1234 | After an undo the newest of the other entries, computed beforehand, is what a scan finds, in any restorable store |
| ApplyJournal.RedoIsCached | packages/authoring-core/src/apply-journal.ts:1466-1490 | After a redo the entry redone is what a scan finds newest, in any restorable store |
| ApplyJournal.CarrySound | packages/authoring-core/src/apply-journal.ts:1290-1343 | Every point an undo or redo may stop at is recoverable, and its end settled |
| ApplyJournal.CarryRestores | packages/authoring-core/src/apply-journal.ts:1290-1343 | Every point an undo or redo may stop at is restorable, also after direct edits |
| ApplyJournal.Reopen | packages/authoring-core/src/apply-journal.ts:193-200 | A new process on the files of one that died anywhere starts without a cache and with every invariant |
| ApplyJournal.Journal.Carry | packages/authoring-core/src/apply-journal.ts:1236-1348 | Common part of undo and redo: refuses untouched when a document is not where it must be; success means every document at the other image; a refusal leaves nothing active unless the documents could not be put back, and an entry left active without success means two steps failed; three must fail for a refusal that leaves the documents so |
| ApplyJournal.Journal.UndoEntry | packages/authoring-core/src/apply-journal.ts:1230-1348 | Undoes the given newest entry or stops at a restorable point with a truthful cache; refuses untouched when a document has moved; succeeds unless a step fails otherwise; a refusal leaves nothing active unless the documents could not be put back |
| ApplyJournal.Journal.UndoLastApply | packages/authoring-core/src/apply-journal.ts:1162-1356 | Success puts the newest completed entry's documents at their before-images, archives it undone and names those documents; every fault keeps store and cache in order, direct edits or not; without a failing step it succeeds if and only if undo is available, and otherwise the reason is the one the store gives. A refusal after recovery has finished leaves the store as recovered with nothing active, unless the documents could not be put back, which takes three failing steps; with at most one failing step nothing is active after any answer but success, so the next recovery changes nothing |
| ApplyJournal.Journal.RedoLastApply | packages/authoring-core/src/apply-journal.ts:1358-1503 | The same for the next entry to redo and its after-images; unless a recovery had to finish it, the record keeps its completion time |
| ApplyJournal.SettledCanUndo | packages/authoring-core/src/apply-journal.ts:702-730 | In a settled store with anything completed, undo has its documents where it needs them |
| ApplyJournal.LatestUnique | packages/authoring-core/src/apply-journal.ts:602-610 | With distinct orders the newest completed entry is unique |
| JournalAvailability.ReadLatestCompleted | packages/authoring-core/src/apply-journal.ts:676-700 | Served from the cache or by a scan, the answer is the undo candidate of the archive as it is now, and the cache then spares the next scan |
| JournalAvailability.CandidateDecidesUndo | packages/authoring-core/src/apply-journal.ts:612-628 | Testing the candidate's after-hashes decides exactly whether undo can run |
| JournalAvailability.OfferUndo | packages/authoring-core/src/apply-journal.ts:702-730 | In every state that operations and direct edits can leave, what is offered through the cache is what a scan of the whole store says of undo |
| JournalAvailability.OfferRedo | packages/authoring-core/src/apply-journal.ts:746-771 | What is offered is what a scan of the whole store says of redo, in every such state |
| ApplyTransaction.BegunIsInFlight | packages/authoring-core/src/propose-apply.ts:958-1019 | A prepared entry over documents that passed their preconditions is in flight |
| ApplyTransaction.CarryThrough | packages/authoring-core/src/propose-apply.ts:1028-1128 | Every branch after preparation: where each answer leaves files, journal and cache; a refusal leaves the abort finished. With the documents as planned a refusal means a step failed, an entry carried forward after its abort that two did, indeterminate that three did: write, rollback or abort, and recovery |
| ApplyTransaction.PrepareAndCarry | packages/authoring-core/src/propose-apply.ts:990-1128 | Preparation and all that follows, under the document locks: success unless a step fails or the orders are used up; refused with the entry active only after two failing steps |
| ApplyTransaction.ForwardSound | packages/authoring-core/src/propose-apply.ts:1028-1076 | Carrying an interrupted apply forward is recoverable at each point while its entry is active, and settled at its end in any case |
| ApplyTransaction.PointSound | packages/authoring-core/src/propose-apply.ts:930-1132 | Every point an apply may stop at is recoverable unless a failed abort had cleared the active entry |
| ApplyTransaction.PointRestores | packages/authoring-core/src/propose-apply.ts:930-1132 | Every point an apply may stop at is restorable, also after a failed abort that had cleared the active entry |
| ApplyTransaction.RefusedActive | packages/authoring-core/src/propose-apply.ts:1000-1027 | A refusal from an idle store leaves an entry active exactly if preparing it took effect |
| ApplyTransaction.RefusedApplyComesBack | packages/authoring-core/src/propose-apply.ts:1000-1027 | After a refused apply the next finished recovery applies it if and only if its entry is active, which is if and only if the files are those of the prepared entry; else no document has changed |
| ApplyTransaction.ApplyDocuments | packages/authoring-core/src/propose-apply.ts:930-1132 | Applied means every planned document holds its planned bytes, rejected means no document changed and says exactly when an entry is left active, indeterminate means a mix with the prepared entry still active; store and cache in order through every fault, sound under the active-file condition. Indeterminate takes three failing steps, a refusal of satisfied plans one; a conflict names the first document that is not as planned, and in progress means that nothing was touched |
| History.StepKeeps | packages/authoring-core/src/apply-journal.ts:886-914 | Each journaled operation, stopped anywhere, keeps the store recoverable |
| History.StepRestores | packages/authoring-core/src/apply-journal.ts:1077-1160 | Each operation and direct edit, stopped anywhere, keeps the store restorable |
| History.RunsStayRestorable | packages/authoring-core/src/apply-journal.ts:773-914 | In every run, direct edits and failed aborts included: records read back, hash tests pass, and with nothing active the next order is new |
| History.RunsStayRecoverable | packages/authoring-core/src/apply-journal.ts:427-448 | In every run without direct edits, and with aborts carried forward only while active, the documents are the replay of the completed log whenever nothing is active |
| History.RecoveryEnds | packages/authoring-core/src/apply-journal.ts:830-876 | A finished recovery leaves nothing active, every document at one image, and an archive record naming that image |
| History.RecoveryConverges | packages/authoring-core/src/apply-journal.ts:773-914 | However often a recovery is cut short, finishing it gives the files that finishing it at once would have given |
| UndoStack.UndoView | packages/authoring-core/src/apply-journal.ts:1290-1343 | A finished undo, read back from the files, is the undo of the store |
| UndoStack.RedoView | packages/authoring-core/src/apply-journal.ts:1453-1490 | A finished redo, read back from the files, is the redo of the store |
| TwoStacks.ApplyView | packages/authoring-core/src/propose-apply.ts:990-1128 | A finished or aborted apply, read back from the files, is that of the store |
| UndoStack.RedoReverts | packages/authoring-core/src/apply-journal.ts:732-744 | Redo after undo gives back the store unless an abandoned entry comes first |
| UndoStack.TimelessSettled | packages/authoring-core/src/apply-journal.ts:451-468 | Completion times play no part: a settled store stays settled with all of them put to one instant |
| UndoStack.UndosThenRedos | packages/authoring-core/src/apply-journal.ts:732-744 | n redos after n undos give back the documents, and the records but for completion times, if and only if no abandoned entry lies in between; and the records to the letter if and only if besides every redo wrote the record that was there |
| UndoStack.RedosExist | packages/authoring-core/src/apply-journal.ts:732-744 | After n undos with nothing abandoned there are n redos that give every record back as it was |
| UndoStack.RedoNeverSticks | packages/authoring-core/src/apply-journal.ts:746-771 | With nothing abandoned, and however the redos so far were finished, redo can go on until there are as many as undos |
| TwoStacks.PastTop | packages/authoring-core/src/apply-journal.ts:602-610 | Undo is offered exactly the top of the past stack |
| TwoStacks.FutureHead | packages/authoring-core/src/apply-journal.ts:732-744 | Redo is offered exactly the head of the future stack |
| TwoStacks.LandingAbstracts | packages/authoring-core/src/apply-journal.ts:732-744 | An entry between the two stacks lands on the top of the past or the head of the future, as its state says |
| TwoStacks.StepMirrors | packages/authoring-core/src/apply-journal.ts:602-610 | Each call, stopped anywhere, does nothing or what it is for: apply takes a new entry over an empty future, undo the top of the past, redo the head of the future, and lands it or not; recovery lands what is underway; nothing else moves anything |
| TwoStacks.RunsAreTwoStacks | packages/authoring-core/src/apply-journal.ts:602-610 | In every run, faults and direct edits included, in which nothing is applied while something can be redone, the archive is two stacks and each call moves them as that call should |
| TwoStacks.DoneUndoPops | packages/authoring-core/src/apply-journal.ts:1162-1356 | An undo that succeeds moves the top of the past to the head of the future |
| TwoStacks.DoneRedoPushes | packages/authoring-core/src/apply-journal.ts:1358-1503 | A redo that succeeds moves the head of the future to the top of the past |
| TwoStacks.DoneApplyPushes | packages/authoring-core/src/propose-apply.ts:1028-1132 | An apply that succeeds pushes its entry, also when a failed abort was carried forward |
| TwoStacks.DoneRecoveryLands | packages/authoring-core/src/apply-journal.ts:886-914 | A recovery that finishes lands exactly the entry underway, where its state says |
| StackedDocuments.DocumentsFollowTheStacks | packages/authoring-core/src/apply-journal.ts:702-771 | Without direct edits the documents are at every state the fold of the past, but for those of an entry underway; undo is available exactly when the past is not empty, redo exactly when the future is not, and recovery pending exactly when an entry is underway |
| StackedDocuments.StepKeepsReady | packages/authoring-core/src/apply-journal.ts:1401-1452 | Every call leaves each undone entry in turn with its before-images in place, on top of the past and the entries ahead of it |
| StackedDocuments.RunsStayReady | packages/authoring-core/src/apply-journal.ts:746-771 | So does every run without direct edits |
| StackedDocuments.NewStoreIsAtRest | packages/authoring-core/src/apply-journal.ts:551-593 | A store without journal files is settled, with both stacks empty |
| TwoStacks.RecoveredUndo | packages/authoring-core/src/apply-journal.ts:886-914 | An undo cut short anywhere and finished by recovery reads back as one that ran to its end |
| TwoStacks.RecoveredRedo | packages/authoring-core/src/apply-journal.ts:451-468 | A redo likewise, but for the completion time |
| TwoStacks.RecoveredApply | packages/authoring-core/src/apply-journal.ts:886-914 | An apply cut short while active, even while aborting, reads back as one that ran to its end |
| TwoStacks.FoldIsReplay | packages/authoring-core/src/apply-journal.ts:602-610 | Folding the past stack in order is the replay of the completed log |
| TwoStacks.StacksAbandonNothing | packages/authoring-core/src/apply-journal.ts:732-744 | Two stacks have no abandoned entry, so in such a history redos revert as many undos |
| JournalExamples.AbandonedEntryComesBack | packages/authoring-core/src/apply-journal.ts:732-744 | A concrete settled store in which undo then redo brings back an apply that had been abandoned |
| JournalExamples.TornAbortLosesTheApply | packages/authoring-core/src/propose-apply.ts:1058-1076 | A concrete failed abort of an apply in flight, whose carrying forward can leave bytes that no completed entry accounts for |
| JournalExamples.RefusedApplyIsApplied | packages/authoring-core/src/propose-apply.ts:1000-1027 | A concrete refused apply that the next recovery carries out |
| JsonPointer.TwoPassesAreOne | packages/authoring-core/src/json-pointer.ts:32-34 | On well-escaped tokens the two replacements equal decoding in one pass |
| JsonPointer.TokensOfPointer | packages/authoring-core/src/json-pointer.ts:36-49 | Every token list has a pointer from which it is read back |
| JsonPointer.PointerOfTokens | packages/authoring-core/src/json-pointer.ts:36-49 | A pointer is valid exactly as section 3 of RFC 6901 says, and is determined by its tokens |
| JsonPointer.IndexHasToken | packages/authoring-core/src/json-pointer.ts:81-101 | Every array position has exactly one index token |
| JsonPointer.ChildrenReached | packages/authoring-core/src/json-pointer.ts:66-111 | A token reaches exactly the elements of an array by position and the members of an object by key |
| JsonPointer.IndexTokensDiffer | packages/authoring-core/src/json-pointer.ts:81-91 | Different index tokens name different positions |
| JsonPointer.GetAtPointer | packages/authoring-core/src/json-pointer.ts:51-114 | The loop computes the value reached by following the tokens, or the kind of failure |
| JsonPointer.SetAtPointer | packages/authoring-core/src/json-pointer.ts:120-255 | The walk and write compute the document with just the value at the pointer replaced, or the kind of failure |
| JsonPointer.SetSucceedsIffGet | packages/authoring-core/src/json-pointer.ts:120-255 | Set succeeds exactly when get does, and fails in the same way |
| JsonPointer.LensLaws | packages/authoring-core/src/json-pointer.ts:51-255 | Get after set, set after get, set after set |
| JsonPointer.UnrelatedPointerUnchanged | packages/authoring-core/src/json-pointer.ts:120-255 | A pointer that is neither prefix nor extension sees no change |
| JsonPointer.PrefixSeesReplacement | packages/authoring-core/src/json-pointer.ts:120-255 | A prefix sees the same replacement made further down |
| JsonPointer.ReplacementKeepsValid | packages/authoring-core/src/json-pointer.ts:120-255 | Replacing a value by a valid one keeps a document valid |
| CanonicalJson.SortSorts | packages/authoring-core/src/json-invariants.ts:10-11 | Keys come out sorted by UTF-16 code units |
| CanonicalJson.SortedIsUnique | packages/authoring-core/src/json-invariants.ts:10-11 | There is one way to sort a set of keys |
| CanonicalJson.QuoteUnambiguous | packages/authoring-core/src/json-invariants.ts:12 | A quoted string and what follows it can be told from the text |
| CanonicalJson.Unambiguous | packages/authoring-core/src/json-invariants.ts:4-14 | A printed value and what follows it can be told from the text |
| CanonicalJson.EqualPrintAlike | packages/authoring-core/src/propose-apply.ts:121-152 | Values equal up to member order and the sign of zero print alike |
| CanonicalJson.SameTextIffEqual | packages/authoring-core/src/json-invariants.ts:4-14 | Equal canonical text if and only if equal by the comparison that apply uses |
| ProposeApply.UnsignedIsEqual | packages/authoring-core/src/propose-apply.ts:121-152 | Values differing only in the sign of zeros compare equal |
| ProposeApply.AlikeEdits | packages/authoring-core/src/propose-apply.ts:218-274 | Editing documents that differ only so fails on both or gives the same text |
| ProposeApply.ProposeMany | packages/authoring-core/src/propose-apply.ts:365-536 | The loops compute the fold of the edits over the working texts, with one diff per document; the first failing edit decides a refusal |
| ProposeApply.PlanApply | packages/authoring-core/src/propose-apply.ts:720-928 | The loops compute the grouped and checked plans |
| ProposeApply.CheckDiffs | packages/authoring-core/src/propose-apply.ts:869-928 | Accepts exactly one diff per planned document, under its own name and equal to the edits' own diff |
| ProposeApply.ChainIsEditRun | packages/authoring-core/src/propose-apply.ts:808-858 | Chaining succeeds exactly when each edit in turn finds the value it was proposed to replace |
| ProposeApply.PlanOneIff | packages/authoring-core/src/propose-apply.ts:757-866 | A document is planned exactly when it parses, has the bytes each edit was based on, and each edit finds its old value |
| ProposeApply.EditAgrees | packages/authoring-core/src/propose-apply.ts:808-858 | What proposing does to a document's text, applying does to the document |
| ProposeApply.ProposeSucceedsIff | packages/authoring-core/src/propose-apply.ts:365-536 | Several edits can be proposed exactly when each document takes its own edits one after the other |
| ProposeApply.ProposeThenApply | packages/authoring-core/src/propose-apply.ts:626-928 | A proposal over unchanged texts is never rejected and takes each document to the text of running its own edits directly, in order |
| ProposeApply.StaleIsRefused | packages/authoring-core/src/propose-apply.ts:790-806 | A proposal applied to later texts that still parse is planned just as proposed if and only if no document it names has changed, and else refused for a changed document |
| EditMeaning.EqualReadsAlike | packages/authoring-core/src/propose-apply.ts:121-152 | Documents equal by the comparison of apply give the same answer, and equal values, at every pointer |
| EditMeaning.LastSetReads | packages/authoring-core/src/json-pointer.ts:51-255 | Of values set one after the other each is read back where it was set, unless one set later is at or about the same place |
| EditMeaning.OthersRead | packages/authoring-core/src/json-pointer.ts:51-255 | A pointer apart from all those set reads what it read before |
| EditMeaning.EditSets | packages/authoring-core/src/propose-apply.ts:218-274 | An edit is refused for the first thing wrong with it; otherwise the text written parses to what validation makes of the document with the value set at the pointer |
| EditMeaning.EditReads | packages/authoring-core/src/propose-apply.ts:218-274 | Read back, the edited text has the new value at the pointer, and the old values at every pointer apart from it |
| EditMeaning.EditsSet | packages/authoring-core/src/propose-apply.ts:365-536 | Direct edits of one document one after the other give a text that parses to the document with their values set in turn |
| EditMeaning.SetsRead | packages/authoring-core/src/propose-apply.ts:365-536 | Read back, such a text has each value where it was set unless a later one is about the same place, and the old values elsewhere |
| EditMeaning.ProposedIsSet | packages/authoring-core/src/propose-apply.ts:365-928 | A proposal applied to the texts it was made from plans for each document a text that parses to it with the values asked for set in turn |
| EditMeaning.PlanSets | packages/authoring-core/src/propose-apply.ts:720-866 | Whatever proposal is planned, each document it names goes from its text on disk to one that parses to it with the proposal's values set in turn, and no other document is planned |
| EditMeaning.PlanIsExact | packages/authoring-core/src/propose-apply.ts:720-928 | Whatever proposal is planned, all its edits of a document use one name for it and were based on the text it has, and its diffs are just those of the plans, one for each, under those names |
| ApplyService.PlannedFits | packages/authoring-core/src/propose-apply.ts:860-866 | Planned documents are parsed texts under distinct names whose before-texts are on disk |
| ApplyService.Apply | packages/authoring-core/src/propose-apply.ts:626-1132 | Recover, plan, apply: applied means every document holds the planned text, which parses to its old document with the proposal's values set in turn, and names just the planned documents; store and cache stay in order; a plan that is made is carried out unless a step fails or the orders are used up, and indeterminate takes three failing steps |
| ApplyService.WriteCanonicalDocument | packages/authoring-core/src/apply-journal.ts:1077-1160 | One document is written outside the journal, only with nothing active and its precondition met; busy means a step failed, busy with the document changed that two did; the store stays restorable and the cache truthful |
| ApplyService.EditDirect | packages/authoring-core/src/propose-apply.ts:542-620 | On success the document holds the edited text, which parses to the old document with the value set at the pointer, and nothing else has moved; a refusal is for the first thing wrong with the edit; the store stays restorable and the cache truthful; without a failing step it succeeds if and only if the text takes the edit |
| ApplyService.OneEditIsDirect | packages/authoring-core/src/propose-apply.ts:280-363 | One edit can be proposed if and only if the document loads and takes the direct edit, and the proposal then plans that document alone, to the text the direct edit writes, with the value set at the pointer; a refusal differs from that of the direct edit only in looking at the pointer before the value |
| Locks.StepKeeps | packages/authoring-core/src/atomic-write.ts:589-704 | Every file-system step of every process keeps live owners' locks in place, lock sets whole until a checked release is tried, and tokens apart |
| Locks.UnlinkHeldKeeps | packages/authoring-core/src/atomic-write.ts:719-778 | A plain release unlinks exactly the released lock, also when its token cannot be read while the set still holds it |
| Locks.BlindUnlinkSafeIff | packages/authoring-core/src/atomic-write.ts:734-744 | Unlinking a lock that cannot be read is safe if and only if it is the released one or one no live process holds |
| Locks.CheckedUnlinkKeeps | packages/authoring-core/src/atomic-write.ts:719-778 | A checked release takes away a lock of its own set, or nothing |
| Locks.CheckedReleaseFrees | packages/authoring-core/src/atomic-write.ts:683-705 | It deactivates its set exactly if nothing failed and no name was left, and then no lock of the set is left |
| Locks.NoTwoLiveSetsShare | packages/authoring-core/src/atomic-write.ts:501-705 | In every interleaving with crashes, leftover reclaim links and both releases, no two live lock sets share a target unless a checked release was tried on one; compare, judge and unlink are one step, or separate with a second look |
| Locks.SharersLost | packages/authoring-core/src/atomic-write.ts:683-705 | Of two live sets that share a target one has lost it to a checked release of its own |
| Locks.LostTargetCanBeShared | packages/authoring-core/src/atomic-write.ts:683-705 | A live set that has lost a target can be joined on it by any idle process |
| Locks.OwnershipHolds | packages/authoring-core/src/atomic-write.ts:784-810 | The ownership check passes on a target if and only if the set still holds it, and then the file is its own; it always passes if no checked release was tried |
| Locks.AllOrNothing | packages/authoring-core/src/atomic-write.ts:589-655 | When a call is over and gave no lock set, every lock it took is one its release still has to look at or failed to unlink, so with neither left it owns none; when it gave a set, that owns the lock of every target |
| Locks.FailedCallReleases | packages/authoring-core/src/atomic-write.ts:650-654 | A call that fails leaves to its release every lock it took and nothing else |
| Locks.EveryCallIsAllOrNothing | packages/authoring-core/src/atomic-write.ts:589-655 | In every interleaving with crashes, a call that is over with its releases done has a whole lock set or no lock |
| Locks.LeftoversCanBeReleased | packages/authoring-core/src/atomic-write.ts:719-778 | From any state in which it is idle a process can get rid of every lock a failed call of its own left |
| Locks.SplitUnlinkSafeIff | packages/authoring-core/src/atomic-write.ts:546-565 | As a separate step the unlink is safe if and only if the lock then there is not one a live process holds |
| LockExamples.CheckedReleaseBreaksExclusion | packages/authoring-core/src/atomic-write.ts:766-778 | A concrete checked release whose directory sync fails, after which two live sets share a target |
| LockExamples.SplitReclaimBreaksExclusion | packages/authoring-core/src/atomic-write.ts:546-565 | A concrete run with the three steps apart and no second look ends with two live lock sets on one target |
| ProjectMigration.RecoverLocked | packages/authoring-core/src/project-model.ts:620-684 | Refuses untouched, or moves towards the one final state; unless a step fails the refusal, or the evidence and whether anything was recovered, are determined by the files, and the final state is reached |
| ProjectMigration.CommitLocked | packages/authoring-core/src/project-model.ts:705-766 | Only the approved proposal of the unchanged scene is journaled and carried out; unless a step fails the answer is determined by the files, and a reviewed legacy project commits |
| ProjectMigration.Migrations.Commit | packages/authoring-core/src/project-model.ts:686-703 | Nothing without approval; under the operation lock and its pending clean-up every stop is on the way; any answer but that of the files means a step failed; clean-up is pending only after a failing step |
| ProjectMigration.Migrations.Recover | packages/authoring-core/src/project-model.ts:768-774 | Every stop is on the way to the end the journal names; unless a step fails that end is reached and the answer is the one the files determine |
| ProjectMigration.MissingPlans | packages/authoring-core/src/project-model.ts:664-677 | Writing the missing files, all or some, moves towards the end; all of them and the completed journal are the end |
| ProjectMigration.TowardsKeeps | packages/authoring-core/src/project-model.ts:620-684 | From any point on the way the end is the same |
| ProjectMigration.MigrationsConverge | packages/authoring-core/src/project-model.ts:620-774 | Any run of commits and recoveries, each stopped anywhere, is untouched or on the way to one end |
| ProjectMigration.BegunFinishes | packages/authoring-core/src/project-model.ts:539-546 | Once begun recovery never refuses, nothing pending means exactly the final state, finishing is idempotent and the scene is unchanged |
| ProjectMigration.NewProposalCommits | packages/authoring-core/src/project-model.ts:705-766 | A proposal built for a scene that stands alone, once written and approved, is committed, and leaves the native project it proposes |
| ProjectMigration.RefusalsTell | packages/authoring-core/src/project-model.ts:626-662 | Each reason of a refused recovery tells what it found on disk; none means that nothing there contradicts the journaled proposal |
| GitStaging.Repository.Publish | packages/authoring-core/internal/project-git-authority.ts:2048-2085 | Replaces the index only while it still is the captured one, by a lock file synced and closed; removes no index.lock of others; a safe answer leaves no lock; nothing is published without a failing step only if the index or its lock was not as expected |
| GitStaging.Repository.RollBackPublished | packages/authoring-core/internal/project-git-authority.ts:2087-2136 | Takes back exactly what was published; success means the captured index is live; fails only if a step fails, others act, or the index is not what was published |
| GitStaging.StagedWithinSelection | packages/authoring-core/internal/project-git-authority.ts:2383-2400 | Every path staged was selected, so a snapshot of it exists, and every selected path with a change in the working tree is staged with its other side |
| GitStaging.StageCaptured | packages/authoring-core/internal/project-git-authority.ts:1840-1875 | The private index is the captured one with each path bound to its snapshot at stage 0 or removed, and nothing else changed; the objects made are exactly the captured bytes; success exactly if each path has a snapshot and each command works |
| GitStaging.CheckSelection | packages/authoring-core/internal/project-git-authority.ts:1877-2020 | Passes exactly when records outside the selection are unchanged, renames kept, each selected path bound to its captured bytes and mode, and nothing changed on disk |
| GitStaging.Prepare | packages/authoring-core/internal/project-git-authority.ts:2357-2476 | Before publication the live index is only looked at, and what is ready is the staged selection and has passed the check; a selection without objection gets ready |
| GitStaging.Replace | packages/authoring-core/internal/project-git-authority.ts:2477-2530 | Publish, look again, take back: our writes are none, the publication, or it and its reversal; staged if and only if published safely and unmoved, refused if and only if published safely and the look threw; a publication not kept is taken back unless something further goes wrong |
| GitStaging.Finish | packages/authoring-core/internal/project-git-authority.ts:2537-2574 | A failing clean-up or release takes a publication back unless something further goes wrong; success means the private index is gone and the operation lock given back |
| GitStaging.Stage | packages/authoring-core/internal/project-git-authority.ts:2336-2580 | All it ever writes is the checked index in place of exactly the captured one, and the captured one back; each answer fixes which; a refusal leaves the publication if and only if the second look threw and clean-up succeeded; a publication that the second look speaks against is left behind only if taking it back failed as well; undisturbed the answer and the live index are determined; no lock of others is removed |
| GitStaging.RefusalLeavesNewIndex | packages/authoring-core/internal/project-git-authority.ts:2511-2537 | A concrete call that is refused with the new index live |
| ReviewSession.Session.ProposeEdit | apps/desktop-shell/src/session.ts:440-483 | Never replaces an open review, except to drop it when its document's bytes have changed; a review opened belongs to the root it was proposed at |
| ReviewSession.Session.StageBegin | apps/desktop-shell/src/session.ts:485-530 | A staging begins only with no review and no recovery open |
| ReviewSession.Session.StageCheck | apps/desktop-shell/src/session.ts:561-576 | Passes exactly if not aborted, the bytes are steady and no proposal has been cleared since the start |
| ReviewSession.Session.StageInstall | apps/desktop-shell/src/session.ts:581-593 | Installs exactly if no proposal has been cleared since the start, at the session's root; replaces no review and no recovery; dooms every other staging begun before |
| ReviewSession.Session.Accept | apps/desktop-shell/src/session.ts:595-644 | The three answers of apply, with pending implying recovery pending, a transaction id and a held proposal; an apply that goes through is remembered at the review's root |
| ReviewSession.Session.Reject | apps/desktop-shell/src/session.ts:646-651 | Drops the review, and nothing while a recovery is pending |
| ReviewSession.Session.RefreshRecovery | apps/desktop-shell/src/session.ts:653-718 | Changes nothing until the journal settles, then ends the recovery in the phase its outcome calls for |
| ReviewSession.Session.Undo | apps/desktop-shell/src/session.ts:788-827 | Refused during a review or once the session's own applies are used up; success pops the newest |
| ReviewSession.Session.Redo | apps/desktop-shell/src/session.ts:829-850 | Refused during a review; success leaves no review and the history as it was |
| ReviewSession.RootsAreKept | apps/desktop-shell/src/session.ts:440-850 | In any sequence of calls a review keeps the root it was opened at until it is decided, also while its apply is pending, and the history is the roots of the applies gone through and not undone |
| ReviewSession.LandedIsUndoneFirst | apps/desktop-shell/src/session.ts:480-718 | When an apply goes through, directly or by a recovery that completes, undo addresses the root its review was opened at |
| ReviewSession.UndosGoBack | apps/desktop-shell/src/session.ts:788-827 | Undos one after the other address the roots of the standing applies newest first, and no more go through than there are |
| ReviewSession.NothingToUndo | apps/desktop-shell/src/session.ts:796-812 | Once its own applies are used up a session undoes nothing more |
| OperationQueue.Queue.Submit | apps/web-shell/src/panel-support.ts:113-130 | At most nine admitted, the rest refused |
| OperationQueue.Queue.Start | apps/web-shell/src/panel-support.ts:126-133 | Operations run alone and in admission order |
| OperationQueue.Queue.Finish | apps/web-shell/src/panel-support.ts:132-138 | An operation that throws lets the next one start as well |
| AccountPanel.Panel.Track | apps/web-shell/src/account-panel.ts:496-510 | The same session under a fresh principal replaces the old one and its failure |
| AccountPanel.Panel.RevokeAllExcept | apps/web-shell/src/account-panel.ts:481-494 | Exactly the sessions whose revocation failed stay tracked, each with its own failure; the failure shown is one of theirs |
| AccountPanel.Panel.SubmitCredentials | apps/web-shell/src/account-panel.ts:512-543 | A shown sign-in means the new session is held and the only one tracked; after a grant every other tracked session has a recorded failure if and only if the view did not throw; a refusal changes no bookkeeping |
| AccountPanel.Panel.Refresh | apps/web-shell/src/account-panel.ts:568-589 | An outstanding failed revocation is shown before any balance; otherwise the snapshot is determined; the bookkeeping is left as it was |
| AccountPanel.Panel.SignOutAll | apps/web-shell/src/account-panel.ts:591-606 | Succeeds exactly when nothing is tracked any more, and re-establishes the bookkeeping in any case |
| AccountPanel.ThrowingViewLosesSession | apps/web-shell/src/account-panel.ts:528-537 | A concrete sign-in after which a live session is neither held nor recorded as failed |
| AccountPanel.QueuedPanel.Submit | apps/web-shell/src/panel-support.ts:122-129 | Submitting changes nothing that has ended, also while an operation runs |
| AccountPanel.QueuedPanel.Begin | apps/web-shell/src/panel-support.ts:126-133 | The operation begun is the next one admitted |
| AccountPanel.QueuedPanel.End | apps/web-shell/src/panel-support.ts:132-138 | The operations that have ended are the first admitted, in order, and they decide whether every tracked session is accounted for |

## Left out

- Stage: after the last step of the call other writers may change the index again; the contract speaks of the index up to that step.
- ApplyDocuments: soundness after a failed abort that had in fact cleared the active entry is not claimed, because it does not hold (see above).
- NoTwoLiveSetsShare: assumes a second look before a separate unlink, and no blind unlink of a lock already lost, because the code does not give exclusion without them (see above).
- ReadLatestCompleted: the signature is taken and the archive scanned as one step, while the source does both without the operation lock, so a writer acting in between is not part of the model; the same holds for OfferUndo and OfferRedo and their document checks.
- RunsStayRecoverable: leaves out direct edits, because no log accounts for their bytes; RunsStayRestorable includes them.
- RunsAreTwoStacks: only while nothing is applied over something that can be redone, because otherwise abandoned entries come back (see above).
- SetAtPointer: the source writes into a deep clone in place; the model rebuilds the ancestors, so sharing between clones is not modelled.
- Real file-system, procfs, inode and process-identity details: only the step and fault model above. What a power failure loses of directory entries not yet synced is not modelled beyond saying which entries those are.
- Reads are taken not to fail; a lock-release failure of the journal's own locks changes no file and is one failed step.
- The fast path of journal operations for a missing journal directory, and paths that escape the project or alias one document.
- resolveApplyTransaction: reads one record after recovery.
- Journal timestamps are instants or invalid; date formatting is not modelled.
- Direct edits are not journaled; undo and redo treat them as foreign writes, which their hash preconditions refuse to overwrite. Edits by other programs while an entry is active are not part of a run; recovery refuses to overwrite them.
- JSON numbers are known by their shortest numeral and the two zeros; how a double is printed is taken as given. Lone surrogates in strings are not modelled.
- Schema validation, diffs, proposal files, working-directory checks and diagnostics' messages.
- Non-JSON edit values are invalid values of the model; their other forms (functions, cycles) do not exist in it.
- Git commands are functions on an index value that may fail; repository layout, environment and limits on evidence size are not modelled.
- The Git commit preparation, the account panel's ledger and entitlement views, and the desktop session's status and file identity checks.
- Identity port, role guards, refusal tables, CLI, HTML, model provider port, assistant panel and packaging: they would add easier members beside the cores.
