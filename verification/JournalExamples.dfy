/** Concrete histories in which a tempting property of the journal does not hold. */
module JournalExamples {
  import opened Common
  import opened DurableDisk
  import opened AtomicWrite
  import opened JournalModel
  import opened JournalFiles
  import opened ApplyJournal
  import opened ApplyTransaction
  import opened UndoStack
  import P = JournalProtocol

  const SCENE := "scene.json"
  const NOON := Instant(1700000000000)

  function Change(before: string, after: string): DocumentChange {
    DocumentChange(SCENE, Document(before), HashText(Document(before)), Document(after), HashText(Document(after)))
  }

  const FIRST := Entry("1700000000000-000000000000000a", NOON, Undone, Some(NOON), Some(1), [Change("0", "1")])
  const SECOND := Entry("1700000000000-000000000000000b", NOON, Completed, Some(NOON), Some(2), [Change("0", "2")])
  const INITIAL: Docs := map[SCENE := DocCell(Document("0"))]

  lemma FirstId()
    ensures IsTransactionId(FIRST.transactionId)
  {
  }

  lemma SecondId()
    ensures IsTransactionId(SECOND.transactionId)
  {
  }

  lemma ExamplesWellFormed()
    ensures WellFormed(FIRST) && WellFormed(SECOND)
  {
    hide IsTransactionId;
    FirstId();
    SecondId();
  }

  lemma ExampleImages()
    ensures Images(FIRST, Before) == Images(SECOND, Before) == INITIAL
    ensures Images(FIRST, After) == map[SCENE := DocCell(Document("1"))]
    ensures Images(SECOND, After) == map[SCENE := DocCell(Document("2"))]
  {
  }

  // ---- an abandoned entry comes back -------------------------------------------------------

  /** One apply was undone, another made in its place. */
  const BRANCHED := P.Store(Idle, true, {FIRST, SECOND}, 2, map[SCENE := DocCell(Document("2"))])

  lemma OneEntryLog(e: Entry)
    requires Images(e, Before) == INITIAL
    ensures Replay(INITIAL, {e}) == INITIAL + Images(e, After) && Linked(INITIAL, {e})
  {
    ReplayExtends(INITIAL, {}, e);
    assert {} + {e} == {e};
  }

  lemma BranchedIsSettled()
    ensures P.Settled(INITIAL, BRANCHED)
    ensures P.IsLatestCompleted(BRANCHED.log, SECOND)
  {
    ExamplesWellFormed();
    ExampleImages();
    OneEntryLog(SECOND);
    assert P.CompletedLog(BRANCHED.log) == {SECOND};
  }

  lemma BranchedDocs()
    ensures UndoOf(BRANCHED, SECOND).docs == INITIAL
    ensures RedoOf(UndoOf(BRANCHED, SECOND), FIRST, P.AsCompleted(FIRST)).docs == map[SCENE := DocCell(Document("1"))]
  {
    ExampleImages();
  }

  /** Undo then redo makes a document hold the bytes of the apply that had been abandoned. */
  lemma AbandonedEntryComesBack()
    ensures P.Settled(INITIAL, BRANCHED)
    ensures Undoes(BRANCHED, UndoOf(BRANCHED, SECOND))
    ensures P.IsNextRedo(UndoOf(BRANCHED, SECOND).log, FIRST)
    ensures Redoes(UndoOf(BRANCHED, SECOND), RedoOf(UndoOf(BRANCHED, SECOND), FIRST, P.AsCompleted(FIRST)))
    ensures RedoOf(UndoOf(BRANCHED, SECOND), FIRST, P.AsCompleted(FIRST)).docs == map[SCENE := DocCell(Document("1"))]
  {
    hide WellFormed, P.Settled, Images;
    BranchedIsSettled();
    ExampleImages();
    UndoLog(INITIAL, BRANCHED, SECOND);
    var log := UndoOf(BRANCHED, SECOND).log;
    assert log == {FIRST, P.AsUndone(SECOND)};
    assert P.CompletedLog(log) == {};
    assert P.Redoable(log, FIRST);
    BranchedDocs();
    assert P.AsCompleted(FIRST) == AsCompletedAt(FIRST, NOON);
    assert RedoesAt(UndoOf(BRANCHED, SECOND), FIRST, NOON, RedoOf(UndoOf(BRANCHED, SECOND), FIRST, P.AsCompleted(FIRST)));
  }

  // ---- a torn abort ------------------------------------------------------------------------

  const PREPARED := FIRST.(state := Prepared, completedAt := None)

  /** The apply is prepared and its document still as it was. */
  const STARTED := P.Store(InProgress(PREPARED), true, {}, 1, INITIAL)

  /** The abort was written and the active entry cleared, although the clearing was reported as failed. */
  const TORN := P.Store(Idle, true, {P.AbortRecord(PREPARED)}, 1, INITIAL)

  /** Carrying the apply forward all the same, and dying once the document is written, leaves bytes no log accounts for. */
  lemma TornAbortLosesTheApply()
    ensures P.InFlight(INITIAL, STARTED, PREPARED) && TORN == P.Cleared(P.Recorded(STARTED, P.AbortRecord(PREPARED)))
    ensures P.Interrupted(INITIAL, TORN, PREPARED)
    ensures P.Advance(TORN, PREPARED, After, P.AsCompleted(PREPARED).(completedAt := Some(NOON)), P.Moved(TORN, PREPARED, After))
    ensures P.Moved(TORN, PREPARED, After).active == Idle
    ensures P.Moved(TORN, PREPARED, After).docs == map[SCENE := DocCell(Document("1"))]
    ensures Replay(INITIAL, P.CompletedLog(P.Moved(TORN, PREPARED, After).log)) == INITIAL
  {
    hide IsTransactionId;
    FirstId();
    ExampleImages();
    PreparedImages();
    assert P.Others(TORN.log, PREPARED.transactionId) == P.Others({}, PREPARED.transactionId) == {};
    assert P.CompletedLog(TORN.log) == {};
    assert P.CompletedLog({}) == {};
    P.MovedIsMoving(TORN.docs, PREPARED, After);
  }

  lemma PreparedImages()
    ensures Images(PREPARED, Before) == Images(FIRST, Before)
    ensures Images(PREPARED, After) == Images(FIRST, After)
  {
  }

  // ---- a refused apply ---------------------------------------------------------------------

  const PROJECT: Files := map[Doc(SCENE) := DocCell(Document("0"))]
  const PLANNED := [PlannedDocument(SCENE, Document("0"), Document("1"))]

  lemma ProjectStarts()
    ensures StartsFrom(PROJECT, PLANNED, PREPARED.transactionId, PREPARED) && AllSatisfied(ApplyPlans(PLANNED), PROJECT)
  {
    hide IsTransactionId;
    FirstId();
    assert Archived(PROJECT) == {};
    assert P.IsMaxOrder({}, 0);
  }

  /** Preparing the entry took effect and was reported as failed: apply refuses, and recovery applies it all the same. */
  lemma RefusedApplyIsApplied(d: Files)
    requires RecoveryDone(Begun(PROJECT, PREPARED), NOON, d)
    ensures StartsFrom(PROJECT, PLANNED, PREPARED.transactionId, PREPARED) && AllSatisfied(ApplyPlans(PLANNED), PROJECT)
    ensures RefusedAt(PROJECT, PREPARED, Begun(PROJECT, PREPARED))
    ensures Doc(SCENE) in Begun(PROJECT, PREPARED) && Begun(PROJECT, PREPARED)[Doc(SCENE)] == DocCell(Document("0"))
    ensures Doc(SCENE) in d && d[Doc(SCENE)] == DocCell(Document("1"))
    ensures Archive(PREPARED.transactionId) in d && ReadArchived(d, PREPARED.transactionId) == Some(AsCompletedAt(PREPARED, NOON))
  {
    hide StartsFrom, AllSatisfied, RecoveryDone, ReadArchived;
    ProjectStarts();
    RefusedApplyComesBack(PROJECT, PLANNED, PREPARED.transactionId, PREPARED, NOON, Begun(PROJECT, PREPARED), d);
    assert PLANNED[0].after == Document("1");
  }
}
