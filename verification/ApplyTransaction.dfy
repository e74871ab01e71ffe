/** The transaction that applies planned documents: every failure branch, and what each answer means. */
module ApplyTransaction {
  import opened Common
  import opened DurableDisk
  import opened AtomicWrite
  import opened JournalModel
  import opened JournalFiles
  import opened ApplyJournal
  import O = JournalOrder
  import P = JournalProtocol

  datatype ApplyResult =
    | Applied(transactionId: string, documentPaths: seq<string>, recoveryPending: bool)
    | Rejected(reason: Rejection)
    | Indeterminate(transactionId: string)

  datatype Rejection = ApplyInProgress | ContentHashConflict(documentPath: string) | ApplyFailed

  function ChangesOf(documents: seq<PlannedDocument>): seq<DocumentChange> {
    seq(|documents|, i requires 0 <= i < |documents| => ChangeOf(documents[i]))
  }

  /** Write each document's after-text where its before-text is. */
  function ApplyPlans(documents: seq<PlannedDocument>): seq<Plan<Target, Bytes>> { PlansFor(ChangesOf(documents), After) }

  function PathsOf(documents: seq<PlannedDocument>): seq<string> {
    seq(|documents|, i requires 0 <= i < |documents| => documents[i].documentPath)
  }

  predicate HoldsAfter(c: Files, documents: seq<PlannedDocument>) {
    forall i | 0 <= i < |documents| ::
      Doc(documents[i].documentPath) in c && c[Doc(documents[i].documentPath)] == DocCell(documents[i].after)
  }

  /** The prepared entry is durable and no document has moved yet. */
  function Begun(c: Files, e: Entry): Files { Activated(Sequenced(c, Order(e)), e) }

  function AbortRecorded(c: Files, e: Entry): Files { Recorded(c, P.AbortRecord(e)) }

  /** Where a failed abort may leave the journal. */
  predicate AbortPoint(b: Files, e: Entry, c: Files) {
    c == b || c == AbortRecorded(b, e) || c == Cleared(AbortRecorded(b, e))
  }

  lemma ChangesOfEntry(c: Files, documents: seq<PlannedDocument>, transactionId: string, e: Entry)
    requires StartsFrom(c, documents, transactionId, e)
    ensures e.documents == ChangesOf(documents)
    ensures ApplyPlans(documents) == CarryPlans(e, After)
    ensures PathList(e) == PathsOf(documents)
  {
  }

  /** A prepared entry over documents that passed their preconditions is in flight. */
  lemma BegunIsInFlight(init: Docs, c: Files, documents: seq<PlannedDocument>, transactionId: string, e: Entry)
    requires P.Settled(init, StoreOf(c)) && StartsFrom(c, documents, transactionId, e)
    requires Archive(transactionId) !in c && AllSatisfied(ApplyPlans(documents), c)
    ensures P.Settled(init, StoreOf(Sequenced(c, Order(e))))
    ensures P.InFlight(init, StoreOf(Begun(c, e)), e)
  {
    hide ArchiveReadable, Archived, DocsOf, ReadActive, ReadSequence, P.Settled, P.InFlight, AllSatisfied, CarryPlans;
    ChangesOfEntry(c, documents, transactionId, e);
    NewIdIsNew(c, transactionId);
    CarryPlansAgree(c, e, After);
    SettledParts(init, StoreOf(c));
    P.ReservingKeeps(init, StoreOf(c), Order(e));
    P.PreparingStarts(init, StoreOf(c), e);
    SequencedView(c, Order(e));
    ActivatedView(Sequenced(c, Order(e)), e);
  }

  lemma SettledParts(init: Docs, s: P.Store)
    requires P.Settled(init, s)
    ensures s.readable
  {
  }

  lemma NewIdIsNew(c: Files, transactionId: string)
    requires Archive(transactionId) !in c
    ensures forall x | x in StoreOf(c).log :: x.transactionId != transactionId
  {
    if ArchiveReadable(c) {
      forall x | x in Archived(c) ensures x.transactionId != transactionId {
        ArchivedUnderItsName(c, x);
      }
    }
  }

  // ---- after the entry is prepared ---------------------------------------------------------

  lemma BegunAdvances(b: Files, e: Entry, side: Side, final: Entry)
    ensures Advance(b, e, side, final, b)
    ensures Advance(b, e, side, final, Moved(b, e, side))
  {
    MovingNowhere(b, e, side);
    forall t ensures SameAt(b, Moved(b, e, side), t) || MovedTo(e, side, Moved(b, e, side), t) {
      MovedAt(b, Images(e, side), t);
    }
  }

  /**
   Write the documents, then complete, abort or carry the entry forward. `resumed` is the store a
   failed abort had left when the entry was carried forward after all.
   */
  method CarryThrough(journal: Journal, e: Entry, now: Timestamp) returns (r: ApplyResult, ghost resumed: Option<Files>)
    requires journal.disk.Valid() && WellFormed(e) && e.state == Prepared
    requires FilesFree(journal.disk.held) && DocLocks(PathList(e)) <= journal.disk.held
    modifies journal.disk, journal`cache
    ensures journal.disk.Valid() && journal.disk.held == old(journal.disk.held) && StillOpen(old(journal.disk.denied), journal.disk.denied)
    ensures resumed.Some? ==> AbortPoint(old(journal.disk.files), e, resumed.value)
    ensures r.Rejected? ==> journal.disk.files == Cleared(AbortRecorded(old(journal.disk.files), e))
    ensures !r.Rejected? ==> Advance(resumed.GetOr(old(journal.disk.files)), e, After, AsCompletedAt(e, now), journal.disk.files)
    ensures r.Applied? ==> r.transactionId == e.transactionId && r.documentPaths == PathList(e)
    ensures r.Applied? ==> AtSide(resumed.GetOr(old(journal.disk.files)), e, After, AsCompletedAt(e, now), journal.disk.files)
    ensures r.Applied? && !r.recoveryPending ==>
              journal.disk.files == Finished(resumed.GetOr(old(journal.disk.files)), e, After, AsCompletedAt(e, now))
    ensures r.Indeterminate? ==> Moving(resumed.GetOr(old(journal.disk.files)), e, After, journal.disk.files)
    ensures old(CacheSound(journal.cache)) && (r.Applied? && !r.recoveryPending ==> Cached(journal.disk.files, Some(e))) ==>
              CacheSound(journal.cache)
    ensures !old(journal.disk.alive) ==> journal.disk.files == old(journal.disk.files)
    ensures r.Rejected? && AllSatisfied(CarryPlans(e, After), old(journal.disk.files)) ==> r.reason == ApplyFailed
    ensures journal.disk.failed >= old(journal.disk.failed)
    ensures AllSatisfied(CarryPlans(e, After), old(journal.disk.files)) ==>
              journal.disk.failed >= old(journal.disk.failed) + Mishaps(r, resumed.Some?)
    ensures old(journal.disk.Calm()) ==> journal.disk.Calm() && journal.disk.failed == old(journal.disk.failed)
  {
    hide Between, Distinct, AllSatisfied, OthersKept, Cached, PlansMove, FirstConflict, AtAnImage, DocLocks, FilesFree, LocksOf;
    resumed := None;
    ActiveIsOrdered(e);
    ghost var b, final := journal.disk.files, AsCompletedAt(e, now);
    var plans := CarryPlans(e, After);
    CarryPlansFit(b, e, After);
    PlanLocks(plans, e, After);
    var written := AtomicWriteAll(journal.disk, plans, true);
    BetweenMoves(b, plans, e, After, journal.disk.files);
    if written == Failed(false) {
      ghost var mid := journal.disk.files;
      MovingAtAnImage(b, e, After, mid);
      var recovered := journal.RecoverJournalEntry(e, After, true, now);
      AdvanceFromMoving(b, e, After, final, mid, journal.disk.files);
      return Answer(e, recovered), None;
    }
    if !written.Written? {
      var aborted := journal.Abort(e);
      if !aborted {
        resumed := Some(journal.disk.files);
        AbortAtAnImage(b, e, journal.disk.files);
        var recovered := journal.RecoverJournalEntry(e, After, true, now);
        return Answer(e, recovered), resumed;
      }
      return Rejected(if written.Conflict? && written.path.Doc? then ContentHashConflict(written.path.path) else ApplyFailed), None;
    }
    OverlayMoves(b, plans, e.documents, After);
    BegunAdvances(b, e, After, final);
    var ok := journal.Complete(e, now);
    r := Applied(e.transactionId, PathList(e), !ok);
  }

  /** How many steps must not have happened for an apply whose documents were as planned to give this answer. */
  function Mishaps(r: ApplyResult, resumed: bool): nat {
    match r
    case Applied(_, _, recoveryPending) => (if resumed then 2 else 0) + (if recoveryPending then 1 else 0)
    case Rejected(_) => 1
    case Indeterminate(_) => 3
  }

  /** A failed abort moves no document. */
  lemma AbortAtAnImage(b: Files, e: Entry, c: Files)
    requires WellFormed(e) && AbortPoint(b, e, c)
    ensures AllSatisfied(CarryPlans(e, After), b) ==> AtAnImage(c, e)
  {
    MovingNowhere(b, e, After);
    MovingAtAnImage(b, e, After, b);
    if AtAnImage(b, e) {
      forall i | 0 <= i < |e.documents| ensures DocumentAtAnImage(c, e.documents[i]) {
        assert DocumentAtAnImage(b, e.documents[i]);
      }
    }
  }

  function Answer(e: Entry, recovered: JournalResult): ApplyResult {
    if recovered.Done? then Applied(recovered.transactionId, recovered.documentPaths, recovered.recoveryPending)
    else Indeterminate(e.transactionId)
  }

  // ---- soundness ---------------------------------------------------------------------------

  /** The entry is prepared, alone under its id, and no document has moved. */
  ghost predicate Fresh(init: Docs, s: P.Store, e: Entry) {
    && P.InFlight(init, s, e) && e.state == Prepared
    && P.Others(s.log, e.transactionId) == s.log
    && s.docs == Replay(init, P.CompletedLog(s.log))
  }

  lemma BegunIsFresh(init: Docs, c: Files, documents: seq<PlannedDocument>, transactionId: string, e: Entry)
    requires P.Settled(init, StoreOf(c)) && StartsFrom(c, documents, transactionId, e)
    requires Archive(transactionId) !in c && AllSatisfied(ApplyPlans(documents), c)
    ensures Fresh(init, StoreOf(Begun(c, e)), e)
  {
    hide ArchiveReadable, Archived, DocsOf, ReadActive, ReadSequence, AllSatisfied, ApplyPlans;
    BegunIsInFlight(init, c, documents, transactionId, e);
    NewIdIsNew(c, transactionId);
    SequencedView(c, Order(e));
    ActivatedView(Sequenced(c, Order(e)), e);
  }

  lemma AbortView(init: Docs, b: Files, e: Entry, c: Files)
    requires Fresh(init, StoreOf(b), e) && AbortPoint(b, e, c)
    ensures P.Interrupted(init, StoreOf(c), e)
    ensures ReadActive(c) == InProgress(e) || (ReadActive(c) == Idle && P.Settled(init, StoreOf(c)))
  {
    hide ArchiveReadable, Archived, DocsOf, ReadActive, ReadSequence, P.Settled, P.Interrupted;
    AbortRecordWellFormed(e);
    RecordedView(b, P.AbortRecord(e));
    ClosedView(b, P.AbortRecord(e));
    P.AbortInterrupts(init, StoreOf(b), e, StoreOf(c));
  }

  lemma AbortRecordWellFormed(e: Entry)
    requires WellFormed(e)
    ensures WellFormed(P.AbortRecord(e)) && !IsActiveState(P.AbortRecord(e).state)
  {
  }

  /** Every point between the write and the last journal step is recoverable while the entry is active. */
  lemma ForwardSound(init: Docs, q: Files, e: Entry, now: Timestamp, c: Files)
    requires P.Interrupted(init, StoreOf(q), e) && e.state == Prepared && now.Instant?
    requires Advance(q, e, After, AsCompletedAt(e, now), c)
    ensures ReadActive(q) == InProgress(e) ==> P.Recoverable(init, StoreOf(c))
    ensures c == Finished(q, e, After, AsCompletedAt(e, now)) ==> P.Settled(init, StoreOf(c))
  {
    hide ArchiveReadable, Archived, DocsOf, ReadSequence, P.Settled, P.InFlight, P.Interrupted, P.Recoverable, Advance;
    hide P.Advance, Finished, P.Finished;
    var final := AsCompletedAt(e, now);
    InterruptedParts(init, StoreOf(q), e);
    FinalNames(e, now);
    P.InterruptedIsInFlight(init, StoreOf(q), e);
    if ReadActive(q) == InProgress(e) {
      RecoveryKeeps(init, q, e, now, c);
    }
    if c == Finished(q, e, After, final) {
      FinishedView(q, e, After, final);
      P.InterruptedFinishes(init, StoreOf(q), e, final);
    }
  }

  lemma InterruptedParts(init: Docs, s: P.Store, e: Entry)
    requires P.Interrupted(init, s, e)
    ensures s.readable && WellFormed(e)
  {
  }

  // ---- the whole transaction ---------------------------------------------------------------

  /** Where an apply may stop, whatever it answers and wherever it dies. */
  ghost predicate ApplyPoint(c: Files, e: Entry, now: Timestamp, resumed: Option<Files>, c': Files) {
    || c' == c
    || c' == Sequenced(c, Order(e))
    || AbortPoint(Begun(c, e), e, c')
    || Advance(resumed.GetOr(Begun(c, e)), e, After, AsCompletedAt(e, now), c')
  }

  lemma MovedHolds(c: Files, e: Entry, documents: seq<PlannedDocument>, final: Entry, c': Files)
    requires WellFormed(e) && e.documents == ChangesOf(documents) && AtSide(c, e, After, final, c')
    ensures HoldsAfter(c', documents)
  {
    ImagesOfAt(e.documents, After);
    forall i | 0 <= i < |documents|
      ensures Doc(documents[i].documentPath) in c' && c'[Doc(documents[i].documentPath)] == DocCell(documents[i].after)
    {
      assert e.documents[i] == ChangeOf(documents[i]);
      MovedAt(c, Images(e, After), Doc(documents[i].documentPath));
    }
  }

  lemma RejectedKeepsDocs(c: Files, e: Entry, c': Files)
    requires c' == c || c' == Sequenced(c, Order(e)) || AbortPoint(Begun(c, e), e, c')
    ensures DocsOf(c') == DocsOf(c)
  {
    NonDocKept(c, Sequence, Whole(SequenceText(Order(e))));
    NonDocKept(Sequenced(c, Order(e)), Active, Whole(SerializeJournal(e)));
    NonDocKept(Begun(c, e), Archive(e.transactionId), Whole(SerializeJournal(P.AbortRecord(e))));
    NonDocKept(AbortRecorded(Begun(c, e), e), Active, Whole(NullText));
  }

  lemma BegunReadsActive(c: Files, e: Entry)
    requires WellFormed(e) && IsActiveState(e.state)
    ensures ReadActive(Begun(c, e)) == InProgress(e)
  {
  }

  lemma IdleSettles(init: Docs, c: Files)
    requires P.Recoverable(init, StoreOf(c)) && ReadActive(c) == Idle
    ensures P.Settled(init, StoreOf(c))
  {
  }

  lemma PointSound(init: Docs, c: Files, documents: seq<PlannedDocument>, transactionId: string, e: Entry, now: Timestamp,
                   resumed: Option<Files>, c': Files)
    requires P.Recoverable(init, StoreOf(c)) && ApplyPoint(c, e, now, resumed, c') && now.Instant?
    requires StartsFrom(c, documents, transactionId, e) && AllSatisfied(ApplyPlans(documents), c) && Archive(transactionId) !in c
    requires resumed.Some? ==> AbortPoint(Begun(c, e), e, resumed.value)
    ensures resumed.Some? ==> P.Interrupted(init, StoreOf(resumed.value), e)
    ensures (resumed.Some? ==> ReadActive(resumed.value) == InProgress(e)) ==> P.Recoverable(init, StoreOf(c'))
    ensures c' == Finished(resumed.GetOr(Begun(c, e)), e, After, AsCompletedAt(e, now)) ==>
              P.Settled(init, StoreOf(c')) && P.Recoverable(init, StoreOf(c'))
  {
    hide ArchiveReadable, Archived, DocsOf, ReadSequence, P.Settled, P.InFlight, P.Interrupted, Finished, AllSatisfied;
    hide ApplyPlans, Advance, WellFormed, Recorded, Begun, ReadActive, Fresh;
    IdleSettles(init, c);
    BegunIsInFlight(init, c, documents, transactionId, e);
    BegunIsFresh(init, c, documents, transactionId, e);
    BegunReadsActive(c, e);
    AbortView(init, Begun(c, e), e, Begun(c, e));
    var q := resumed.GetOr(Begun(c, e));
    AbortView(init, Begun(c, e), e, q);
    if Advance(q, e, After, AsCompletedAt(e, now), c') {
      ForwardSound(init, q, e, now, c');
    } else if AbortPoint(Begun(c, e), e, c') {
      AbortView(init, Begun(c, e), e, c');
      if ReadActive(c') == InProgress(e) {
        InterruptedRecovers(init, c', e);
      }
    }
    if c' == Finished(q, e, After, AsCompletedAt(e, now)) {
      FinishedAdvances(q, e, AsCompletedAt(e, now));
      ForwardSound(init, q, e, now, c');
    }
  }

  lemma FinishedAdvances(q: Files, e: Entry, final: Entry)
    ensures Advance(q, e, After, final, Finished(q, e, After, final))
  {
  }

  lemma InterruptedRecovers(init: Docs, c: Files, e: Entry)
    requires P.Interrupted(init, StoreOf(c), e) && ReadActive(c) == InProgress(e)
    ensures P.Recoverable(init, StoreOf(c))
  {
    P.InterruptedIsInFlight(init, StoreOf(c), e);
  }

  // ---- in order, whatever the documents held -----------------------------------------------

  lemma BegunIsCarried(c: Files, documents: seq<PlannedDocument>, transactionId: string, e: Entry)
    requires O.Restorable(StoreOf(c)) && StartsFrom(c, documents, transactionId, e)
    requires Archive(transactionId) !in c && AllSatisfied(ApplyPlans(documents), c)
    ensures O.Restorable(StoreOf(Sequenced(c, Order(e))))
    ensures O.Carried(StoreOf(Begun(c, e)), e) && O.AtImages(DocsOf(Begun(c, e)), e)
    ensures ReadActive(Begun(c, e)) == InProgress(e)
    ensures P.Others(StoreOf(c).log, transactionId) == StoreOf(c).log && StoreOf(Begun(c, e)).log == StoreOf(c).log
  {
    hide ArchiveReadable, Archived, ReadSequence, AllSatisfied, CarryPlans, StoreOf, DocsOf, O.Topmost, O.AtImages;
    StartsIdle(c, documents, transactionId, e);
    ChangesOfEntry(c, documents, transactionId, e);
    NewIdIsNew(c, transactionId);
    RestorableIdle(c);
    CarryPlansAgree(c, e, After);
    RejectedKeepsDocs(c, e, Begun(c, e));
    O.AgreeingIsAtImages(DocsOf(c), e, Before);
    O.ReservedIsNew(StoreOf(c), Order(e));
    O.PreparingIsOrderly(StoreOf(c), e);
    SequencedView(c, Order(e));
    ActivatedView(Sequenced(c, Order(e)), e);
    BegunReadsActive(c, e);
  }

  lemma StartsIdle(c: Files, documents: seq<PlannedDocument>, transactionId: string, e: Entry)
    requires StartsFrom(c, documents, transactionId, e)
    ensures ReadActive(c) == Idle && WellFormed(e) && e.state == Prepared && IsActiveState(e.state)
    ensures e.transactionId == transactionId && 0 < Order(e) <= MAX_SAFE_INTEGER && P.Reserves(StoreOf(c), Order(e))
  {
  }

  lemma AbortKeepsCarried(b: Files, e: Entry, c: Files)
    requires O.Carried(StoreOf(b), e) && WellFormed(e) && e.state == Prepared && AbortPoint(b, e, c)
    ensures O.Carried(StoreOf(c), e) && DocsOf(c) == DocsOf(b)
  {
    hide ArchiveReadable, Archived, DocsOf, ReadActive, ReadSequence, O.Topmost;
    AbortRecordWellFormed(e);
    ReadableStore(b);
    RecordedView(b, P.AbortRecord(e));
    ClosedView(b, P.AbortRecord(e));
    O.AbortIsOrderly(StoreOf(b), e, StoreOf(c));
  }

  lemma CarriedPoint(q: Files, e: Entry, now: Timestamp, c: Files)
    requires O.Carried(StoreOf(q), e) && O.AtImages(DocsOf(q), e) && WellFormed(e) && e.state == Prepared && now.Instant?
    requires Advance(q, e, After, AsCompletedAt(e, now), c)
    ensures O.Restorable(StoreOf(c))
  {
    hide ArchiveReadable, Archived, DocsOf, ReadActive, ReadSequence, WellFormed, Finished, P.Finished;
    hide Advance, P.Advance, O.AtImages, O.Topmost, P.NumberedLog, P.Names;
    ReadableStore(q);
    FinalNames(e, now);
    AdvanceView(q, e, After, AsCompletedAt(e, now), c);
    O.AdvanceIsOrderly(StoreOf(q), e, After, AsCompletedAt(e, now), StoreOf(c));
  }

  lemma CarriedIsRestorable(c: Files, e: Entry)
    requires O.Carried(StoreOf(c), e) && O.AtImages(DocsOf(c), e)
    ensures O.Restorable(StoreOf(c))
  {
  }

  /** Wherever an apply stops the journal is in order, even after a failed abort that had cleared the active entry. */
  lemma PointRestores(c: Files, documents: seq<PlannedDocument>, transactionId: string, e: Entry, now: Timestamp,
                      resumed: Option<Files>, c': Files)
    requires O.Restorable(StoreOf(c)) && ApplyPoint(c, e, now, resumed, c') && now.Instant?
    requires StartsFrom(c, documents, transactionId, e) && AllSatisfied(ApplyPlans(documents), c) && Archive(transactionId) !in c
    requires resumed.Some? ==> AbortPoint(Begun(c, e), e, resumed.value)
    ensures O.Restorable(StoreOf(c'))
    ensures c' == Finished(resumed.GetOr(Begun(c, e)), e, After, AsCompletedAt(e, now)) ==> Cached(c', Some(e))
  {
    hide ArchiveReadable, Archived, DocsOf, ReadSequence, ReadActive, Finished, Cached, AllSatisfied, ApplyPlans, Advance;
    hide WellFormed, Recorded, Begun;
    hide StoreOf, O.Restorable, O.Carried, O.AtImages, StartsFrom, P.Names;
    StartsIdle(c, documents, transactionId, e);
    BegunIsCarried(c, documents, transactionId, e);
    var b := Begun(c, e);
    var q := resumed.GetOr(b);
    AbortKeepsCarried(b, e, q);
    if Advance(q, e, After, AsCompletedAt(e, now), c') {
      CarriedPoint(q, e, now, c');
    } else if AbortPoint(b, e, c') {
      AbortKeepsCarried(b, e, c');
      CarriedIsRestorable(c', e);
    }
    FinalNames(e, now);
    CarriedIsCached(q, e, AsCompletedAt(e, now));
  }

  // ---- a refusal that comes back -----------------------------------------------------------

  /** Where an apply that refuses may leave the files. */
  ghost predicate RefusedAt(c: Files, e: Entry, c': Files) {
    c' == c || c' == Sequenced(c, Order(e)) || c' == Begun(c, e) || c' == Cleared(AbortRecorded(Begun(c, e), e))
  }

  /** A refusal from an idle store leaves an entry active in one case only: preparing it took effect but was reported as failed. */
  lemma RefusedActive(c: Files, e: Entry, c': Files)
    requires ReadActive(c) == Idle && RefusedAt(c, e, c') && (c' == c || (WellFormed(e) && e.state == Prepared))
    ensures ReadActive(c') == (if c' == Begun(c, e) then InProgress(e) else Idle)
  {
    NonDocKept(c, Sequence, Whole(SequenceText(Order(e))));
    assert ReadActive(Begun(c, e)) != Idle;
    if c' == Begun(c, e) {
      assert c' != c;
      BegunReadsActive(c, e);
    }
  }

  /**
   The next recovery that finishes carries a refused apply forward exactly when its entry was left
   active, which is exactly when the files are those of the prepared entry; otherwise no document moves.
   */
  lemma RefusedApplyComesBack(c: Files, documents: seq<PlannedDocument>, transactionId: string, e: Entry, now: Timestamp, c': Files, d: Files)
    requires StartsFrom(c, documents, transactionId, e) && Archive(transactionId) !in c && now.Instant?
    requires RefusedAt(c, e, c') && RecoveryDone(c', now, d)
    ensures ReadActive(c') == InProgress(e) <==> c' == Begun(c, e)
    ensures c' == Begun(c, e) <==> Archive(transactionId) in d && ReadArchived(d, transactionId) == Some(AsCompletedAt(e, now))
    ensures if c' == Begun(c, e) then HoldsAfter(d, documents) else DocsOf(d) == DocsOf(c)
  {
    hide DocsOf, WellFormed, Finished, HoldsAfter, AbortPoint;
    StartsIdle(c, documents, transactionId, e);
    RefusedActive(c, e, c');
    if c' == Begun(c, e) {
      ChangesOfEntry(c, documents, transactionId, e);
      FinishedHolds(c', e, documents, now);
    } else {
      assert d == c';
      AbortedIsNotCompleted(c, e, c', AsCompletedAt(e, now));
      hide RefusedAt;
      RefusedKeepsDocs(c, e, c');
    }
  }

  lemma RefusedKeepsDocs(c: Files, e: Entry, c': Files)
    requires RefusedAt(c, e, c')
    ensures DocsOf(c') == DocsOf(c)
  {
    RejectedKeepsDocs(c, e, c');
  }

  lemma FinishedHolds(b: Files, e: Entry, documents: seq<PlannedDocument>, now: Timestamp)
    requires WellFormed(e) && e.state == Prepared && e.documents == ChangesOf(documents) && now.Instant?
    ensures var d := Finished(b, e, After, AsCompletedAt(e, now));
            && HoldsAfter(d, documents)
            && Archive(e.transactionId) in d && ReadArchived(d, e.transactionId) == Some(AsCompletedAt(e, now))
  {
    MovedHolds(b, e, documents, AsCompletedAt(e, now), Finished(b, e, After, AsCompletedAt(e, now)));
  }

  lemma AbortedIsNotCompleted(c: Files, e: Entry, c': Files, final: Entry)
    requires RefusedAt(c, e, c') && c' != Begun(c, e) && Archive(e.transactionId) !in c && final.state == Completed
    ensures Archive(e.transactionId) in c' ==> ReadArchived(c', e.transactionId) != Some(final)
  {
  }

  /** What the answer to an apply says of where it left the files. */
  ghost predicate Outcome(init: Docs, c: Files, documents: seq<PlannedDocument>, transactionId: string, e: Entry, now: Timestamp,
                          r: ApplyResult, resumed: Option<Files>, c': Files)
  {
    var b := resumed.GetOr(Begun(c, e));
    && ApplyPoint(c, e, now, resumed, c')
    && (c' != c || !r.Rejected? ==> StartsFrom(c, documents, transactionId, e))
    && (resumed.Some? ==> AbortPoint(Begun(c, e), e, resumed.value))
    && (r.Applied? ==> r.transactionId == transactionId && r.documentPaths == PathsOf(documents) && HoldsAfter(c', documents))
    && (r.Applied? && !r.recoveryPending ==> c' == Finished(b, e, After, AsCompletedAt(e, now)))
    && (r.Rejected? ==> DocsOf(c') == DocsOf(c) && RefusedAt(c, e, c'))
    && (r.Rejected? && ReadActive(c) == Idle ==> ReadActive(c') == if c' == Begun(c, e) then InProgress(e) else Idle)
    && (r.Indeterminate? ==> Moving(b, e, After, c'))
    && (r.Indeterminate? && (resumed.Some? ==> ReadActive(resumed.value) == InProgress(e)) ==> ReadActive(c') == InProgress(e))
    && (P.Recoverable(init, StoreOf(c)) ==>
          && (resumed.Some? ==> P.Interrupted(init, StoreOf(resumed.value), e))
          && ((resumed.Some? ==> ReadActive(resumed.value) == InProgress(e)) ==> P.Recoverable(init, StoreOf(c')))
          && (r.Applied? && !r.recoveryPending ==> P.Settled(init, StoreOf(c')) && P.Recoverable(init, StoreOf(c'))))
  }

  /** With the documents locked and verified: prepare the entry, then carry it through. */
  method PrepareAndCarry(journal: Journal, documents: seq<PlannedDocument>, transactionId: string, createdAt: Timestamp, now: Timestamp)
    returns (r: ApplyResult, ghost e: Entry, ghost resumed: Option<Files>)
    requires journal.disk.Valid() && Plannable(documents) && AllSatisfied(ApplyPlans(documents), journal.disk.files)
    requires IsTransactionId(transactionId) && Archive(transactionId) !in journal.disk.files
    requires createdAt.Instant? && now.Instant?
    requires FilesFree(journal.disk.held) && DocLocks(PathsOf(documents)) <= journal.disk.held
    modifies journal.disk, journal`cache
    ensures journal.disk.Valid() && journal.disk.held == old(journal.disk.held) && StillOpen(old(journal.disk.denied), journal.disk.denied)
    ensures Outcome(journal.init, old(journal.disk.files), documents, transactionId, e, now, r, resumed, journal.disk.files)
    ensures old(journal.Sane()) ==> journal.Sane()
    ensures !old(journal.disk.alive) ==> journal.disk.files == old(journal.disk.files)
    ensures r.Rejected? ==> r.reason == ApplyFailed
    ensures r.Rejected? && documents != [] && ReadActive(old(journal.disk.files)) == Idle && ArchiveReadable(old(journal.disk.files)) ==>
              || journal.disk.failed > old(journal.disk.failed)
              || exists n :: n > MAX_SAFE_INTEGER && P.Reserves(StoreOf(old(journal.disk.files)), n)
    ensures r.Rejected? && ReadActive(journal.disk.files) != ReadActive(old(journal.disk.files)) ==> journal.disk.failed >= old(journal.disk.failed) + 2
    ensures !r.Rejected? ==> journal.disk.failed >= old(journal.disk.failed) + Mishaps(r, resumed.Some?)
    ensures journal.disk.failed >= old(journal.disk.failed)
    ensures old(journal.disk.Calm()) ==> journal.disk.Calm() && journal.disk.failed == old(journal.disk.failed)
  {
    hide P.Settled, P.Recoverable, P.Interrupted, P.InFlight, CacheSound, Cached, Archived, DocsOf, Finished, Moving, AtSide, CarryPlans;
    hide HoldsAfter, Advance, Recorded, StoreOf, ReadSequence, AllSatisfied, WellFormed, O.Restorable, ReadActive;
    hide FirstConflict, PathList, PathsOf;
    hide ArchiveReadable, DocCell, ReadArchived, DocLocks, FilesFree, LocksOf, ApplyPlans, ApplyPoint, AbortPoint, Plannable;
    hide IsTransactionId;
    hide Satisfied, RefusedAt, StartsFrom, Activated, Sequenced, Cleared, AbortRecorded;
    ghost var c := journal.disk.files;
    resumed := None;
    var entry;
    entry, e := journal.Prepare(documents, transactionId, createdAt);
    if entry.None? {
      PreparedOnly(c, documents, transactionId, e, now, journal.disk.files);
      r := Rejected(ApplyFailed);
    } else {
      ChangesOfEntry(c, documents, transactionId, e);
      StartsInFlight(c, documents, transactionId, e);
      r, resumed := CarryThrough(journal, entry.value, now);
      CarriedThrough(c, documents, transactionId, e, now, r, resumed, journal.disk.files);
    }
    if entry.Some? || journal.disk.files != c {
      PointKept(journal.init, c, documents, transactionId, e, now, resumed, journal.disk.files);
    }
  }

  /** Apply the planned documents as one journaled transaction. */
  method ApplyDocuments(journal: Journal, documents: seq<PlannedDocument>, transactionId: string, createdAt: Timestamp, now: Timestamp)
    returns (r: ApplyResult, ghost e: Entry, ghost resumed: Option<Files>)
    requires journal.disk.Valid() && Plannable(documents)
    requires IsTransactionId(transactionId) && Archive(transactionId) !in journal.disk.files
    requires createdAt.Instant? && now.Instant? && journal.disk.held == {}
    modifies journal.disk, journal`cache
    ensures journal.disk.Valid() && journal.disk.held == {}
    ensures ApplyPoint(old(journal.disk.files), e, now, resumed, journal.disk.files)
    ensures journal.disk.files != old(journal.disk.files) || !r.Rejected? ==>
              StartsFrom(old(journal.disk.files), documents, transactionId, e) && AllSatisfied(ApplyPlans(documents), old(journal.disk.files))
    ensures resumed.Some? ==> AbortPoint(Begun(old(journal.disk.files), e), e, resumed.value)
    // what each answer means
    ensures r.Applied? ==> r.transactionId == transactionId && HoldsAfter(journal.disk.files, documents)
    ensures r.Applied? ==> r.documentPaths == PathsOf(documents)
    ensures r.Applied? && !r.recoveryPending ==>
              journal.disk.files == Finished(resumed.GetOr(Begun(old(journal.disk.files), e)), e, After, AsCompletedAt(e, now))
    ensures r.Rejected? ==> DocsOf(journal.disk.files) == DocsOf(old(journal.disk.files)) && RefusedAt(old(journal.disk.files), e, journal.disk.files)
    ensures r.Rejected? && ReadActive(old(journal.disk.files)) == Idle ==>
              ReadActive(journal.disk.files) == if journal.disk.files == Begun(old(journal.disk.files), e) then InProgress(e) else Idle
    ensures r.Indeterminate? ==> Moving(resumed.GetOr(Begun(old(journal.disk.files), e)), e, After, journal.disk.files)
    ensures r.Indeterminate? && (resumed.Some? ==> ReadActive(resumed.value) == InProgress(e)) ==> ReadActive(journal.disk.files) == InProgress(e)
    // the run stays sound
    ensures old(journal.Sane()) ==> journal.Sane()
    ensures old(journal.Sound()) && resumed.Some? ==> P.Interrupted(journal.init, StoreOf(resumed.value), e)
    ensures old(journal.Sound()) && (resumed.Some? ==> ReadActive(resumed.value) == InProgress(e)) ==> journal.Sound()
    ensures old(journal.Sound()) && r.Applied? && !r.recoveryPending ==> journal.Sound() && P.Settled(journal.init, StoreOf(journal.disk.files))
    // what goes wrong
    ensures !AllSatisfied(ApplyPlans(documents), old(journal.disk.files)) ==> r.Rejected? && journal.disk.files == old(journal.disk.files)
    ensures !old(journal.disk.alive) ==> journal.disk.files == old(journal.disk.files)
    ensures Operation !in old(journal.disk.denied) && Operation in journal.disk.denied ==> r == Rejected(ApplyInProgress)
    ensures r == Rejected(ApplyInProgress) ==> journal.disk.files == old(journal.disk.files) && journal.disk.failed > old(journal.disk.failed)
    ensures r.Rejected? && r.reason.ContentHashConflict? ==>
              FirstConflict(ApplyPlans(documents), old(journal.disk.files), Doc(r.reason.documentPath))
    ensures r == Rejected(ApplyFailed) ==> AllSatisfied(ApplyPlans(documents), old(journal.disk.files))
    ensures r == Rejected(ApplyFailed) && documents != []
              && ReadActive(old(journal.disk.files)) == Idle && ArchiveReadable(old(journal.disk.files)) ==>
              || journal.disk.failed > old(journal.disk.failed)
              || exists n :: n > MAX_SAFE_INTEGER && P.Reserves(StoreOf(old(journal.disk.files)), n)
    ensures r.Rejected? && ReadActive(journal.disk.files) != ReadActive(old(journal.disk.files)) ==> journal.disk.failed >= old(journal.disk.failed) + 2
    ensures !r.Rejected? ==> journal.disk.failed >= old(journal.disk.failed) + Mishaps(r, resumed.Some?)
    ensures journal.disk.failed >= old(journal.disk.failed)
    ensures old(journal.disk.Calm()) ==> journal.disk.Calm() && journal.disk.failed == old(journal.disk.failed)
  {
    hide P.Settled, P.Recoverable, P.Interrupted, P.InFlight, CacheSound, Cached, Archived, DocsOf, Finished, Moving, AtSide, CarryPlans;
    hide HoldsAfter, Advance, Recorded, StoreOf, ReadSequence, AllSatisfied, WellFormed, O.Restorable, ReadActive;
    hide FirstConflict, PathList, PathsOf;
    hide ArchiveReadable, DocCell, ReadArchived, DocLocks, FilesFree, LocksOf, ApplyPlans, ApplyPoint, AbortPoint, Plannable;
    hide IsTransactionId, Satisfied, RefusedAt, StartsFrom, Activated, Sequenced, Cleared, AbortRecorded;
    ghost var c := journal.disk.files;
    e, resumed := Entry(transactionId, createdAt, Prepared, None, None, []), None;
    PreparedOnly(c, documents, transactionId, e, now, c);
    ghost var locks := {Operation} + DocLocks(PathsOf(documents));
    OperationAndDocuments(PathsOf(documents));
    var locked := journal.disk.Acquire(locks);
    if !locked {
      return Rejected(ApplyInProgress), e, None;
    }
    assert journal.disk.held == locks;
    var plans := ApplyPlans(documents);
    ApplyLocks(documents);
    ConflictIsADocument(documents, c);
    var verified := VerifyPreconditions(journal.disk, plans);
    if verified.Written? {
      r, e, resumed := PrepareAndCarry(journal, documents, transactionId, createdAt, now);
    } else {
      r := Rejected(if verified.Conflict? && verified.path.Doc? then ContentHashConflict(verified.path.path) else ApplyInProgress);
    }
    var released := journal.disk.Release(locks);
  }

  /** A point that starts in order, or sound, is so. */
  lemma PointKept(init: Docs, c: Files, documents: seq<PlannedDocument>, transactionId: string, e: Entry, now: Timestamp,
                  resumed: Option<Files>, c': Files)
    requires ApplyPoint(c, e, now, resumed, c') && now.Instant?
    requires StartsFrom(c, documents, transactionId, e) && AllSatisfied(ApplyPlans(documents), c) && Archive(transactionId) !in c
    requires resumed.Some? ==> AbortPoint(Begun(c, e), e, resumed.value)
    ensures O.Restorable(StoreOf(c)) ==>
              O.Restorable(StoreOf(c')) && (c' == Finished(resumed.GetOr(Begun(c, e)), e, After, AsCompletedAt(e, now)) ==> Cached(c', Some(e)))
    ensures P.Recoverable(init, StoreOf(c)) ==>
              && (resumed.Some? ==> P.Interrupted(init, StoreOf(resumed.value), e))
              && ((resumed.Some? ==> ReadActive(resumed.value) == InProgress(e)) ==> P.Recoverable(init, StoreOf(c')))
              && (c' == Finished(resumed.GetOr(Begun(c, e)), e, After, AsCompletedAt(e, now)) ==>
                    P.Settled(init, StoreOf(c')) && P.Recoverable(init, StoreOf(c')))
  {
    hide P.Settled, P.Recoverable, P.Interrupted, Cached, Finished, StoreOf, O.Restorable, ApplyPoint, AbortPoint, StartsFrom;
    hide AllSatisfied, ReadActive;
    if O.Restorable(StoreOf(c)) {
      PointRestores(c, documents, transactionId, e, now, resumed, c');
    }
    if P.Recoverable(init, StoreOf(c)) {
      PointSound(init, c, documents, transactionId, e, now, resumed, c');
    }
  }

  lemma ApplyLocks(documents: seq<PlannedDocument>)
    ensures LocksOf(ApplyPlans(documents)) == DocLocks(PathsOf(documents))
  {
    var plans, paths := ApplyPlans(documents), PathsOf(documents);
    assert forall i | 0 <= i < |plans| :: plans[i].path == Doc(paths[i]);
    forall l | l in DocLocks(paths) ensures l in LocksOf(plans) {
      var i :| 0 <= i < |paths| && l == Of(Doc(paths[i]));
      assert l == Of(plans[i].path);
    }
  }

  lemma ClearedIsIdle(c: Files)
    ensures ReadActive(Cleared(c)) == Idle
  {
  }

  /** What an apply leaves when its entry could not be prepared. */
  lemma PreparedOnly(c: Files, documents: seq<PlannedDocument>, transactionId: string, e: Entry, now: Timestamp, c': Files)
    requires c' == c || c' == Sequenced(c, Order(e)) || c' == Begun(c, e)
    requires c' != c ==> StartsFrom(c, documents, transactionId, e)
    ensures ApplyPoint(c, e, now, None, c') && RefusedAt(c, e, c') && DocsOf(c') == DocsOf(c)
    ensures ReadActive(c) == Idle ==> ReadActive(c') == if c' == Begun(c, e) then InProgress(e) else Idle
  {
    hide DocsOf, StartsFrom;
    RejectedKeepsDocs(c, e, c');
    PreparedParts(c, documents, transactionId, e, c');
    if ReadActive(c) == Idle {
      if c' == c {
        assert ReadActive(Begun(c, e)) != Idle;
      } else {
        RefusedActive(c, e, c');
      }
    }
  }

  /** What an apply leaves once its entry is prepared, by the answer it gives. */
  lemma CarriedThrough(c: Files, documents: seq<PlannedDocument>, transactionId: string, e: Entry, now: Timestamp,
                       r: ApplyResult, resumed: Option<Files>, c': Files)
    requires StartsFrom(c, documents, transactionId, e)
    requires r.Rejected? ==> c' == Cleared(AbortRecorded(Begun(c, e), e))
    requires !r.Rejected? ==> Advance(resumed.GetOr(Begun(c, e)), e, After, AsCompletedAt(e, now), c')
    requires r.Applied? ==> AtSide(resumed.GetOr(Begun(c, e)), e, After, AsCompletedAt(e, now), c')
    requires r.Indeterminate? ==> Moving(resumed.GetOr(Begun(c, e)), e, After, c')
    ensures ApplyPoint(c, e, now, resumed, c')
    ensures r.Applied? ==> HoldsAfter(c', documents)
    ensures r.Rejected? ==> DocsOf(c') == DocsOf(c) && RefusedAt(c, e, c') && ReadActive(c') == ReadActive(c) == Idle && c' != Begun(c, e)
    ensures r.Indeterminate? && (resumed.Some? ==> ReadActive(resumed.value) == InProgress(e)) ==> ReadActive(c') == InProgress(e)
  {
    hide DocsOf, StartsFrom, AtSide, Advance, HoldsAfter, Moving, ReadActive, StoreOf;
    var q := resumed.GetOr(Begun(c, e));
    StartsIdle(c, documents, transactionId, e);
    ChangesOfEntry(c, documents, transactionId, e);
    BegunReadsActive(c, e);
    if r.Applied? {
      MovedHolds(q, e, documents, AsCompletedAt(e, now), c');
    } else if r.Rejected? {
      RejectedKeepsDocs(c, e, c');
      ClearedIsIdle(AbortRecorded(Begun(c, e), e));
    } else {
      MovingView(q, e, After, c');
      ViewKeepsActive(q, c');
    }
  }

  lemma ConflictIsADocument(documents: seq<PlannedDocument>, c: Files)
    ensures forall t | FirstConflict(ApplyPlans(documents), c, t) :: t.Doc?
  {
  }

  lemma PreparedParts(c: Files, documents: seq<PlannedDocument>, transactionId: string, e: Entry, c': Files)
    requires c' != c ==> StartsFrom(c, documents, transactionId, e)
    ensures c' != c ==> ReadActive(c) == Idle && WellFormed(e) && e.state == Prepared
  {
  }

  lemma ViewKeepsActive(c: Files, c': Files)
    requires StoreOf(c') == StoreOf(c).(docs := DocsOf(c'))
    ensures ReadActive(c') == ReadActive(c)
  {
  }

  lemma StartsInFlight(c: Files, documents: seq<PlannedDocument>, transactionId: string, e: Entry)
    requires StartsFrom(c, documents, transactionId, e)
    ensures WellFormed(e) && e.state == Prepared && e.transactionId == transactionId
    ensures ReadActive(Begun(c, e)) == InProgress(e)
    ensures AllSatisfied(ApplyPlans(documents), c) ==> AllSatisfied(CarryPlans(e, After), Begun(c, e))
  {
    BegunReadsActive(c, e);
    ChangesOfEntry(c, documents, transactionId, e);
    if AllSatisfied(ApplyPlans(documents), c) {
      var plans := CarryPlans(e, After);
      assert forall i | 0 <= i < |plans| :: Satisfied(plans[i], c) && Satisfied(plans[i], Begun(c, e));
    }
  }
}
