/**
 What the journal keeps whatever becomes of the documents: the archive reads back, ids and orders are
 distinct, the active entry comes after everything completed, and its own documents are at its images.
 Documents may be edited outside the journal while nothing is active.
 */
module JournalOrder {
  import opened Common
  import opened DurableDisk
  import opened JournalModel
  import opened JournalProtocol

  /** Without its own record, `e` has an id and an order of its own in `log`, above every completed one. */
  ghost predicate Topmost(log: set<Entry>, sequence: int, e: Entry) {
    var others := Others(log, e.transactionId);
    && NumberedLog(others, sequence) && Numbered(others, sequence, e)
    && forall x | x in CompletedLog(others) :: Order(x) < Order(e)
  }

  ghost predicate Orderly(s: Store) {
    && s.readable
    && match s.active
       case Idle => NumberedLog(s.log, s.sequence)
       case InProgress(e) => Topmost(s.log, s.sequence, e)
       case InvalidActive => false
  }

  /** Every document of `e` is at one of its two images. */
  ghost predicate AtImages(docs: Docs, e: Entry) {
    && Images(e, Before).Keys == Images(e, After).Keys
    && forall p | p in Images(e, Before) :: p in docs && (docs[p] == Images(e, Before)[p] || docs[p] == Images(e, After)[p])
  }

  ghost predicate Restorable(s: Store) {
    Orderly(s) && (s.active.InProgress? ==> AtImages(s.docs, s.active.entry))
  }

  lemma SameKeys(e: Entry)
    requires WellFormed(e)
    ensures Images(e, Before).Keys == Images(e, After).Keys
  {
    ImagesOfAt(e.documents, Before);
    ImagesOfAt(e.documents, After);
  }

  /** A store that replays its log is restorable. */
  lemma RecoverableIsRestorable(init: Docs, s: Store)
    requires Recoverable(init, s)
    ensures Restorable(s)
  {
    hide WellFormed, Images, Linked;
    if s.active.InProgress? {
      SameKeys(s.active.entry);
    }
  }

  // ---- an entry on its way -----------------------------------------------------------------

  /** `e` is being carried to an image: it is active, or was when the carrying began. */
  ghost predicate Carried(s: Store, e: Entry) {
    Orderly(s) && Topmost(s.log, s.sequence, e) && (s.active == Idle || s.active == InProgress(e))
  }

  lemma RecordKeeps(s: Store, e: Entry, record: Entry)
    requires Carried(s, e) && WellFormed(record) && !IsActiveState(record.state)
    requires record.transactionId == e.transactionId && (record.completionOrder == e.completionOrder || record.completionOrder == None)
    ensures Carried(Recorded(s, record), e)
    ensures NumberedLog(Recorded(s, record).log, s.sequence)
  {
    hide WellFormed, Images;
    var others := Others(s.log, e.transactionId);
    assert Others(Recorded(s, record).log, e.transactionId) == others;
    if record.completionOrder == None {
      assert Ordered(others + {record}) == Ordered(others);
    } else {
      NumberingExtends(others, s.sequence, e, record);
    }
  }

  lemma MoveKeeps(s: Store, e: Entry, docs: Docs)
    requires Carried(s, e)
    ensures Carried(s.(docs := docs), e)
  {
  }

  lemma ImagesKept(e: Entry, side: Side, docs: Docs, docs': Docs)
    requires AtImages(docs, e) && Moving(docs, e, side, docs')
    ensures AtImages(docs', e)
  {
    forall p | p in Images(e, Before)
      ensures p in docs' && (docs'[p] == Images(e, Before)[p] || docs'[p] == Images(e, After)[p])
    {
      assert SameAt(docs, docs', p) || (p in Images(e, side) && SameAt(Images(e, side), docs', p));
    }
  }

  /** Every point on an entry's way is orderly; while the entry is active its documents are at its images. */
  lemma AdvanceIsOrderly(s: Store, e: Entry, side: Side, final: Entry, s': Store)
    requires Carried(s, e) && Names(final, e, side) && Advance(s, e, side, final, s')
    ensures Carried(s', e)
    ensures s'.active == s.active || s' == Finished(s, e, side, final)
    ensures s' == Finished(s, e, side, final) ==> s'.active == Idle
    ensures AtImages(s.docs, e) ==> AtImages(s'.docs, e)
  {
    hide WellFormed, Images, NumberedLog, Numbered, Topmost, AtImages, Moving;
    if s' == s.(docs := s'.docs) && Moving(s.docs, e, side, s'.docs) {
      MoveKeeps(s, e, s'.docs);
      if AtImages(s.docs, e) {
        ImagesKept(e, side, s.docs, s'.docs);
      }
    } else {
      var m := Moved(s, e, side);
      MoveKeeps(s, e, m.docs);
      RecordKeeps(m, e, final);
      MovedIsMoving(s.docs, e, side);
      if AtImages(s.docs, e) {
        ImagesKept(e, side, s.docs, m.docs);
      }
      ClearKeeps(Recorded(m, final), e);
    }
  }

  /** With every archive record in order, clearing the active entry keeps the store so. */
  lemma ClearKeeps(s: Store, e: Entry)
    requires Carried(s, e) && NumberedLog(s.log, s.sequence)
    ensures Carried(Cleared(s), e)
  {
  }

  // ---- starting ----------------------------------------------------------------------------

  lemma IdleIsNumbered(s: Store)
    requires Orderly(s) && s.active == Idle
    ensures s.readable && NumberedLog(s.log, s.sequence)
  {
  }

  lemma ReservedIsNew(s: Store, order: int)
    requires Orderly(s) && s.active == Idle && Reserves(s, order)
    ensures order > 0 && forall e | e in Ordered(s.log) :: Order(e) < order
    ensures Orderly(Reserved(s, order))
  {
  }

  lemma PreparingIsOrderly(s: Store, e: Entry)
    requires Orderly(s) && s.active == Idle && WellFormed(e) && e.state == Prepared && Reserves(s, Order(e))
    requires forall x | x in s.log :: x.transactionId != e.transactionId
    ensures Carried(Activated(Reserved(s, Order(e)), e), e)
    ensures Others(s.log, e.transactionId) == s.log
  {
    ReservedIsNew(s, Order(e));
    assert Others(s.log, e.transactionId) == s.log;
  }

  lemma UndoingIsOrderly(s: Store, e: Entry)
    requires Orderly(s) && s.active == Idle && IsLatestCompleted(s.log, e)
    ensures Others(s.log, e.transactionId) == s.log - {e}
    ensures Carried(Activated(s, AsUndoing(e)), AsUndoing(e)) && Names(AsUndone(e), AsUndoing(e), Before)
  {
    NumberingRetracts(s.log, s.sequence, e, AsUndoing(e));
    forall x | x in CompletedLog(s.log - {e}) ensures Order(x) < Order(e) {
      assert x in Ordered(s.log) && e in Ordered(s.log) && x in CompletedLog(s.log);
    }
  }

  lemma RedoingIsOrderly(s: Store, e: Entry)
    requires Orderly(s) && s.active == Idle && IsNextRedo(s.log, e)
    ensures Others(s.log, e.transactionId) == s.log - {e}
    ensures Carried(Activated(s, AsRedoing(e)), AsRedoing(e)) && Names(AsCompleted(e), AsRedoing(e), After)
  {
    NumberingRetracts(s.log, s.sequence, e, AsRedoing(e));
    assert CompletedLog(s.log - {e}) <= CompletedLog(s.log);
  }

  lemma AgreeingIsAtImages(docs: Docs, e: Entry, side: Side)
    requires WellFormed(e) && Agrees(docs, Images(e, side))
    ensures AtImages(docs, e)
  {
    SameKeys(e);
  }

  /** Any part of an abort keeps the store orderly. */
  lemma AbortIsOrderly(s: Store, e: Entry, s': Store)
    requires Carried(s, e) && e.state == Prepared
    requires s' == s || s' == Recorded(s, AbortRecord(e)) || s' == Cleared(Recorded(s, AbortRecord(e)))
    ensures Carried(s', e) && s'.docs == s.docs
  {
    if s' != s {
      RecordKeeps(s, e, AbortRecord(e));
      ClearKeeps(Recorded(s, AbortRecord(e)), e);
    }
  }

  lemma SequenceLostIsOrderly(s: Store)
    requires Restorable(s)
    ensures Restorable(s.(sequence := 0))
  {
  }

  /** Documents may be edited while nothing is active. */
  lemma EditIsRestorable(s: Store, docs: Docs)
    requires Restorable(s) && s.active == Idle
    ensures Restorable(s.(docs := docs))
  {
  }

  /** An entry that has been carried forward is the newest completed one. */
  lemma FinishedIsLatest(s: Store, e: Entry, final: Entry)
    requires Carried(s, e) && Names(final, e, After)
    ensures IsLatestCompleted(Finished(s, e, After, final).log, final)
  {
  }
}
