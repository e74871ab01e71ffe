/**
 The store as the journal reads it, the steps one entry takes from being active to being archived,
 and the invariant that every one of those steps, and so every crash between them, keeps.
 */
module JournalProtocol {
  import opened Common
  import opened DurableDisk
  import opened JournalModel

  /** `log` is the archive; it is only meaningful when every archive record is `readable`. */
  datatype Store = Store(active: ActiveRead, readable: bool, log: set<Entry>, sequence: int, docs: Docs)

  function Ordered(log: set<Entry>): set<Entry> { set e | e in log && e.completionOrder.Some? }

  function CompletedLog(log: set<Entry>): set<Entry> { set e | e in log && e.state == Completed }

  function Others(log: set<Entry>, id: string): set<Entry> { set e | e in log && e.transactionId != id }

  predicate DistinctIds(log: set<Entry>) {
    forall x, y | x in log && y in log && x.transactionId == y.transactionId :: x == y
  }

  // ---- invariants --------------------------------------------------------------------------

  /** When the sequence file gives a value, no order in the log is above it. */
  ghost predicate Covers(sequence: int, log: set<Entry>) {
    sequence > 0 ==> forall e | e in Ordered(log) :: Order(e) <= sequence
  }

  /** Ids and orders tell entries apart, and the sequence is ahead of every order. */
  ghost predicate NumberedLog(log: set<Entry>, sequence: int) {
    && (forall e | e in log :: WellFormed(e) && !IsActiveState(e.state))
    && DistinctIds(log)
    && DistinctOrders(Ordered(log))
    && Covers(sequence, log)
  }

  /** The archive is well numbered and each completed entry continues the one before it. */
  ghost predicate SoundLog(init: Docs, log: set<Entry>, sequence: int) {
    NumberedLog(log, sequence) && Linked(init, CompletedLog(log))
  }

  /** The documents are the replay of the completed log. */
  ghost predicate Replayed(init: Docs, s: Store) {
    s.docs == Replay(init, CompletedLog(s.log))
  }

  ghost predicate Settled(init: Docs, s: Store) {
    && s.active == Idle && s.readable
    && SoundLog(init, s.log, s.sequence)
    && Replayed(init, s)
  }

  /** `e` has an id and an order of its own. */
  ghost predicate Numbered(others: set<Entry>, sequence: int, e: Entry) {
    && WellFormed(e) && e.completionOrder.Some?
    && (forall x | x in others :: x.transactionId != e.transactionId)
    && (forall x | x in Ordered(others) :: Order(x) != Order(e))
    && (sequence > 0 ==> Order(e) <= sequence)
  }

  /** `e` continues the completed log and comes after all of it. */
  ghost predicate OnTop(init: Docs, others: set<Entry>, sequence: int, e: Entry) {
    && SoundLog(init, others, sequence)
    && Numbered(others, sequence, e)
    && (forall x | x in CompletedLog(others) :: Order(x) < Order(e))
    && Agrees(Replay(init, CompletedLog(others)), Images(e, Before))
  }

  /** Every document of `e` is at one of its two images and all others are as `base` has them. */
  ghost predicate Straddles(base: Docs, e: Entry, docs: Docs) {
    && docs.Keys == base.Keys
    && (forall p | p in base && p !in Images(e, Before) :: docs[p] == base[p])
    && (forall p | p in base && p in Images(e, Before) && p in Images(e, After) ::
          docs[p] == Images(e, Before)[p] || docs[p] == Images(e, After)[p])
  }

  /** `e` is active on top of the rest of the log, whatever its own archive record says so far. */
  ghost predicate InFlight(init: Docs, s: Store, e: Entry) {
    && s.active == InProgress(e) && s.readable
    && OnTop(init, Others(s.log, e.transactionId), s.sequence, e)
    && Straddles(Replay(init, CompletedLog(Others(s.log, e.transactionId))), e, s.docs)
  }

  ghost predicate Recoverable(init: Docs, s: Store) {
    Settled(init, s) || (s.active.InProgress? && InFlight(init, s, s.active.entry))
  }

  // ---- the steps of one entry --------------------------------------------------------------

  /** Some documents moved to their image on `side`, the others stayed. */
  ghost predicate Moving(docs: Docs, e: Entry, side: Side, docs': Docs) {
    forall p :: SameAt(docs, docs', p) || (p in Images(e, side) && SameAt(Images(e, side), docs', p))
  }

  function Moved(s: Store, e: Entry, side: Side): Store { s.(docs := s.docs + Images(e, side)) }

  function Recorded(s: Store, e: Entry): Store { s.(log := Others(s.log, e.transactionId) + {e}) }

  function Activated(s: Store, e: Entry): Store { s.(active := InProgress(e)) }

  function Cleared(s: Store): Store { s.(active := Idle) }

  function Finished(s: Store, e: Entry, side: Side, final: Entry): Store { Cleared(Recorded(Moved(s, e, side), final)) }

  /** How far an entry has got: documents moving, archive record written, active entry cleared. */
  ghost predicate Advance(s: Store, e: Entry, side: Side, final: Entry, s': Store) {
    || (s' == s.(docs := s'.docs) && Moving(s.docs, e, side, s'.docs))
    || s' == Recorded(Moved(s, e, side), final)
    || s' == Finished(s, e, side, final)
  }

  /** `final` is the archive record that names `side` as the image the documents are at. */
  predicate Names(final: Entry, e: Entry, side: Side) {
    && WellFormed(final)
    && final.transactionId == e.transactionId
    && final.completionOrder == e.completionOrder
    && final.documents == e.documents
    && final.state == (if side == Before then Undone else Completed)
  }

  // ---- the steps keep the invariant --------------------------------------------------------

  lemma StraddleKept(base: Docs, e: Entry, side: Side, docs: Docs, docs': Docs)
    requires WellFormed(e) && Straddles(base, e, docs) && Agrees(base, Images(e, Before))
    requires Moving(docs, e, side, docs')
    ensures Straddles(base, e, docs')
  {
    ImagesOfAt(e.documents, Before);
    ImagesOfAt(e.documents, After);
    forall p ensures p in docs' <==> p in base {
      assert SameAt(docs, docs', p) || SameAt(Images(e, side), docs', p);
    }
    forall p | p in base ensures SameAt(docs, docs', p) || (p in Images(e, side) && SameAt(Images(e, side), docs', p)) {}
  }

  lemma MovedIsMoving(docs: Docs, e: Entry, side: Side)
    ensures Moving(docs, e, side, docs + Images(e, side))
  {
    var docs' := docs + Images(e, side);
    forall p ensures SameAt(docs, docs', p) || (p in Images(e, side) && SameAt(Images(e, side), docs', p)) {}
  }

  lemma StraddleSettles(base: Docs, e: Entry, side: Side, docs: Docs)
    requires WellFormed(e) && Straddles(base, e, docs) && Agrees(base, Images(e, Before))
    ensures docs + Images(e, side) == if side == Before then base else base + Images(e, After)
  {
    ImagesOfAt(e.documents, Before);
    ImagesOfAt(e.documents, After);
  }

  lemma MovingKeeps(init: Docs, s: Store, e: Entry, side: Side, docs: Docs)
    requires InFlight(init, s, e) && Moving(s.docs, e, side, docs)
    ensures InFlight(init, s.(docs := docs), e)
  {
    StraddleKept(Replay(init, CompletedLog(Others(s.log, e.transactionId))), e, side, s.docs, docs);
  }

  /** Writing the entry's own archive record, whatever it says, leaves it in flight. */
  lemma RecordingKeeps(init: Docs, s: Store, e: Entry, record: Entry)
    requires InFlight(init, s, e) && record.transactionId == e.transactionId
    ensures InFlight(init, Recorded(s, record), e)
  {
    assert Others(Recorded(s, record).log, e.transactionId) == Others(s.log, e.transactionId);
  }

  lemma LogExtends(init: Docs, others: set<Entry>, e: Entry, side: Side, final: Entry)
    requires Names(final, e, side)
    requires Linked(init, CompletedLog(others)) && Agrees(Replay(init, CompletedLog(others)), Images(e, Before))
    requires forall x | x in CompletedLog(others) :: Order(x) < Order(e)
    ensures Linked(init, CompletedLog(others + {final}))
    ensures var base := Replay(init, CompletedLog(others));
            Replay(init, CompletedLog(others + {final})) == if side == Before then base else base + Images(e, After)
  {
    if side == After {
      assert CompletedLog(others + {final}) == CompletedLog(others) + {final};
      ReplayExtends(init, CompletedLog(others), final);
    } else {
      assert CompletedLog(others + {final}) == CompletedLog(others);
    }
  }

  lemma NumberingExtends(others: set<Entry>, sequence: int, e: Entry, final: Entry)
    requires NumberedLog(others, sequence) && Numbered(others, sequence, e)
    requires WellFormed(final) && !IsActiveState(final.state)
    requires final.transactionId == e.transactionId && final.completionOrder == e.completionOrder
    ensures NumberedLog(others + {final}, sequence)
  {
    assert Ordered(others + {final}) == Ordered(others) + {final};
  }

  /** The log that results when the entry's final record joins the others. */
  lemma LogSettles(init: Docs, others: set<Entry>, sequence: int, e: Entry, side: Side, final: Entry)
    requires Names(final, e, side) && OnTop(init, others, sequence, e)
    ensures SoundLog(init, others + {final}, sequence)
    ensures var base := Replay(init, CompletedLog(others));
            Replay(init, CompletedLog(others + {final})) == if side == Before then base else base + Images(e, After)
  {
    LogExtends(init, others, e, side, final);
    NumberingExtends(others, sequence, e, final);
  }

  /** With the documents at one image and that image recorded, clearing the active entry settles the store. */
  lemma FinishingSettles(init: Docs, s: Store, e: Entry, side: Side, final: Entry)
    requires InFlight(init, s, e) && Names(final, e, side)
    ensures Settled(init, Finished(s, e, side, final))
  {
    var others := Others(s.log, e.transactionId);
    LogSettles(init, others, s.sequence, e, side, final);
    StraddleSettles(Replay(init, CompletedLog(others)), e, side, s.docs);
  }

  /** A crash anywhere in an entry's progress leaves it recoverable, and its end is settled. */
  lemma AdvanceKeeps(init: Docs, s: Store, e: Entry, side: Side, final: Entry, s': Store)
    requires InFlight(init, s, e) && Names(final, e, side)
    requires Advance(s, e, side, final, s')
    ensures if s' == Finished(s, e, side, final) then Settled(init, s') else InFlight(init, s', e)
  {
    if s' == Finished(s, e, side, final) {
      FinishingSettles(init, s, e, side, final);
    } else if s' == Recorded(Moved(s, e, side), final) {
      MovedIsMoving(s.docs, e, side);
      MovingKeeps(init, s, e, side, s.docs + Images(e, side));
      RecordingKeeps(init, Moved(s, e, side), e, final);
    } else {
      MovingKeeps(init, s, e, side, s'.docs);
    }
  }

  // ---- starting an apply, and aborting it --------------------------------------------------

  ghost predicate IsMaxOrder(log: set<Entry>, m: int) {
    && m >= 0
    && (forall e | e in log :: Order(e) <= m)
    && (m == 0 || exists e :: e in log && Order(e) == m)
  }

  /** The next completion order: after the sequence file's value, or after every archived order when it gives none. */
  ghost predicate Reserves(s: Store, order: int) {
    if s.sequence > 0 then order == s.sequence + 1 else IsMaxOrder(s.log, order - 1)
  }

  lemma ReservedOrderIsNew(init: Docs, s: Store, order: int)
    requires SoundLog(init, s.log, s.sequence) && Reserves(s, order)
    ensures order > 0 && forall e | e in Ordered(s.log) :: Order(e) < order
  {
  }

  /** Losing the sequence file, or the value in it, does no harm. */
  lemma SequenceLost(init: Docs, s: Store)
    requires Recoverable(init, s)
    ensures Recoverable(init, s.(sequence := 0))
  {
  }

  /** `e` is a newly prepared entry over what the documents hold now. */
  ghost predicate Prepares(s: Store, e: Entry) {
    && WellFormed(e) && e.state == Prepared
    && (forall x | x in s.log :: x.transactionId != e.transactionId)
    && Reserves(s, Order(e))
    && Agrees(s.docs, Images(e, Before))
  }

  function Reserved(s: Store, order: int): Store { s.(sequence := order) }

  lemma ReservingKeeps(init: Docs, s: Store, order: int)
    requires Settled(init, s) && Reserves(s, order)
    ensures Settled(init, Reserved(s, order))
  {
    ReservedOrderIsNew(init, s, order);
  }

  lemma AllAtBefore(base: Docs, e: Entry)
    requires WellFormed(e) && Agrees(base, Images(e, Before))
    ensures Straddles(base, e, base) && Straddles(base, e, base + Images(e, After))
  {
    ImagesOfAt(e.documents, Before);
    ImagesOfAt(e.documents, After);
  }

  lemma PreparingStarts(init: Docs, s: Store, e: Entry)
    requires Settled(init, s) && Prepares(s, e)
    ensures InFlight(init, Activated(Reserved(s, Order(e)), e), e)
  {
    ReservedOrderIsNew(init, s, Order(e));
    assert Others(s.log, e.transactionId) == s.log;
    assert forall x | x in CompletedLog(s.log) :: x in Ordered(s.log);
    AllAtBefore(Replay(init, CompletedLog(s.log)), e);
  }

  function AbortRecord(e: Entry): Entry { e.(state := Aborted, completedAt := None, completionOrder := None) }

  /** An aborted apply, its documents rolled back, leaves the log as it was. */
  lemma AbortingSettles(init: Docs, s: Store, e: Entry)
    requires InFlight(init, s, e) && e.state == Prepared
    requires s.docs == Replay(init, CompletedLog(Others(s.log, e.transactionId)))
    ensures Settled(init, Cleared(Recorded(s, AbortRecord(e))))
  {
    var others := Others(s.log, e.transactionId);
    assert CompletedLog(others + {AbortRecord(e)}) == CompletedLog(others);
    assert Ordered(others + {AbortRecord(e)}) == Ordered(others);
  }

  // ---- undo and redo -----------------------------------------------------------------------

  ghost predicate IsLatestCompleted(log: set<Entry>, e: Entry) {
    e.state == Completed && Newest(e, CompletedLog(log))
  }

  /** The undone entry with the least order above every completed one. */
  ghost predicate IsNextRedo(log: set<Entry>, e: Entry) {
    && Redoable(log, e)
    && (forall x | Redoable(log, x) :: Order(e) <= Order(x))
  }

  ghost predicate Redoable(log: set<Entry>, e: Entry) {
    e in log && e.state == Undone && forall x | x in CompletedLog(log) :: Order(x) < Order(e)
  }

  function AsUndoing(e: Entry): Entry { e.(state := Undoing) }
  function AsUndone(e: Entry): Entry { e.(state := Undone) }
  function AsRedoing(e: Entry): Entry { e.(state := Redoing) }
  function AsCompleted(e: Entry): Entry { e.(state := Completed) }

  lemma NumberingRetracts(log: set<Entry>, sequence: int, e: Entry, e': Entry)
    requires NumberedLog(log, sequence) && e in log && WellFormed(e') && e.completionOrder.Some?
    requires e'.transactionId == e.transactionId && e'.completionOrder == e.completionOrder
    ensures Others(log, e.transactionId) == log - {e}
    ensures NumberedLog(log - {e}, sequence) && Numbered(log - {e}, sequence, e')
  {
    assert e in Ordered(log) && Ordered(log - {e}) == Ordered(log) - {e};
  }

  lemma WithoutLatest(init: Docs, log: set<Entry>, sequence: int, e: Entry)
    requires SoundLog(init, log, sequence) && IsLatestCompleted(log, e)
    ensures Others(log, e.transactionId) == log - {e}
    ensures OnTop(init, log - {e}, sequence, AsUndoing(e))
    ensures Replay(init, CompletedLog(log)) == Replay(init, CompletedLog(log - {e})) + Images(e, After)
  {
    var completed := CompletedLog(log);
    NumberingRetracts(log, sequence, e, AsUndoing(e));
    assert CompletedLog(log - {e}) == completed - {e};
    assert Newest(Latest(completed), completed);
    assert forall x | x in completed :: x in Ordered(log);
  }

  /** Undo starts from documents that are at the newest entry's after-images: nothing can have moved them. */
  lemma UndoingStarts(init: Docs, s: Store, e: Entry)
    requires Settled(init, s) && IsLatestCompleted(s.log, e)
    ensures Agrees(s.docs, Images(e, After))
    ensures InFlight(init, Activated(s, AsUndoing(e)), AsUndoing(e))
    ensures Names(AsUndone(e), AsUndoing(e), Before)
  {
    WithoutLatest(init, s.log, s.sequence, e);
    AllAtBefore(Replay(init, CompletedLog(s.log - {e})), AsUndoing(e));
  }

  lemma RedoingStarts(init: Docs, s: Store, e: Entry)
    requires Settled(init, s) && IsNextRedo(s.log, e) && Agrees(s.docs, Images(e, Before))
    ensures InFlight(init, Activated(s, AsRedoing(e)), AsRedoing(e))
    ensures Names(AsCompleted(e), AsRedoing(e), After)
  {
    NumberingRetracts(s.log, s.sequence, e, AsRedoing(e));
    assert CompletedLog(s.log - {e}) == CompletedLog(s.log);
    AllAtBefore(s.docs, AsRedoing(e));
  }

  // ---- recovering without an active entry --------------------------------------------------

  /** `InFlight`, except for what the active file says. */
  ghost predicate Interrupted(init: Docs, s: Store, e: Entry) {
    && s.readable
    && OnTop(init, Others(s.log, e.transactionId), s.sequence, e)
    && CompletedLog(s.log) == CompletedLog(Others(s.log, e.transactionId))
    && Straddles(Replay(init, CompletedLog(s.log)), e, s.docs)
  }

  /** An interrupted apply whose entry is still active is in flight. */
  lemma InterruptedIsInFlight(init: Docs, s: Store, e: Entry)
    requires Interrupted(init, s, e)
    ensures InFlight(init, Activated(s, e), e)
    ensures s.active == InProgress(e) ==> InFlight(init, s, e)
  {
  }

  /** Carried all the way forward, an interrupted apply settles whether or not its entry was still active. */
  lemma InterruptedFinishes(init: Docs, s: Store, e: Entry, final: Entry)
    requires Interrupted(init, s, e) && Names(final, e, After)
    ensures Settled(init, Finished(s, e, After, final))
  {
    InterruptedIsInFlight(init, s, e);
    FinishingSettles(init, Activated(s, e), e, After, final);
  }

  /** Any part of an abort may have happened when it fails: it leaves the apply interrupted, or settled. */
  lemma AbortInterrupts(init: Docs, s: Store, e: Entry, s': Store)
    requires InFlight(init, s, e) && e.state == Prepared
    requires Others(s.log, e.transactionId) == s.log && s.docs == Replay(init, CompletedLog(s.log))
    requires s' == s || s' == Recorded(s, AbortRecord(e)) || s' == Cleared(Recorded(s, AbortRecord(e)))
    ensures Interrupted(init, s', e)
    ensures s'.active == InProgress(e) || (s'.active == Idle && Settled(init, s'))
  {
    hide WellFormed, Images, SoundLog, Straddles;
    if s' != s {
      AbortingSettles(init, s, e);
      var log' := s.log + {AbortRecord(e)};
      assert Others(log', e.transactionId) == s.log;
      assert CompletedLog(log') == CompletedLog(s.log);
    }
  }

  /** The entry changes some document. */
  predicate Changes(e: Entry) {
    exists i :: 0 <= i < |e.documents| && e.documents[i].before != e.documents[i].after
  }

  lemma MovedIsElsewhere(base: Docs, e: Entry, docs: Docs)
    requires WellFormed(e) && Agrees(base, Images(e, Before)) && Changes(e)
    ensures docs + Images(e, After) != base
  {
    var i :| 0 <= i < |e.documents| && e.documents[i].before != e.documents[i].after;
    ImagesOfAt(e.documents, Before);
    ImagesOfAt(e.documents, After);
    var p := e.documents[i].documentPath;
    assert p in Images(e, Before) && (docs + Images(e, After))[p] == Images(e, After)[p];
  }

  lemma ForwardIsUnsafeUnlessActive(init: Docs, s: Store, e: Entry, final: Entry)
    requires Interrupted(init, s, e) && Names(final, e, After) && s.active == Idle && Changes(e)
    ensures Advance(s, e, After, final, Moved(s, e, After)) && !Recoverable(init, Moved(s, e, After))
  {
    hide WellFormed, Straddles, SoundLog, Images;
    MovedIsMoving(s.docs, e, After);
    assert Agrees(Replay(init, CompletedLog(s.log)), Images(e, Before));
    MovedIsElsewhere(Replay(init, CompletedLog(s.log)), e, s.docs);
  }

  /**
   Carrying an interrupted apply forward is safe at every point a crash may stop it exactly when the
   active file still names the entry. The recovery that follows a failed abort does not look.
   */
  lemma RecoverySafeIffActive(init: Docs, s: Store, e: Entry, final: Entry)
    requires Interrupted(init, s, e) && Names(final, e, After)
    requires (s.active == InProgress(e) || s.active == Idle) && Changes(e)
    ensures (forall s' | Advance(s, e, After, final, s') :: Recoverable(init, s')) <==> s.active == InProgress(e)
  {
    hide OnTop, Straddles, Settled, Recorded, Moved;
    if s.active == InProgress(e) {
      InterruptedIsInFlight(init, s, e);
      forall s' | Advance(s, e, After, final, s') ensures Recoverable(init, s') {
        AdvanceKeeps(init, s, e, After, final, s');
        if s' != Finished(s, e, After, final) {
          assert InFlight(init, s', e);
        }
      }
    } else {
      ForwardIsUnsafeUnlessActive(init, s, e, final);
    }
  }
}
