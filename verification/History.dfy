/** Whole runs of the journal: any mix of operations, each stopped anywhere. */
module History {
  import opened Common
  import opened DurableDisk
  import opened AtomicWrite
  import opened JournalModel
  import opened JournalFiles
  import opened ApplyJournal
  import opened ApplyTransaction
  import O = JournalOrder
  import P = JournalProtocol

  /** One call, or the part of it that ran before the process died. */
  datatype Event =
    | Apply(documents: seq<PlannedDocument>, transactionId: string, entry: Entry, resumed: Option<Files>)
    | Undo
    | Redo(final: Entry)
    | Recover
    | LoseSequence
    | Edit

  /** No document was edited outside the journal, and no failed abort carried forward once its entry was cleared. */
  ghost predicate Journaled(event: Event) {
    && !event.Edit?
    && (event.Apply? && event.resumed.Some? ==> ReadActive(event.resumed.value) == InProgress(event.entry))
  }

  ghost predicate Step(c: Files, event: Event, now: Timestamp, c': Files) {
    match event
    case Apply(documents, id, e, resumed) =>
      || c' == c
      || (StartsFrom(c, documents, id, e) && AllSatisfied(ApplyPlans(documents), c) && Archive(id) !in c
          && (resumed.Some? ==> AbortPoint(Begun(c, e), e, resumed.value)) && ApplyPoint(c, e, now, resumed, c'))
    case Undo => UndoPoint(c, c')
    case Redo(final) => RedoPoint(c, now, final, c')
    case Recover => RecoveryPoint(c, now, c')
    case LoseSequence => ReadSequence(c') == 0 && forall t: Target | t != Sequence :: SameAt(c, c', t)
    case Edit => c' == c || (ReadActive(c) == Idle && forall t: Target | !t.Doc? :: SameAt(c, c', t))
  }

  ghost predicate Run(states: seq<Files>, events: seq<Event>, times: seq<Timestamp>) {
    && |states| == |events| + 1 && |times| == |events|
    && (forall i | 0 <= i < |times| :: times[i].Instant?)
    && (forall i | 0 <= i < |events| :: Step(states[i], events[i], times[i], states[i + 1]))
  }

  lemma IdleAgain(init: Docs, c: Files)
    requires P.Recoverable(init, StoreOf(c))
    ensures ReadActive(c) == Idle ==> P.Settled(init, StoreOf(c))
    ensures ReadActive(c) != InvalidActive && ArchiveReadable(c)
    ensures ReadActive(c).InProgress? ==>
              P.InFlight(init, StoreOf(c), ReadActive(c).entry) && IsActiveState(ReadActive(c).entry.state)
  {
  }

  lemma UndoKept(init: Docs, c: Files, c': Files)
    requires P.Recoverable(init, StoreOf(c)) && UndoPoint(c, c')
    ensures P.Recoverable(init, StoreOf(c'))
  {
    hide P.Recoverable, P.Settled, CarryPoint, WellFormed, StoreOf;
    if c' != c {
      IdleAgain(init, c);
      ArchiveIsNamed(c);
      var e :| P.IsLatestCompleted(Archived(c), e) && CarryPoint(c, P.AsUndoing(e), Before, P.AsUndone(e), c');
      StoreLog(c);
      UndoPointSound(init, c, e, c');
    }
  }

  lemma StoreLog(c: Files)
    requires ArchiveReadable(c)
    ensures StoreOf(c).log == Archived(c)
  {
  }

  lemma RedoKept(init: Docs, c: Files, now: Timestamp, final: Entry, c': Files)
    requires P.Recoverable(init, StoreOf(c)) && RedoPoint(c, now, final, c') && now.Instant?
    ensures P.Recoverable(init, StoreOf(c'))
  {
    hide P.Recoverable, P.Settled, P.InFlight, CarryPoint, WellFormed, StoreOf, AllSatisfied, P.Names;
    if c' != c {
      IdleAgain(init, c);
      ArchiveIsNamed(c);
      var e :| P.IsNextRedo(Archived(c), e) && IsFinal(final, P.AsRedoing(e), After, now)
               && AllSatisfied(CarryPlans(P.AsRedoing(e), After), c) && CarryPoint(c, P.AsRedoing(e), After, final, c');
      StoreLog(c);
      RedoKeeps(init, c, e, now);
      RedoingWellFormed(e);
      CarrySound(init, c, P.AsRedoing(e), After, final, c');
    }
  }

  lemma RecoverKept(init: Docs, c: Files, now: Timestamp, c': Files)
    requires P.Recoverable(init, StoreOf(c)) && RecoveryPoint(c, now, c') && now.Instant?
    ensures P.Recoverable(init, StoreOf(c'))
  {
    hide P.Recoverable, P.Settled, P.InFlight, StoreOf, Advance;
    IdleAgain(init, c);
    if ReadActive(c).InProgress? {
      RecoveryKeeps(init, c, ReadActive(c).entry, now, c');
    }
  }

  lemma SequenceKept(init: Docs, c: Files, c': Files)
    requires P.Recoverable(init, StoreOf(c))
    requires ReadSequence(c') == 0 && forall t: Target | t != Sequence :: SameAt(c, c', t)
    ensures P.Recoverable(init, StoreOf(c'))
  {
    SequenceIgnored(c, c');
    P.SequenceLost(init, StoreOf(c));
  }

  lemma SequenceIgnored(c: Files, c': Files)
    requires ReadSequence(c') == 0 && forall t: Target | t != Sequence :: SameAt(c, c', t)
    ensures StoreOf(c') == StoreOf(c).(sequence := 0)
  {
    var cell := Whole(NullText);
    var d, d' := c[Sequence := cell], c'[Sequence := cell];
    forall t ensures SameAt(d, d', t) {
      assert t != Sequence ==> SameAt(c, c', t);
    }
    SameEverywhere(d, d');
    NonDocKept(c, Sequence, cell);
    NonDocKept(c', Sequence, cell);
    NonArchiveKept(c, Sequence, cell);
    NonArchiveKept(c', Sequence, cell);
  }

  lemma StepKeeps(init: Docs, c: Files, event: Event, now: Timestamp, c': Files)
    requires P.Recoverable(init, StoreOf(c)) && Step(c, event, now, c') && Journaled(event) && now.Instant?
    ensures P.Recoverable(init, StoreOf(c'))
  {
    hide P.Recoverable, StoreOf, UndoPoint, RedoPoint, RecoveryPoint, ApplyPoint, ReadSequence, ReadActive, AllSatisfied, StartsFrom;
    match event
    case Apply(documents, id, e, resumed) =>
      if c' != c {
        PointSound(init, c, documents, id, e, now, resumed, c');
      }
    case Undo => UndoKept(init, c, c');
    case Redo(final) => RedoKept(init, c, now, final, c');
    case Recover => RecoverKept(init, c, now, c');
    case LoseSequence => SequenceKept(init, c, c');
  }

  // ---- whatever the documents hold ---------------------------------------------------------

  lemma UndoRestored(c: Files, c': Files)
    requires O.Restorable(StoreOf(c)) && UndoPoint(c, c')
    ensures O.Restorable(StoreOf(c'))
  {
    hide O.Restorable, CarryPoint, WellFormed, StoreOf, AllSatisfied;
    if c' != c {
      ArchiveIsNamed(c);
      var e :| P.IsLatestCompleted(Archived(c), e) && AllSatisfied(CarryPlans(P.AsUndoing(e), Before), c)
               && CarryPoint(c, P.AsUndoing(e), Before, P.AsUndone(e), c');
      StoreLog(c);
      UndoRestores(c, e, c');
    }
  }

  lemma RedoRestored(c: Files, now: Timestamp, final: Entry, c': Files)
    requires O.Restorable(StoreOf(c)) && RedoPoint(c, now, final, c') && now.Instant?
    ensures O.Restorable(StoreOf(c'))
  {
    hide O.Restorable, CarryPoint, WellFormed, StoreOf, AllSatisfied, P.Names;
    if c' != c {
      ArchiveIsNamed(c);
      var e :| P.IsNextRedo(Archived(c), e) && IsFinal(final, P.AsRedoing(e), After, now)
               && AllSatisfied(CarryPlans(P.AsRedoing(e), After), c) && CarryPoint(c, P.AsRedoing(e), After, final, c');
      StoreLog(c);
      RedoFinals(e, now);
      RedoRestores(c, e, final, c');
    }
  }

  lemma EditRestored(c: Files, c': Files)
    requires O.Restorable(StoreOf(c)) && ReadActive(c) == Idle && forall t: Target | !t.Doc? :: SameAt(c, c', t)
    ensures O.Restorable(StoreOf(c'))
  {
    hide ArchiveReadable, Archived, ReadSequence, ReadActive, DocsOf;
    OnlyDocsDiffer(c, c');
    O.EditIsRestorable(StoreOf(c), DocsOf(c'));
  }

  /** Every operation and every direct edit, stopped anywhere, keeps the journal in order. */
  lemma StepRestores(c: Files, event: Event, now: Timestamp, c': Files)
    requires O.Restorable(StoreOf(c)) && Step(c, event, now, c') && now.Instant?
    ensures O.Restorable(StoreOf(c'))
  {
    hide O.Restorable, StoreOf, UndoPoint, RedoPoint, ApplyPoint, ReadSequence, ReadActive, AllSatisfied, StartsFrom, Advance;
    match event
    case Apply(documents, id, e, resumed) =>
      if c' != c {
        PointRestores(c, documents, id, e, now, resumed, c');
      }
    case Undo => UndoRestored(c, c');
    case Redo(final) => RedoRestored(c, now, final, c');
    case Recover =>
      if ReadActive(c).InProgress? {
        RecoveryRestores(c, ReadActive(c).entry, now, c');
      }
    case LoseSequence =>
      SequenceIgnored(c, c');
      O.SequenceLostIsOrderly(StoreOf(c));
    case Edit =>
      if c' != c {
        EditRestored(c, c');
      }
  }

  /**
   In every run, direct edits and failed aborts included, every state can be recovered from: archive
   and active entry read back, each document of the active entry is at one of its two images, and
   whenever nothing is active the next order is a new one.
   */
  lemma {:induction false} RunsStayRestorable(states: seq<Files>, events: seq<Event>, times: seq<Timestamp>, k: nat)
    requires Run(states, events, times) && O.Restorable(StoreOf(states[0])) && k < |states|
    ensures O.Restorable(StoreOf(states[k]))
    ensures ArchiveReadable(states[k]) && ReadActive(states[k]) != InvalidActive
    ensures ReadActive(states[k]).InProgress? ==> AtAnImage(states[k], ReadActive(states[k]).entry)
    ensures ReadActive(states[k]) == Idle ==>
              forall n, e | P.Reserves(StoreOf(states[k]), n) && e in P.Ordered(Archived(states[k])) :: Order(e) < n
  {
    hide O.Restorable, StoreOf, Step, ReadActive, Archived, ArchiveReadable, DocsOf, P.Reserves, AtAnImage, O.AtImages, WellFormed;
    if k > 0 {
      RunsStayRestorable(states, events, times, k - 1);
      StepRestores(states[k - 1], events[k - 1], times[k - 1], states[k]);
    }
    RestorableParts(states[k]);
    if ReadActive(states[k]).InProgress? {
      var e := ReadActive(states[k]).entry;
      ActiveIsWellFormed(states[k], e);
      ActiveIsCarried(states[k], e);
      HashTestPasses(states[k], e);
    } else {
      OrderIsNew(states[k]);
    }
  }

  lemma RestorableParts(c: Files)
    requires O.Restorable(StoreOf(c))
    ensures ArchiveReadable(c) && ReadActive(c) != InvalidActive
  {
  }

  lemma OrderIsNew(c: Files)
    requires O.Restorable(StoreOf(c)) && ReadActive(c) == Idle && ArchiveReadable(c)
    ensures forall n, e | P.Reserves(StoreOf(c), n) && e in P.Ordered(Archived(c)) :: Order(e) < n
  {
    forall n, e | P.Reserves(StoreOf(c), n) && e in P.Ordered(Archived(c)) ensures Order(e) < n {
      O.ReservedIsNew(StoreOf(c), n);
    }
  }

  /** In a run without direct edits the documents are the replay of the completed log whenever nothing is active. */
  lemma {:induction false} RunsStayRecoverable(init: Docs, states: seq<Files>, events: seq<Event>, times: seq<Timestamp>, k: nat)
    requires Run(states, events, times) && P.Recoverable(init, StoreOf(states[0])) && k < |states|
    requires forall i | 0 <= i < |events| :: Journaled(events[i])
    ensures P.Recoverable(init, StoreOf(states[k]))
    ensures ReadActive(states[k]) != InvalidActive && ArchiveReadable(states[k])
    ensures ReadActive(states[k]) == Idle ==> DocsOf(states[k]) == Replay(init, P.CompletedLog(Archived(states[k])))
    ensures ReadActive(states[k]).InProgress? ==> AtAnImage(states[k], ReadActive(states[k]).entry)
    ensures ReadActive(states[k]) == Idle ==>
              forall n, e | P.Reserves(StoreOf(states[k]), n) && e in P.Ordered(Archived(states[k])) :: Order(e) < n
  {
    hide P.Recoverable, StoreOf, Step, ReadActive, Archived, ArchiveReadable, DocsOf, P.Settled, P.InFlight, Journaled, O.Restorable, P.Reserves, AtAnImage;
    O.RecoverableIsRestorable(init, StoreOf(states[0]));
    RunsStayRestorable(states, events, times, k);
    if k > 0 {
      RunsStayRecoverable(init, states, events, times, k - 1);
      StepKeeps(init, states[k - 1], events[k - 1], times[k - 1], states[k]);
    }
    IdleAgain(init, states[k]);
    if ReadActive(states[k]) == Idle {
      SettledDocs(init, states[k]);
    }
  }

  lemma SettledDocs(init: Docs, c: Files)
    requires P.Settled(init, StoreOf(c)) && ArchiveReadable(c)
    ensures DocsOf(c) == Replay(init, P.CompletedLog(Archived(c)))
  {
  }

  // ---- how recovery ends -------------------------------------------------------------------

  /** A finished recovery leaves nothing active, every document at one image, and an archive record that names it. */
  lemma RecoveryEnds(init: Docs, c: Files, e: Entry, now: Timestamp)
    requires P.InFlight(init, StoreOf(c), e) && IsActiveState(e.state) && now.Instant?
    ensures var side := Toward(e);
            var done := Finished(c, e, side, FinalOf(e, side, now));
            && ReadActive(done) == Idle
            && Agrees(DocsOf(done), Images(e, side))
            && ReadArchived(done, e.transactionId) == Some(FinalOf(e, side, now))
            && FinalOf(e, side, now).state == (if e.state == Undoing then Undone else Completed)
  {
    hide ArchiveReadable, Archived, WellFormed, Images, FileImages, DocsOf, P.InFlight, StoreOf;
    var side := Toward(e);
    var final := FinalOf(e, side, now);
    ActiveWellFormed(init, c, e);
    FinalNames(e, now);
    DocsMoved(c, Images(e, side));
    NonDocKept(Moved(c, e, side), Archive(final.transactionId), Whole(SerializeJournal(final)));
    NonDocKept(Recorded(Moved(c, e, side), final), Active, Whole(NullText));
  }

  lemma ActiveWellFormed(init: Docs, c: Files, e: Entry)
    requires P.InFlight(init, StoreOf(c), e)
    ensures WellFormed(e)
  {
  }

  /** However often a recovery is cut short, finishing it gives the files that finishing it at once would have given. */
  lemma RecoveryConverges(c: Files, e: Entry, side: Side, first: Entry, c': Files, final: Entry)
    requires Advance(c, e, side, first, c') && first.transactionId == final.transactionId
    ensures Finished(c', e, side, final) == Finished(c, e, side, final)
  {
    var done, done' := Finished(c, e, side, final), Finished(c', e, side, final);
    forall t ensures SameAt(done, done', t) {
      MovedAt(c, Images(e, side), t);
      MovedAt(c', Images(e, side), t);
      if Moving(c, e, side, c') {
        assert SameAt(c, c', t) || MovedTo(e, side, c', t);
      }
    }
    SameEverywhere(done, done');
  }
}
