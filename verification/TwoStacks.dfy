/**
 The archive as two stacks, over whole runs. Undo and redo take an entry off one stack and land it on
 the other; a crash leaves it underway between them. Which entries they pick is decided by completion
 orders alone.
 */
module TwoStacks {
  import opened Common
  import opened DurableDisk
  import opened AtomicWrite
  import opened JournalModel
  import opened JournalFiles
  import opened ApplyJournal
  import opened ApplyTransaction
  import opened History
  import opened UndoStack
  import O = JournalOrder
  import P = JournalProtocol

  /** What has been done, oldest first, and what has been undone, next to redo first. */
  datatype Stacks = Stacks(past: seq<Entry>, future: seq<Entry>)

  ghost predicate Rising(entries: seq<Entry>) {
    forall i, j | 0 <= i < j < |entries| :: Order(entries[i]) < Order(entries[j])
  }

  ghost predicate Abstracts(log: set<Entry>, k: Stacks) {
    && Rising(k.past) && Rising(k.future)
    && (forall e, x | e in k.past && x in k.future :: Order(e) < Order(x))
    && (forall e :: e in k.past <==> e in P.CompletedLog(log))
    && (forall e :: e in k.future <==> e in log && e.state == Undone)
  }

  /** Undo is offered the top of the past. */
  lemma PastTop(log: set<Entry>, sequence: int, k: Stacks, e: Entry)
    requires P.NumberedLog(log, sequence) && Abstracts(log, k)
    ensures P.IsLatestCompleted(log, e) <==> k.past != [] && e == k.past[|k.past| - 1]
  {
    if k.past != [] {
      var top := k.past[|k.past| - 1];
      assert top in k.past;
      forall x | x in P.CompletedLog(log) ensures Order(x) <= Order(top) {
        assert x in k.past;
      }
      if P.IsLatestCompleted(log, e) {
        SplitLatest(log, sequence, e);
      }
    }
  }

  /** Redo is offered the head of the future. */
  lemma FutureHead(log: set<Entry>, k: Stacks, e: Entry)
    requires Abstracts(log, k)
    ensures P.IsNextRedo(log, e) <==> k.future != [] && e == k.future[0]
  {
    forall x ensures P.Redoable(log, x) <==> x in k.future {
      if x in k.future {
        forall y | y in P.CompletedLog(log) ensures Order(y) < Order(x) {
          assert y in k.past;
        }
      }
    }
    if k.future != [] {
      assert k.future[0] in k.future;
      if P.IsNextRedo(log, e) {
        assert e in k.future && P.Redoable(log, k.future[0]);
      }
    }
  }

  /** The documents that a stack of completed entries leaves. */
  ghost function Fold(init: Docs, past: seq<Entry>): Docs {
    if past == [] then init else Fold(init, past[..|past| - 1]) + Images(past[|past| - 1], After)
  }

  lemma {:induction false} FoldIsReplay(init: Docs, past: seq<Entry>, log: set<Entry>)
    requires Rising(past) && forall e :: e in past <==> e in log
    ensures Fold(init, past) == Replay(init, log)
    decreases |past|
  {
    hide Images, Latest;
    if past == [] {
      assert log == {};
    } else {
      var rest, top := past[..|past| - 1], past[|past| - 1];
      TakeTop(past, log);
      FoldIsReplay(init, rest, log - {top});
      ReplayExtends(init, log - {top}, top);
      assert log - {top} + {top} == log;
    }
  }

  lemma TakeTop(past: seq<Entry>, log: set<Entry>)
    requires Rising(past) && past != [] && forall e :: e in past <==> e in log
    ensures var rest, top := past[..|past| - 1], past[|past| - 1];
            && top in log && Rising(rest)
            && (forall e :: e in rest <==> e in log - {top})
            && (forall x | x in log - {top} :: Order(x) < Order(top))
  {
    var rest, top := past[..|past| - 1], past[|past| - 1];
    assert past == rest + [top];
    assert top in past;
    forall e ensures e in rest <==> e in log - {top} {
      if e in rest {
        assert e in past && Order(e) < Order(top);
      }
    }
    forall x | x in log - {top} ensures Order(x) < Order(top) {
      assert x in rest;
    }
  }

  /** Two stacks have nothing abandoned, so while the store behaves as two stacks redos revert as many undos. */
  lemma StacksAbandonNothing(log: set<Entry>, k: Stacks, low: set<Entry>, top: Entry)
    requires Abstracts(log, k) && P.IsLatestCompleted(log, top)
    ensures NoneAbandoned(log, low, top)
  {
    assert top in k.past;
    assert forall x | x in log && x.state == Undone :: x in k.future;
  }

  // ---- the machine -------------------------------------------------------------------------

  /** Nothing active, or one entry off the stacks on its way to one of them. */
  datatype Machine = AtRest(stacks: Stacks) | Underway(stacks: Stacks, entry: Entry)

  /** A call takes its entry: apply a new one over an empty future, undo the top of the past, redo the head of the future. */
  function Taken(k: Stacks, event: Event): Option<Machine> {
    match event
    case Apply(_, _, e, _) => if k.future == [] && e.state == Prepared then Some(Underway(k, e)) else None
    case Undo =>
      if k.past == [] then None
      else Some(Underway(Stacks(k.past[..|k.past| - 1], k.future), P.AsUndoing(k.past[|k.past| - 1])))
    case Redo(_) =>
      if k.future == [] then None
      else Some(Underway(Stacks(k.past, k.future[1..]), P.AsRedoing(k.future[0])))
    case _ => None
  }

  function Landed(k: Stacks, final: Entry): Stacks {
    if final.state == Completed then Stacks(k.past + [final], k.future) else Stacks(k.past, [final] + k.future)
  }

  /** The entry underway lands where its state says: undoing on the future, all else on the past. */
  ghost predicate Lands(m: Machine, k: Stacks) {
    m.Underway? && exists final, t :: LandsAs(m, final, t, k)
  }

  ghost predicate LandsAs(m: Machine, final: Entry, t: Timestamp, k: Stacks)
    requires m.Underway?
  {
    IsFinal(final, m.entry, Toward(m.entry), t) && P.Names(final, m.entry, Toward(m.entry)) && k == Landed(m.stacks, final)
  }

  /**
   What a call, or the part of it before a crash, may do: nothing; take its own entry, and land it or not;
   or, for a recovery, land the entry that is underway.
   */
  ghost predicate Does(event: Event, m: Machine, m': Machine) {
    || m' == m
    || (m.AtRest? && Taken(m.stacks, event).Some? && TakesTo(Taken(m.stacks, event).value, m'))
    || (event.Recover? && m'.AtRest? && Lands(m, m'.stacks))
  }

  ghost predicate TakesTo(taken: Machine, m': Machine) {
    m' == taken || (m'.AtRest? && Lands(taken, m'.stacks))
  }

  /** While an entry is underway the other entries are the stacks, and the entry belongs between them. */
  ghost predicate Splits(log: set<Entry>, k: Stacks, e: Entry) {
    Abstracts(P.Others(log, e.transactionId), k) && forall x | x in k.future :: Order(e) < Order(x)
  }

  ghost predicate Mirrors(m: Machine, s: P.Store) {
    match m
    case AtRest(k) => s.active == Idle && Abstracts(s.log, k)
    case Underway(k, e) => s.active == InProgress(e) && IsActiveState(e.state) && Splits(s.log, k, e)
  }

  // ---- landing -----------------------------------------------------------------------------

  /** The entry's archive record goes between the stacks, on the side its state says. */
  lemma LandingAbstracts(others: set<Entry>, k: Stacks, final: Entry)
    requires Abstracts(others, k) && final.state in {Completed, Undone}
    requires forall x | x in P.CompletedLog(others) :: Order(x) < Order(final)
    requires forall x | x in k.future :: Order(final) < Order(x)
    ensures Abstracts(others + {final}, Landed(k, final))
  {
    var k' := Landed(k, final);
    assert forall x | x in k.past :: x in P.CompletedLog(others);
    if final.state == Completed {
      assert P.CompletedLog(others + {final}) == P.CompletedLog(others) + {final};
      assert forall x :: x in k'.past <==> x in k.past || x == final;
    } else {
      assert P.CompletedLog(others + {final}) == P.CompletedLog(others);
      assert forall x :: x in k'.future <==> x in k.future || x == final;
    }
  }

  lemma BelowTop(s: P.Store, e: Entry, final: Entry)
    requires O.Topmost(s.log, s.sequence, e) && Order(final) == Order(e)
    ensures forall x | x in P.CompletedLog(P.Others(s.log, e.transactionId)) :: Order(x) < Order(final)
  {
  }

  /** Along an entry's way the other entries stay; once its record is written, all of them are the landed stacks. */
  lemma AdvanceSplits(s: P.Store, k: Stacks, e: Entry, side: Side, final: Entry, s': P.Store)
    requires O.Carried(s, e) && Splits(s.log, k, e) && P.Names(final, e, side) && P.Advance(s, e, side, final, s')
    ensures Splits(s'.log, k, e)
    ensures s'.log == s.log || Abstracts(s'.log, Landed(k, final))
    ensures s' == P.Finished(s, e, side, final) ==> Abstracts(s'.log, Landed(k, final))
  {
    hide Abstracts, O.Topmost, WellFormed, Images, P.Moving, P.Moved;
    var others := P.Others(s.log, e.transactionId);
    BelowTop(s, e, final);
    LandingAbstracts(others, k, final);
    assert P.Others(others + {final}, e.transactionId) == others;
    assert P.Moved(s, e, side).log == s.log by {
      MovedLog(s, e, side);
    }
  }

  lemma MovedLog(s: P.Store, e: Entry, side: Side)
    ensures P.Moved(s, e, side).log == s.log && P.Moved(s, e, side).active == s.active
  {
  }

  /** An active entry carried on is still underway, or has landed. */
  lemma CarryMirrors(s: P.Store, k: Stacks, e: Entry, final: Entry, t: Timestamp, s': P.Store) returns (m: Machine)
    requires O.Carried(s, e) && s.active == InProgress(e) && IsActiveState(e.state) && Splits(s.log, k, e)
    requires IsFinal(final, e, Toward(e), t) && P.Names(final, e, Toward(e)) && P.Advance(s, e, Toward(e), final, s')
    ensures Mirrors(m, s') && TakesTo(Underway(k, e), m)
  {
    hide O.Carried, Splits, Abstracts, IsFinal, P.Names, P.Advance;
    O.AdvanceIsOrderly(s, e, Toward(e), final, s');
    AdvanceSplits(s, k, e, Toward(e), final, s');
    if s' == P.Finished(s, e, Toward(e), final) {
      m := AtRest(Landed(k, final));
      assert LandsAs(Underway(k, e), final, t, m.stacks);
    } else {
      m := Underway(k, e);
    }
  }

  lemma RecoverMirrors(m: Machine, c: Files, now: Timestamp, c': Files) returns (m': Machine)
    requires O.Restorable(StoreOf(c)) && Mirrors(m, StoreOf(c)) && RecoveryPoint(c, now, c') && now.Instant?
    ensures Does(Recover, m, m') && Mirrors(m', StoreOf(c'))
  {
    hide ArchiveReadable, Archived, DocsOf, ReadSequence, WellFormed, Advance, P.Advance, IsFinal, P.Names;
    hide O.Restorable, O.Carried, O.AtImages, Splits, Abstracts;
    m' := m;
    if m.Underway? {
      var e := m.entry;
      ActiveIsWellFormed(c, e);
      ActiveIsCarried(c, e);
      RestorableParts(c);
      FinalNames(e, now);
      RecoveryIsFinal(e, now);
      AdvanceView(c, e, Toward(e), FinalOf(e, Toward(e), now), c');
      m' := CarryMirrors(StoreOf(c), m.stacks, e, FinalOf(e, Toward(e), now), now, StoreOf(c'));
    }
  }

  lemma RecoveryIsFinal(e: Entry, now: Timestamp)
    ensures IsFinal(FinalOf(e, Toward(e), now), e, Toward(e), now)
  {
  }

  // ---- starting ----------------------------------------------------------------------------

  /** A call from rest: nothing done or all taken back, or its entry started and carried on. */
  lemma StartMirrors(event: Event, k: Stacks, k': Stacks, c: Files, e: Entry, final: Entry, t: Timestamp, c': Files) returns (m: Machine)
    requires Mirrors(AtRest(k), StoreOf(c)) && ArchiveReadable(c) && WellFormed(e) && IsActiveState(e.state)
    requires O.Carried(P.Activated(StoreOf(c), e), e) && Taken(k, event) == Some(Underway(k', e)) && Splits(StoreOf(c).log, k', e)
    requires IsFinal(final, e, Toward(e), t) && P.Names(final, e, Toward(e)) && CarryPoint(c, e, Toward(e), final, c')
    ensures Does(event, AtRest(k), m) && Mirrors(m, StoreOf(c'))
  {
    hide O.Carried, Splits, Abstracts, WellFormed, Advance, P.Advance, IsFinal, P.Names, ArchiveReadable, Archived, DocsOf, ReadSequence, ReadActive, Taken, TakesTo;
    hide Activated, Cleared;
    var a := Activated(c, e);
    m := AtRest(k);
    ActivatedView(c, e);
    if Advance(a, e, Toward(e), final, c') {
      ReadableStore(a);
      ReadableStore(c);
      AdvanceView(a, e, Toward(e), final, c');
      m := CarryMirrors(StoreOf(a), k', e, final, t, StoreOf(c'));
    } else if c' == Cleared(a) {
      ClearedView(a);
    }
  }

  lemma UndoSplits(s: P.Store, k: Stacks, e: Entry)
    requires Abstracts(s.log, k) && P.NumberedLog(s.log, s.sequence) && P.IsLatestCompleted(s.log, e)
    ensures k.past != [] && Taken(k, Undo) == Some(Underway(Stacks(k.past[..|k.past| - 1], k.future), P.AsUndoing(e)))
    ensures Splits(s.log, Stacks(k.past[..|k.past| - 1], k.future), P.AsUndoing(e))
  {
    PastTop(s.log, s.sequence, k, e);
    SplitLatest(s.log, s.sequence, e);
    WithoutTop(s.log, k);
  }

  lemma WithoutTop(log: set<Entry>, k: Stacks)
    requires Abstracts(log, k) && k.past != []
    ensures var n := |k.past| - 1; Abstracts(log - {k.past[n]}, Stacks(k.past[..n], k.future))
    ensures forall x | x in k.future :: Order(k.past[|k.past| - 1]) < Order(x)
  {
    var n := |k.past| - 1;
    var top := k.past[n];
    assert top in k.past;
    TakeTop(k.past, P.CompletedLog(log));
    assert P.CompletedLog(log - {top}) == P.CompletedLog(log) - {top};
    assert forall x | x in k.past[..n] :: x in k.past;
  }

  lemma RedoSplits(s: P.Store, k: Stacks, e: Entry, final: Entry)
    requires Abstracts(s.log, k) && P.NumberedLog(s.log, s.sequence) && P.IsNextRedo(s.log, e)
    ensures k.future != [] && Taken(k, Redo(final)) == Some(Underway(Stacks(k.past, k.future[1..]), P.AsRedoing(e)))
    ensures Splits(s.log, Stacks(k.past, k.future[1..]), P.AsRedoing(e))
  {
    FutureHead(s.log, k, e);
    P.NumberingRetracts(s.log, s.sequence, e, P.AsRedoing(e));
    WithoutHead(s.log, k);
  }

  lemma WithoutHead(log: set<Entry>, k: Stacks)
    requires Abstracts(log, k) && k.future != []
    ensures Abstracts(log - {k.future[0]}, Stacks(k.past, k.future[1..]))
    ensures forall x | x in k.future[1..] :: Order(k.future[0]) < Order(x)
  {
    var head, rest := k.future[0], k.future[1..];
    RisingTail(k.future);
    assert head in k.future && head.state == Undone;
    assert P.CompletedLog(log - {head}) == P.CompletedLog(log);
  }

  lemma RisingTail(entries: seq<Entry>)
    requires Rising(entries) && entries != []
    ensures Rising(entries[1..])
    ensures forall x | x in entries[1..] :: Order(entries[0]) < Order(x)
    ensures forall x :: x in entries[1..] <==> x in entries && x != entries[0]
  {
    assert entries == [entries[0]] + entries[1..];
    forall x | x in entries[1..] ensures Order(entries[0]) < Order(x) {
      var i :| 0 < i < |entries| && entries[i] == x;
    }
  }

  lemma UndoMirrors(k: Stacks, c: Files, c': Files) returns (m: Machine)
    requires O.Restorable(StoreOf(c)) && Mirrors(AtRest(k), StoreOf(c)) && UndoPoint(c, c')
    ensures Does(Undo, AtRest(k), m) && Mirrors(m, StoreOf(c'))
  {
    hide CarryPoint, WellFormed, StoreOf, AllSatisfied, O.Restorable, Splits, Abstracts, Taken, P.NumberedLog, Does, O.Carried, P.Names;
    m := AtRest(k);
    if c' == c {
      Resting(Undo, m);
    } else {
      ArchiveIsNamed(c);
      var e :| P.IsLatestCompleted(Archived(c), e) && AllSatisfied(CarryPlans(P.AsUndoing(e), Before), c)
               && CarryPoint(c, P.AsUndoing(e), Before, P.AsUndone(e), c');
      StoreLog(c);
      RestorableIdle(c);
      O.IdleIsNumbered(StoreOf(c));
      O.UndoingIsOrderly(StoreOf(c), e);
      UndoSplits(StoreOf(c), k, e);
      UndoingWellFormed(e);
      m := StartMirrors(Undo, k, Stacks(k.past[..|k.past| - 1], k.future), c, P.AsUndoing(e), P.AsUndone(e), EPOCH, c');
    }
  }

  lemma Resting(event: Event, m: Machine)
    ensures Does(event, m, m)
  {
  }

  lemma RedoMirrors(k: Stacks, c: Files, now: Timestamp, final: Entry, c': Files) returns (m: Machine)
    requires O.Restorable(StoreOf(c)) && Mirrors(AtRest(k), StoreOf(c)) && RedoPoint(c, now, final, c') && now.Instant?
    ensures Does(Redo(final), AtRest(k), m) && Mirrors(m, StoreOf(c'))
  {
    hide CarryPoint, WellFormed, StoreOf, AllSatisfied, O.Restorable, Splits, Abstracts, Taken, P.NumberedLog, Does, O.Carried, P.Names;
    m := AtRest(k);
    if c' == c {
      Resting(Redo(final), m);
    } else {
      ArchiveIsNamed(c);
      var e :| P.IsNextRedo(Archived(c), e) && IsFinal(final, P.AsRedoing(e), After, now)
               && AllSatisfied(CarryPlans(P.AsRedoing(e), After), c) && CarryPoint(c, P.AsRedoing(e), After, final, c');
      StoreLog(c);
      RestorableIdle(c);
      O.IdleIsNumbered(StoreOf(c));
      O.RedoingIsOrderly(StoreOf(c), e);
      RedoSplits(StoreOf(c), k, e, final);
      RedoingWellFormed(e);
      RedoFinals(e, now);
      m := StartMirrors(Redo(final), k, Stacks(k.past, k.future[1..]), c, P.AsRedoing(e), final, now, c');
    }
  }

  // ---- applying ----------------------------------------------------------------------------

  lemma NewSplits(log: set<Entry>, k: Stacks, e: Entry)
    requires Abstracts(log, k) && k.future == [] && P.Others(log, e.transactionId) == log
    ensures Splits(log, k, e)
  {
  }

  lemma AbortedSplits(b: Files, k: Stacks, e: Entry, c: Files)
    requires O.Carried(StoreOf(b), e) && WellFormed(e) && e.state == Prepared && AbortPoint(b, e, c)
    requires Splits(StoreOf(b).log, k, e) && Abstracts(StoreOf(b).log, k)
    ensures Splits(StoreOf(c).log, k, e) && Abstracts(StoreOf(c).log, k)
    ensures ReadActive(c) == ReadActive(b) || ReadActive(c) == Idle
  {
    hide ArchiveReadable, Archived, DocsOf, ReadActive, ReadSequence, O.Topmost, Abstracts;
    AbortRecordWellFormed(e);
    ReadableStore(b);
    RecordedView(b, P.AbortRecord(e));
    ClosedView(b, P.AbortRecord(e));
    if c != b {
      var others := P.Others(StoreOf(b).log, e.transactionId);
      assert StoreOf(c).log == others + {P.AbortRecord(e)};
      assert P.Others(others + {P.AbortRecord(e)}, e.transactionId) == others;
      SameStacks(others, P.AbortRecord(e), k);
    }
  }

  lemma SameStacks(log: set<Entry>, e: Entry, k: Stacks)
    requires Abstracts(log, k) && e.state == Aborted
    ensures Abstracts(log + {e}, k)
  {
    assert P.CompletedLog(log + {e}) == P.CompletedLog(log);
  }

  /** A new entry on its way, active or, after a torn abort, no longer: it is underway, it has landed, or it never was. */
  lemma ForwardMirrors(q: Files, k: Stacks, e: Entry, now: Timestamp, c: Files) returns (m: Machine)
    requires O.Carried(StoreOf(q), e) && WellFormed(e) && e.state == Prepared && now.Instant? && k.future == []
    requires Splits(StoreOf(q).log, k, e) && Abstracts(StoreOf(q).log, k)
    requires Advance(q, e, After, AsCompletedAt(e, now), c)
    ensures (m == AtRest(k) || TakesTo(Underway(k, e), m)) && Mirrors(m, StoreOf(c))
  {
    hide O.Carried, Splits, Abstracts, Advance, P.Advance, P.Names, ArchiveReadable, Archived, DocsOf, ReadSequence, ReadActive, WellFormed, IsFinal;
    var final := AsCompletedAt(e, now);
    CarriedReadable(q, e);
    FinalNames(e, now);
    RecoveryIsFinal(e, now);
    AdvanceView(q, e, After, final, c);
    if StoreOf(q).active == InProgress(e) {
      m := CarryMirrors(StoreOf(q), k, e, final, now, StoreOf(c));
    } else {
      CarriedActive(q, e);
      O.AdvanceIsOrderly(StoreOf(q), e, After, final, StoreOf(c));
      AdvanceSplits(StoreOf(q), k, e, After, final, StoreOf(c));
      if StoreOf(c).log == StoreOf(q).log {
        m := AtRest(k);
      } else {
        m := AtRest(Landed(k, final));
        assert LandsAs(Underway(k, e), final, now, m.stacks);
      }
    }
  }

  lemma CarriedReadable(c: Files, e: Entry)
    requires O.Carried(StoreOf(c), e)
    ensures ArchiveReadable(c)
  {
  }

  lemma CarriedActive(c: Files, e: Entry)
    requires O.Carried(StoreOf(c), e)
    ensures StoreOf(c).active == Idle || StoreOf(c).active == InProgress(e)
  {
  }

  /** Nothing that could be redone would be lost. */
  ghost predicate NothingToRedo(c: Files) {
    ReadActive(c) == Idle && ArchiveReadable(c) ==> forall x :: !P.IsNextRedo(Archived(c), x)
  }

  lemma NoFuture(k: Stacks, c: Files)
    requires O.Restorable(StoreOf(c)) && Mirrors(AtRest(k), StoreOf(c)) && NothingToRedo(c)
    ensures k.future == []
  {
    if k.future != [] {
      FutureHead(StoreOf(c).log, k, k.future[0]);
    }
  }

  lemma ApplyMirrors(k: Stacks, c: Files, documents: seq<PlannedDocument>, id: string, e: Entry, now: Timestamp,
                     resumed: Option<Files>, c': Files) returns (m: Machine)
    requires O.Restorable(StoreOf(c)) && Mirrors(AtRest(k), StoreOf(c)) && NothingToRedo(c) && now.Instant?
    requires StartsFrom(c, documents, id, e) && AllSatisfied(ApplyPlans(documents), c) && Archive(id) !in c
    requires (resumed.Some? ==> AbortPoint(Begun(c, e), e, resumed.value)) && ApplyPoint(c, e, now, resumed, c')
    ensures Does(Apply(documents, id, e, resumed), AtRest(k), m) && Mirrors(m, StoreOf(c'))
  {
    hide ArchiveReadable, Archived, DocsOf, ReadSequence, ReadActive, Finished, AllSatisfied, ApplyPlans, Advance, WellFormed, Recorded, Begun;
    hide StoreOf, O.Restorable, O.Carried, O.AtImages, StartsFrom, Splits, Abstracts, NothingToRedo, Lands;
    StartsIdle(c, documents, id, e);
    NoFuture(k, c);
    BegunIsCarried(c, documents, id, e);
    var b := Begun(c, e);
    NewSplits(StoreOf(b).log, k, e);
    assert Taken(k, Apply(documents, id, e, resumed)) == Some(Underway(k, e));
    if c' == c {
      m := AtRest(k);
    } else if c' == Sequenced(c, Order(e)) {
      SequencedView(c, Order(e));
      m := AtRest(k);
    } else if AbortPoint(b, e, c') {
      AbortedSplits(b, k, e, c');
      ActiveOf(b);
      ActiveOf(c');
      m := if ReadActive(c') == Idle then AtRest(k) else Underway(k, e);
    } else {
      var q := resumed.GetOr(b);
      AbortKeepsCarried(b, e, q);
      AbortedSplits(b, k, e, q);
      m := ForwardMirrors(q, k, e, now, c');
    }
  }

  lemma ActiveOf(c: Files)
    ensures StoreOf(c).active == ReadActive(c)
  {
  }

  // ---- runs --------------------------------------------------------------------------------

  lemma SameJournalMirrors(m: Machine, s: P.Store, s': P.Store)
    requires Mirrors(m, s) && s'.active == s.active && s'.log == s.log
    ensures Mirrors(m, s')
  {
  }

  /** With an entry active only recovery moves anything. */
  lemma OnlyRecoveryMoves(c: Files, event: Event, now: Timestamp, c': Files)
    requires Step(c, event, now, c') && ReadActive(c).InProgress? && !event.Recover? && !event.LoseSequence?
    ensures c' == c
  {
  }

  lemma StepMirrors(m: Machine, c: Files, event: Event, now: Timestamp, c': Files) returns (m': Machine)
    requires O.Restorable(StoreOf(c)) && Mirrors(m, StoreOf(c)) && Step(c, event, now, c') && now.Instant?
    requires event.Apply? ==> NothingToRedo(c)
    ensures Does(event, m, m') && Mirrors(m', StoreOf(c'))
  {
    hide O.Restorable, StoreOf, UndoPoint, RedoPoint, ApplyPoint, ReadSequence, ReadActive, AllSatisfied, StartsFrom, Advance, RecoveryPoint;
    hide Abstracts, Splits, Does, NothingToRedo;
    m' := m;
    Resting(event, m);
    ActiveOf(c);
    if event.Recover? {
      m' := RecoverMirrors(m, c, now, c');
    } else if event.LoseSequence? {
      SequenceIgnored(c, c');
      SameJournalMirrors(m, StoreOf(c), StoreOf(c'));
    } else if m.Underway? {
      OnlyRecoveryMoves(c, event, now, c');
    } else if c' != c {
      match event
      case Apply(documents, id, e, resumed) => m' := ApplyMirrors(m.stacks, c, documents, id, e, now, resumed, c');
      case Undo => m' := UndoMirrors(m.stacks, c, c');
      case Redo(final) => m' := RedoMirrors(m.stacks, c, now, final, c');
      case Edit =>
        OnlyDocsDiffer(c, c');
        SameJournalMirrors(m, StoreOf(c), StoreOf(c'));
    }
  }

  /**
   In every run in which nothing is applied while something can be redone, however each call is cut short
   and whatever else is edited, the archive is two stacks and each call does to them what it is for.
   */
  lemma {:induction false} RunsAreTwoStacks(states: seq<Files>, events: seq<Event>, times: seq<Timestamp>, k: Stacks, n: nat)
    returns (machine: seq<Machine>)
    requires Run(states, events, times) && n < |states|
    requires O.Restorable(StoreOf(states[0])) && Mirrors(AtRest(k), StoreOf(states[0]))
    requires forall i | 0 <= i < |events| && events[i].Apply? :: NothingToRedo(states[i])
    ensures |machine| == n + 1 && machine[0] == AtRest(k)
    ensures forall i | 0 <= i < n :: Does(events[i], machine[i], machine[i + 1])
    ensures forall i | 0 <= i <= n :: Mirrors(machine[i], StoreOf(states[i]))
  {
    hide O.Restorable, StoreOf, Step, Mirrors, Does, NothingToRedo, ReadActive, ArchiveReadable, Archived;
    if n == 0 {
      machine := [AtRest(k)];
    } else {
      var init := RunsAreTwoStacks(states, events, times, k, n - 1);
      RunsStayRestorable(states, events, times, n - 1);
      var m := StepMirrors(init[n - 1], states[n - 1], events[n - 1], times[n - 1], states[n]);
      machine := init + [m];
    }
  }

  // ---- calls that run to their end ---------------------------------------------------------

  /** An entry carried to its end has landed. */
  lemma FinishMirrors(s: P.Store, k: Stacks, e: Entry, final: Entry)
    requires O.Carried(s, e) && Splits(s.log, k, e) && P.Names(final, e, Toward(e))
    ensures Mirrors(AtRest(Landed(k, final)), P.Finished(s, e, Toward(e), final))
  {
    hide O.Carried, Splits, Abstracts, P.Names;
    AdvanceSplits(s, k, e, Toward(e), final, P.Finished(s, e, Toward(e), final));
  }

  /** An undo that succeeds moves the top of the past to the head of the future. */
  lemma DoneUndoPops(k: Stacks, c: Files, id: string, c': Files)
    requires O.Restorable(StoreOf(c)) && Mirrors(AtRest(k), StoreOf(c)) && UndoDone(c, id, false, c')
    ensures k.past != [] && k.past[|k.past| - 1].transactionId == id
    ensures Mirrors(AtRest(Stacks(k.past[..|k.past| - 1], [P.AsUndone(k.past[|k.past| - 1])] + k.future)), StoreOf(c'))
  {
    hide WellFormed, StoreOf, AllSatisfied, O.Restorable, Splits, Abstracts, P.NumberedLog, O.Carried, P.Names, Finished;
    var e :| P.IsLatestCompleted(Archived(c), e) && e.transactionId == id && UndoneTo(c, e, false, c');
    StoreLog(c);
    LatestIsLogged(c, e);
    ActiveOf(c);
    RestorableIdle(c);
    O.IdleIsNumbered(StoreOf(c));
    O.UndoingIsOrderly(StoreOf(c), e);
    PastTop(StoreOf(c).log, StoreOf(c).sequence, k, e);
    UndoSplits(StoreOf(c), k, e);
    UndoView(c, e);
    FinishMirrors(P.Activated(StoreOf(c), P.AsUndoing(e)), Stacks(k.past[..|k.past| - 1], k.future), P.AsUndoing(e), P.AsUndone(e));
  }

  /** A redo that succeeds moves the head of the future to the top of the past. */
  lemma DoneRedoPushes(k: Stacks, c: Files, id: string, final: Entry, c': Files)
    requires O.Restorable(StoreOf(c)) && Mirrors(AtRest(k), StoreOf(c)) && RedoDone(c, id, final, false, c')
    ensures k.future != [] && k.future[0].transactionId == id && final.documents == k.future[0].documents
    ensures Mirrors(AtRest(Stacks(k.past + [final], k.future[1..])), StoreOf(c'))
  {
    hide WellFormed, StoreOf, AllSatisfied, O.Restorable, Splits, Abstracts, P.NumberedLog, O.Carried, Finished;
    var e :| P.IsNextRedo(Archived(c), e) && e.transactionId == id && RedoneTo(c, e, final, false, c');
    hide CarryPlans, AtSide, Activated, Images, RedoDone;
    StoreLog(c);
    ArchiveIsNamed(c);
    ActiveOf(c);
    RestorableIdle(c);
    O.IdleIsNumbered(StoreOf(c));
    O.RedoingIsOrderly(StoreOf(c), e);
    FutureHead(StoreOf(c).log, k, e);
    RedoSplits(StoreOf(c), k, e, final);
    RedoView(c, e, final);
    FinishMirrors(P.Activated(StoreOf(c), P.AsRedoing(e)), Stacks(k.past, k.future[1..]), P.AsRedoing(e), final);
  }

  /** An apply that succeeds pushes its entry, also when a failed abort had been carried forward. */
  lemma DoneApplyPushes(k: Stacks, c: Files, documents: seq<PlannedDocument>, id: string, e: Entry, now: Timestamp,
                        resumed: Option<Files>, c': Files)
    requires O.Restorable(StoreOf(c)) && Mirrors(AtRest(k), StoreOf(c)) && NothingToRedo(c) && now.Instant?
    requires StartsFrom(c, documents, id, e) && AllSatisfied(ApplyPlans(documents), c) && Archive(id) !in c
    requires resumed.Some? ==> AbortPoint(Begun(c, e), e, resumed.value)
    requires c' == Finished(resumed.GetOr(Begun(c, e)), e, After, AsCompletedAt(e, now))
    ensures Mirrors(AtRest(Stacks(k.past + [AsCompletedAt(e, now)], [])), StoreOf(c'))
  {
    hide ArchiveReadable, Archived, DocsOf, ReadSequence, ReadActive, Finished, AllSatisfied, ApplyPlans, WellFormed, Recorded, Begun;
    hide StoreOf, O.Restorable, O.Carried, O.AtImages, StartsFrom, Splits, Abstracts, NothingToRedo, AbortPoint, P.Names;
    StartsIdle(c, documents, id, e);
    NoFuture(k, c);
    BegunIsCarried(c, documents, id, e);
    var b := Begun(c, e);
    NewSplits(StoreOf(b).log, k, e);
    var q := resumed.GetOr(b);
    assert AbortPoint(b, e, b) by {
      NotAborted(b, e);
    }
    AbortKeepsCarried(b, e, q);
    AbortedSplits(b, k, e, q);
    FinalNames(e, now);
    FinalRecord(e, AsCompletedAt(e, now));
    CarriedReadable(q, e);
    FinishedView(q, e, After, AsCompletedAt(e, now));
    FinishMirrors(StoreOf(q), k, e, AsCompletedAt(e, now));
  }

  lemma NotAborted(b: Files, e: Entry)
    ensures AbortPoint(b, e, b)
  {
  }

  lemma FinalRecord(e: Entry, final: Entry)
    requires P.Names(final, e, Toward(e))
    ensures WellFormed(final) && !IsActiveState(final.state)
  {
  }

  /** A recovery that finishes lands the entry underway. */
  lemma DoneRecoveryLands(m: Machine, c: Files, now: Timestamp, c': Files)
    requires O.Restorable(StoreOf(c)) && Mirrors(m, StoreOf(c)) && RecoveryDone(c, now, c') && now.Instant?
    ensures m.AtRest? ==> c' == c
    ensures m.Underway? ==>
              Mirrors(AtRest(Landed(m.stacks, FinalOf(m.entry, Toward(m.entry), now))), StoreOf(c'))
  {
    hide O.Restorable, O.Carried, O.AtImages, Splits, Abstracts, WellFormed, P.Names, Finished, ArchiveReadable, Archived, DocsOf, ReadSequence;
    if m.Underway? {
      var e := m.entry;
      ActiveIsWellFormed(c, e);
      ActiveIsCarried(c, e);
      CarriedReadable(c, e);
      FinalNames(e, now);
      FinalRecord(e, FinalOf(e, Toward(e), now));
      FinishedView(c, e, Toward(e), FinalOf(e, Toward(e), now));
      FinishMirrors(StoreOf(c), m.stacks, e, FinalOf(e, Toward(e), now));
    }
  }

  // ---- cut short and recovered -------------------------------------------------------------

  /** An undo cut short anywhere and finished by recovery reads back as one that ran to its end. */
  lemma RecoveredUndo(c: Files, e: Entry, now: Timestamp, c': Files, d: Files)
    requires ArchiveReadable(c) && WellFormed(e) && e.state == Completed
    requires Advance(Activated(c, P.AsUndoing(e)), P.AsUndoing(e), Before, P.AsUndone(e), c')
    requires ReadActive(c') == InProgress(P.AsUndoing(e)) && RecoveryDone(c', now, d)
    ensures StoreOf(d) == UndoOf(StoreOf(c), e)
  {
    hide Advance, Finished, UndoOf;
    RecoveryConverges(Activated(c, P.AsUndoing(e)), P.AsUndoing(e), Before, P.AsUndone(e), c', P.AsUndone(e));
    UndoView(c, e);
  }

  /** A redo likewise, but for the completion time, which becomes that of the recovery. */
  lemma RecoveredRedo(c: Files, e: Entry, first: Entry, now: Timestamp, c': Files, d: Files)
    requires ArchiveReadable(c) && WellFormed(e) && e.state == Undone && now.Instant? && first.transactionId == e.transactionId
    requires Advance(Activated(c, P.AsRedoing(e)), P.AsRedoing(e), After, first, c')
    requires ReadActive(c') == InProgress(P.AsRedoing(e)) && RecoveryDone(c', now, d)
    ensures StoreOf(d) == RedoOf(StoreOf(c), e, AsCompletedAt(e, now))
  {
    hide Advance, Finished, RedoOf;
    RecoveryConverges(Activated(c, P.AsRedoing(e)), P.AsRedoing(e), After, first, c', AsCompletedAt(e, now));
    RedoFinals(e, now);
    RedoView(c, e, AsCompletedAt(e, now));
  }

  function ApplyOf(s: P.Store, e: Entry, final: Entry): P.Store {
    P.Finished(P.Activated(P.Reserved(s, Order(e)), e), e, After, final)
  }

  function AbortOf(s: P.Store, e: Entry): P.Store {
    P.Cleared(P.Recorded(P.Activated(P.Reserved(s, Order(e)), e), P.AbortRecord(e)))
  }

  /** An apply that ran to its end, and one that was aborted, as the store shows them. */
  lemma ApplyView(c: Files, e: Entry, final: Entry)
    requires ArchiveReadable(c) && WellFormed(e) && e.state == Prepared && P.Names(final, e, After)
    ensures StoreOf(Finished(Begun(c, e), e, After, final)) == ApplyOf(StoreOf(c), e, final)
    ensures StoreOf(Cleared(AbortRecorded(Begun(c, e), e))) == AbortOf(StoreOf(c), e)
  {
    hide ArchiveReadable, Archived, DocsOf, ReadActive, ReadSequence, Finished, P.Finished, WellFormed, P.Recorded, P.Names;
    OrderInRange(e, final);
    SequencedView(c, Order(e));
    ActivatedView(Sequenced(c, Order(e)), e);
    BegunReadable(c, e);
    FinishedView(Begun(c, e), e, After, final);
    AbortRecordWellFormed(e);
    ClosedView(Begun(c, e), P.AbortRecord(e));
  }

  lemma OrderInRange(e: Entry, final: Entry)
    requires WellFormed(e) && e.state == Prepared && P.Names(final, e, After)
    ensures 0 <= Order(e) <= MAX_SAFE_INTEGER && WellFormed(final) && !IsActiveState(final.state)
  {
  }

  lemma BegunReadable(c: Files, e: Entry)
    requires ArchiveReadable(c)
    ensures ArchiveReadable(Begun(c, e))
  {
    NonArchiveKept(c, Sequence, Whole(SequenceText(Order(e))));
    NonArchiveKept(Sequenced(c, Order(e)), Active, Whole(SerializeJournal(e)));
  }

  /** An apply cut short while its entry is active, whether writing, completing or aborting, is completed by recovery. */
  lemma RecoveredApply(c: Files, e: Entry, first: Entry, now: Timestamp, c': Files, d: Files)
    requires ArchiveReadable(c) && WellFormed(e) && e.state == Prepared && now.Instant? && first.transactionId == e.transactionId
    requires Advance(Begun(c, e), e, After, first, c') || c' == AbortRecorded(Begun(c, e), e)
    requires ReadActive(c') == InProgress(e) && RecoveryDone(c', now, d)
    ensures StoreOf(d) == ApplyOf(StoreOf(c), e, AsCompletedAt(e, now))
  {
    hide Advance, Finished, ApplyOf, Begun;
    FinalNames(e, now);
    if c' == AbortRecorded(Begun(c, e), e) {
      AbortedFinishes(Begun(c, e), e, AsCompletedAt(e, now));
    } else {
      RecoveryConverges(Begun(c, e), e, After, first, c', AsCompletedAt(e, now));
    }
    ApplyView(c, e, AsCompletedAt(e, now));
  }

  lemma AbortedFinishes(b: Files, e: Entry, final: Entry)
    requires final.transactionId == e.transactionId
    ensures Finished(AbortRecorded(b, e), e, After, final) == Finished(b, e, After, final)
  {
    var done, done' := Finished(b, e, After, final), Finished(AbortRecorded(b, e), e, After, final);
    forall t ensures SameAt(done, done', t) {
      MovedAt(b, Images(e, After), t);
      MovedAt(AbortRecorded(b, e), Images(e, After), t);
    }
    SameEverywhere(done, done');
  }
}
