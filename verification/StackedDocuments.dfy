/**
 What the two stacks say of the documents: they are the fold of the past, and the future lies ready on top
 of them, so that whatever has been done can be undone and whatever has been undone can be redone.
 */
module StackedDocuments {
  import opened Common
  import opened DurableDisk
  import opened AtomicWrite
  import opened JournalModel
  import opened JournalFiles
  import opened ApplyJournal
  import opened ApplyTransaction
  import opened History
  import opened UndoStack
  import opened TwoStacks
  import O = JournalOrder
  import P = JournalProtocol

  /** Each entry in turn finds its before-images where the ones ahead of it leave the documents. */
  ghost predicate Stacked(docs: Docs, future: seq<Entry>)
    decreases |future|
  {
    future == [] || (Agrees(docs, Images(future[0], Before)) && Stacked(docs + Images(future[0], After), future[1..]))
  }

  /** An entry underway is ahead of the future, whichever way it is going. */
  function Coming(m: Machine): seq<Entry> {
    match m
    case AtRest(k) => k.future
    case Underway(k, e) => [e] + k.future
  }

  ghost predicate Ready(init: Docs, m: Machine) { Stacked(Fold(init, m.stacks.past), Coming(m)) }

  lemma SameHead(docs: Docs, e: Entry, x: Entry, rest: seq<Entry>)
    requires Stacked(docs, [e] + rest) && x.documents == e.documents
    ensures Stacked(docs, [x] + rest)
  {
    assert ([e] + rest)[1..] == rest && ([x] + rest)[1..] == rest;
  }

  lemma FoldExtends(init: Docs, past: seq<Entry>, e: Entry)
    ensures Fold(init, past + [e]) == Fold(init, past) + Images(e, After)
  {
    assert (past + [e])[..|past + [e]| - 1] == past;
  }

  /** Landing on either stack leaves the future ready. */
  lemma LandingKeepsReady(init: Docs, m: Machine, final: Entry)
    requires m.Underway? && Ready(init, m) && final.documents == m.entry.documents
    ensures Ready(init, AtRest(Landed(m.stacks, final)))
  {
    hide Images, Fold;
    var past, rest := m.stacks.past, m.stacks.future;
    SameHead(Fold(init, past), m.entry, final, rest);
    FoldExtends(init, past, final);
    assert ([final] + rest)[1..] == rest;
  }

  lemma LandsReady(init: Docs, m: Machine, k: Stacks)
    requires m.Underway? && Ready(init, m) && Lands(m, k)
    ensures Ready(init, AtRest(k))
  {
    var final, t :| LandsAs(m, final, t, k);
    LandingKeepsReady(init, m, final);
  }

  lemma StackedOn(docs: Docs, e: Entry, rest: seq<Entry>)
    requires Agrees(docs, Images(e, Before)) && Stacked(docs + Images(e, After), rest)
    ensures Stacked(docs, [e] + rest)
  {
    assert ([e] + rest)[1..] == rest;
  }

  /** The top of the past was applied to what the rest of the past leaves. */
  lemma TopAgrees(init: Docs, s: P.Store, k: Stacks)
    requires P.Settled(init, s) && Abstracts(s.log, k) && k.past != []
    ensures var n := |k.past| - 1; Agrees(Fold(init, k.past[..n]), Images(k.past[n], Before))
  {
    hide Images, Fold, P.Replayed, WellFormed, Agrees, P.NumberedLog, P.SoundLog, P.Numbered, Replay;
    var n := |k.past| - 1;
    var past, top := k.past[..n], k.past[n];
    SettledIsNumbered(init, s);
    PastTop(s.log, s.sequence, k, top);
    P.WithoutLatest(init, s.log, s.sequence, top);
    WithoutTop(s.log, k);
    FoldIsReplay(init, past, P.CompletedLog(s.log - {top}));
    SameDocuments(top, P.AsUndoing(top));
  }

  lemma UndoTakesReady(init: Docs, s: P.Store, k: Stacks)
    requires P.Settled(init, s) && Abstracts(s.log, k) && Ready(init, AtRest(k)) && k.past != []
    ensures Ready(init, Taken(k, Undo).value)
  {
    hide Images, Fold, P.Settled, Abstracts, Agrees, Stacked;
    var n := |k.past| - 1;
    var past, top := k.past[..n], k.past[n];
    TopAgrees(init, s, k);
    assert k.past == past + [top];
    FoldExtends(init, past, top);
    StackedOn(Fold(init, past), top, k.future);
    SameHead(Fold(init, past), top, P.AsUndoing(top), k.future);
  }

  lemma SameDocuments(x: Entry, y: Entry)
    requires x.documents == y.documents
    ensures Images(x, Before) == Images(y, Before) && Images(x, After) == Images(y, After)
  {
  }

  lemma SettledIsNumbered(init: Docs, s: P.Store)
    requires P.Settled(init, s)
    ensures P.NumberedLog(s.log, s.sequence) && P.SoundLog(init, s.log, s.sequence)
  {
  }

  lemma RedoTakesReady(init: Docs, k: Stacks, final: Entry)
    requires Ready(init, AtRest(k)) && k.future != []
    ensures Ready(init, Taken(k, Redo(final)).value)
  {
    assert k.future == [k.future[0]] + k.future[1..];
    SameHead(Fold(init, k.past), k.future[0], P.AsRedoing(k.future[0]), k.future[1..]);
  }

  /** What is in flight lies on top of the fold of the past. */
  lemma UnderwayAgrees(init: Docs, m: Machine, s: P.Store)
    requires P.Recoverable(init, s) && Mirrors(m, s) && m.Underway?
    ensures Agrees(Fold(init, m.stacks.past), Images(m.entry, Before))
  {
    hide Images, P.SoundLog, P.Numbered, P.Straddles;
    FoldIsReplay(init, m.stacks.past, P.CompletedLog(P.Others(s.log, m.entry.transactionId)));
  }

  /** A new entry over an empty future. */
  lemma ApplyKeepsReady(init: Docs, k: Stacks, taken: Machine, m: Machine, s: P.Store)
    requires taken.Underway? && taken.stacks == k && k.future == [] && taken.entry.state == Prepared
    requires TakesTo(taken, m) && P.Recoverable(init, s) && Mirrors(m, s)
    ensures Ready(init, m)
  {
    hide Images, Fold, P.Recoverable;
    if m == taken {
      UnderwayAgrees(init, m, s);
      StackedOn(Fold(init, k.past), m.entry, k.future);
    } else {
      var final, t :| LandsAs(taken, final, t, m.stacks);
      assert final.state == Completed && m.stacks.future == [];
    }
  }

  lemma TakingKeepsReady(init: Docs, event: Event, k: Stacks, s: P.Store, m: Machine, s': P.Store)
    requires P.Settled(init, s) && Abstracts(s.log, k) && Ready(init, AtRest(k))
    requires Taken(k, event).Some? && TakesTo(Taken(k, event).value, m) && P.Recoverable(init, s') && Mirrors(m, s')
    ensures Ready(init, m)
  {
    hide P.Settled, P.Recoverable, Abstracts, Ready, Mirrors, Lands;
    var taken := Taken(k, event).value;
    if event.Apply? {
      ApplyKeepsReady(init, k, taken, m, s');
    } else {
      if event.Undo? {
        UndoTakesReady(init, s, k);
      } else {
        RedoTakesReady(init, k, event.final);
      }
      if m != taken {
        LandsReady(init, taken, m.stacks);
      }
    }
  }

  /** Every call keeps the future ready. */
  lemma StepKeepsReady(init: Docs, event: Event, m: Machine, s: P.Store, m': Machine, s': P.Store)
    requires P.Recoverable(init, s) && P.Recoverable(init, s') && Mirrors(m, s) && Mirrors(m', s')
    requires Does(event, m, m') && Ready(init, m)
    ensures Ready(init, m')
  {
    hide P.Settled, P.InFlight, Abstracts, Ready, Lands, Taken, TakesTo;
    if m' == m {
    } else if m.AtRest? && Taken(m.stacks, event).Some? && TakesTo(Taken(m.stacks, event).value, m') {
      TakingKeepsReady(init, event, m.stacks, s, m', s');
    } else {
      LandsOnlyUnderway(m, m'.stacks);
      LandsReady(init, m, m'.stacks);
    }
  }

  lemma LandsOnlyUnderway(m: Machine, k: Stacks)
    requires Lands(m, k)
    ensures m.Underway?
  {
  }

  /** So along a run of journaled calls. */
  lemma {:induction false} RunsStayReady(init: Docs, states: seq<Files>, events: seq<Event>, times: seq<Timestamp>, machine: seq<Machine>, n: nat)
    requires Run(states, events, times) && n < |states| && |machine| > n
    requires P.Recoverable(init, StoreOf(states[0])) && Ready(init, machine[0])
    requires forall i | 0 <= i < |events| :: Journaled(events[i])
    requires forall i | 0 <= i < n :: Does(events[i], machine[i], machine[i + 1])
    requires forall i | 0 <= i <= n :: Mirrors(machine[i], StoreOf(states[i]))
    ensures Ready(init, machine[n])
  {
    hide P.Recoverable, StoreOf, Step, Mirrors, Does, Ready, Journaled, ReadActive, ArchiveReadable, Archived, DocsOf;
    if n > 0 {
      RunsStayReady(init, states, events, times, machine, n - 1);
      RunsStayRecoverable(init, states, events, times, n - 1);
      RunsStayRecoverable(init, states, events, times, n);
      StepKeepsReady(init, events[n - 1], machine[n - 1], StoreOf(states[n - 1]), machine[n], StoreOf(states[n]));
    }
  }

  // ---- what may be offered -----------------------------------------------------------------

  lemma UndoOffered(init: Docs, k: Stacks, c: Files)
    requires P.Settled(init, StoreOf(c)) && ArchiveReadable(c) && Abstracts(Archived(c), k)
    ensures CanUndo(c) <==> k.past != []
  {
    hide P.SoundLog, ArchiveReadable, AllSatisfied, CarryPlans, P.Replayed;
    StoreLog(c);
    SettledIsNumbered(init, StoreOf(c));
    if k.past != [] {
      assert k.past[0] in P.CompletedLog(Archived(c));
      SettledCanUndo(init, c);
    }
    if CanUndo(c) {
      var e :| P.IsLatestCompleted(Archived(c), e);
      PastTop(Archived(c), StoreOf(c).sequence, k, e);
    }
  }

  lemma RedoOffered(init: Docs, k: Stacks, c: Files)
    requires ArchiveReadable(c) && Abstracts(Archived(c), k) && DocsOf(c) == Fold(init, k.past) && Ready(init, AtRest(k))
    ensures CanRedo(c) <==> k.future != []
  {
    hide ArchiveReadable, Archived, DocsOf, AllSatisfied, CarryPlans, Images, WellFormed, Fold;
    if k.future != [] {
      var e := k.future[0];
      FutureHead(Archived(c), k, e);
      ArchiveIsNamed(c);
      NextRedoIsUndone(Archived(c), e);
      RedoingWellFormed(e);
      SameDocuments(e, P.AsRedoing(e));
      CarryPlansSatisfied(c, P.AsRedoing(e), After);
    }
    if CanRedo(c) {
      var e :| P.IsNextRedo(Archived(c), e);
      FutureHead(Archived(c), k, e);
    }
  }

  lemma NextRedoIsUndone(log: set<Entry>, e: Entry)
    requires P.IsNextRedo(log, e)
    ensures e in log && e.state == Undone
  {
  }

  function Offer(m: Machine, stack: seq<Entry>): Availability {
    if m.Underway? then RecoveryPending else if stack != [] then Available else Unavailable
  }

  /** Without direct edits the documents are what the past leaves, but for those of an entry underway. */
  lemma DocumentsAreThePast(init: Docs, m: Machine, c: Files)
    requires P.Recoverable(init, StoreOf(c)) && Mirrors(m, StoreOf(c))
    ensures m.AtRest? ==> DocsOf(c) == Fold(init, m.stacks.past)
    ensures m.Underway? ==> P.Straddles(Fold(init, m.stacks.past), m.entry, DocsOf(c))
  {
    hide P.SoundLog, P.OnTop, P.Straddles, Images;
    var log := StoreOf(c).log;
    var rest := if m.AtRest? then log else P.Others(log, m.entry.transactionId);
    FoldIsReplay(init, m.stacks.past, P.CompletedLog(rest));
  }

  lemma RestIsSettled(init: Docs, m: Machine, c: Files)
    requires P.Recoverable(init, StoreOf(c)) && Mirrors(m, StoreOf(c))
    ensures ArchiveReadable(c) && (m.AtRest? ==> P.Settled(init, StoreOf(c)) && Abstracts(Archived(c), m.stacks))
    ensures match m case AtRest(_) => ReadActive(c) == Idle case Underway(_, e) => ReadActive(c) == InProgress(e)
  {
  }

  lemma OffersFollow(init: Docs, m: Machine, c: Files)
    requires P.Recoverable(init, StoreOf(c)) && Mirrors(m, StoreOf(c))
    ensures UndoAvailability(c) == Offer(m, m.stacks.past)
    ensures Ready(init, m) ==> RedoAvailability(c) == Offer(m, m.stacks.future)
  {
    hide P.Recoverable, Mirrors, StoreOf, ArchiveReadable, Archived, ReadActive, DocsOf, Ready, CanUndo, CanRedo, Abstracts, P.Settled;
    RestIsSettled(init, m, c);
    if m.AtRest? {
      DocumentsAreThePast(init, m, c);
      UndoOffered(init, m.stacks, c);
      if Ready(init, m) {
        RedoOffered(init, m.stacks, c);
      }
    }
  }

  /**
   In a run of journaled calls from a settled store the documents are at every state the fold of the
   past, but for those of an entry underway. Undo is available exactly when something is in the past, and,
   if the future lay ready to begin with, redo exactly when something is in the future.
   */
  lemma DocumentsFollowTheStacks(init: Docs, states: seq<Files>, events: seq<Event>, times: seq<Timestamp>, k: Stacks, n: nat)
    returns (m: Machine)
    requires Run(states, events, times) && n < |states|
    requires P.Settled(init, StoreOf(states[0])) && Abstracts(Archived(states[0]), k)
    requires forall i | 0 <= i < |events| :: Journaled(events[i]) && (events[i].Apply? ==> NothingToRedo(states[i]))
    ensures Mirrors(m, StoreOf(states[n])) && ArchiveReadable(states[n])
    ensures ReadActive(states[n]) == Idle <==> m.AtRest?
    ensures m.AtRest? ==> Abstracts(Archived(states[n]), m.stacks) && DocsOf(states[n]) == Fold(init, m.stacks.past)
    ensures m.Underway? ==> P.Straddles(Fold(init, m.stacks.past), m.entry, DocsOf(states[n]))
    ensures UndoAvailability(states[n]) == Offer(m, m.stacks.past)
    ensures Stacked(Fold(init, k.past), k.future) ==> RedoAvailability(states[n]) == Offer(m, m.stacks.future)
  {
    hide O.Restorable, Step, Does, NothingToRedo, ReadActive, ArchiveReadable, Archived, DocsOf, Abstracts, Splits, P.Recoverable, P.Straddles;
    hide CanUndo, CanRedo, UndoAvailability, RedoAvailability, Offer;
    SettledIsRestorable(init, states[0]);
    SettledParts(init, StoreOf(states[0]));
    SettledRecovers(init, StoreOf(states[0]));
    StoreLog(states[0]);
    var machine := RunsAreTwoStacks(states, events, times, k, n);
    m := machine[n];
    RunsStayRecoverable(init, states, events, times, n);
    DocumentsAreThePast(init, m, states[n]);
    RestIsSettled(init, m, states[n]);
    if Ready(init, AtRest(k)) {
      RunsStayReady(init, states, events, times, machine, n);
    }
    OffersFollow(init, m, states[n]);
  }

  lemma SettledRecovers(init: Docs, s: P.Store)
    requires P.Settled(init, s)
    ensures P.Recoverable(init, s)
  {
  }

  /** A store with documents only is settled, with both stacks empty and so ready. */
  lemma NewStoreIsAtRest(c: Files)
    requires forall t | t in c :: t.Doc?
    ensures P.Settled(DocsOf(c), StoreOf(c)) && Mirrors(AtRest(Stacks([], [])), StoreOf(c))
    ensures Ready(DocsOf(c), AtRest(Stacks([], [])))
  {
    assert Archived(c) == {};
    assert P.CompletedLog({}) == {} && P.Ordered({}) == {};
  }
}
