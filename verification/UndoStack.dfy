/** Undo and redo as each other's inverse: what redo picks after undo, and what it writes. */
module UndoStack {
  import opened Common
  import opened DurableDisk
  import opened JournalModel
  import opened JournalFiles
  import opened ApplyJournal
  import P = JournalProtocol

  // ---- operations that ran to their end ----------------------------------------------------

  function UndoOf(s: P.Store, e: Entry): P.Store {
    P.Finished(P.Activated(s, P.AsUndoing(e)), P.AsUndoing(e), Before, P.AsUndone(e))
  }

  function RedoOf(s: P.Store, e: Entry, final: Entry): P.Store {
    P.Finished(P.Activated(s, P.AsRedoing(e)), P.AsRedoing(e), After, final)
  }

  ghost predicate Undoes(s: P.Store, s': P.Store) {
    exists e :: P.IsLatestCompleted(s.log, e) && s' == UndoOf(s, e)
  }

  /** The entry archived completed again, at its own time or at that of the recovery that finished the redo. */
  ghost predicate Redoes(s: P.Store, s': P.Store) {
    exists e, t :: RedoesAt(s, e, t, s')
  }

  ghost predicate RedoesAt(s: P.Store, e: Entry, t: Timestamp, s': P.Store) {
    P.IsNextRedo(s.log, e) && Agrees(s.docs, Images(e, Before)) && t.Instant? && s' == RedoOf(s, e, AsCompletedAt(e, t))
  }

  /** The redo wrote the record that was there before the undo. */
  ghost predicate KeepsRecord(s: P.Store, s': P.Store) {
    exists e :: P.IsNextRedo(s.log, e) && s' == RedoOf(s, e, P.AsCompleted(e))
  }

  ghost predicate RedoesAsWas(s: P.Store, s': P.Store) {
    exists e :: P.IsNextRedo(s.log, e) && Agrees(s.docs, Images(e, Before)) && s' == RedoOf(s, e, P.AsCompleted(e))
  }

  lemma UndoView(c: Files, e: Entry)
    requires ArchiveReadable(c) && WellFormed(e) && e.state == Completed
    ensures StoreOf(Finished(Activated(c, P.AsUndoing(e)), P.AsUndoing(e), Before, P.AsUndone(e))) == UndoOf(StoreOf(c), e)
  {
    hide ArchiveReadable, Archived, DocsOf, ReadActive, ReadSequence, Finished, P.Finished;
    ActivatedView(c, P.AsUndoing(e));
    ActivatedReadable(StoreOf(c), P.AsUndoing(e));
    FinishedView(Activated(c, P.AsUndoing(e)), P.AsUndoing(e), Before, P.AsUndone(e));
  }

  lemma ActivatedReadable(s: P.Store, e: Entry)
    ensures P.Activated(s, e).readable == s.readable
  {
  }

  lemma RedoView(c: Files, e: Entry, final: Entry)
    requires ArchiveReadable(c) && WellFormed(e) && e.state == Undone && P.Names(final, P.AsRedoing(e), After)
    ensures StoreOf(Finished(Activated(c, P.AsRedoing(e)), P.AsRedoing(e), After, final)) == RedoOf(StoreOf(c), e, final)
  {
    hide ArchiveReadable, Archived, DocsOf, ReadActive, ReadSequence, Finished, P.Finished;
    ActivatedView(c, P.AsRedoing(e));
    ActivatedReadable(StoreOf(c), P.AsRedoing(e));
    FinishedView(Activated(c, P.AsRedoing(e)), P.AsRedoing(e), After, final);
  }

  lemma UndoSettles(init: Docs, s: P.Store, e: Entry)
    requires P.Settled(init, s) && P.IsLatestCompleted(s.log, e)
    ensures P.Settled(init, UndoOf(s, e))
  {
    P.UndoingStarts(init, s, e);
    P.FinishingSettles(init, P.Activated(s, P.AsUndoing(e)), P.AsUndoing(e), Before, P.AsUndone(e));
  }

  lemma RedoSettles(init: Docs, s: P.Store, e: Entry, final: Entry)
    requires P.Settled(init, s) && P.IsNextRedo(s.log, e) && Agrees(s.docs, Images(e, Before))
    requires P.Names(final, P.AsRedoing(e), After)
    ensures P.Settled(init, RedoOf(s, e, final))
  {
    P.RedoingStarts(init, s, e);
    P.FinishingSettles(init, P.Activated(s, P.AsRedoing(e)), P.AsRedoing(e), After, final);
  }

  // ---- undoing and redoing again -----------------------------------------------------------

  ghost predicate AboveCompleted(log: set<Entry>, x: Entry) {
    forall y | y in P.CompletedLog(log) :: Order(y) < Order(x)
  }

  /** No entry undone in `log`, and above everything completed in `low`, comes before `top`. */
  ghost predicate NoneAbandoned(log: set<Entry>, low: set<Entry>, top: Entry) {
    forall x | x in log && x.state == Undone && AboveCompleted(low, x) :: Order(top) < Order(x)
  }

  lemma UndoLog(init: Docs, s: P.Store, e: Entry)
    requires P.Settled(init, s) && P.IsLatestCompleted(s.log, e)
    ensures UndoOf(s, e).log == s.log - {e} + {P.AsUndone(e)}
    ensures P.CompletedLog(UndoOf(s, e).log) == P.CompletedLog(s.log) - {e}
    ensures forall y | y in P.CompletedLog(UndoOf(s, e).log) :: Order(y) < Order(e)
  {
    SplitLatest(s.log, s.sequence, e);
  }

  lemma SplitLatest(log: set<Entry>, sequence: int, e: Entry)
    requires P.NumberedLog(log, sequence) && P.IsLatestCompleted(log, e)
    ensures P.Others(log, e.transactionId) == log - {e}
    ensures P.CompletedLog(log - {e} + {P.AsUndone(e)}) == P.CompletedLog(log) - {e}
    ensures forall y | y in P.CompletedLog(log) && y != e :: Order(y) < Order(e)
  {
    forall y | y in P.CompletedLog(log) && y != e ensures Order(y) < Order(e) {
      assert e in P.Ordered(log) && y in P.Ordered(log);
    }
  }

  lemma RedoLog(init: Docs, s: P.Store, e: Entry, final: Entry)
    requires P.Settled(init, s) && P.IsNextRedo(s.log, e) && P.Names(final, P.AsRedoing(e), After)
    ensures RedoOf(s, e, final).log == s.log - {e} + {final}
    ensures P.CompletedLog(RedoOf(s, e, final).log) == P.CompletedLog(s.log) + {final}
    ensures forall y | y in s.log && y.state == Undone && y != e :: Order(y) != Order(e)
  {
    P.NumberingRetracts(s.log, s.sequence, e, P.AsRedoing(e));
    assert e in P.Ordered(s.log);
    forall y | y in s.log && y.state == Undone && y != e ensures Order(y) != Order(e) {
      assert y in P.Ordered(s.log);
    }
  }

  lemma RedoFinal(init: Docs, s: P.Store, e: Entry, t: Timestamp)
    requires P.Settled(init, s) && P.IsNextRedo(s.log, e) && t.Instant?
    ensures P.Names(AsCompletedAt(e, t), P.AsRedoing(e), After) && P.Names(P.AsCompleted(e), P.AsRedoing(e), After)
    ensures e in s.log && e.state == Undone && e.completedAt.Some? && e.completedAt.value.Instant?
  {
  }

  /** Redo picks up the entry just undone, and gives back the store, unless an abandoned entry comes first. */
  lemma RedoReverts(init: Docs, s: P.Store, e: Entry, s': P.Store)
    requires P.Settled(init, s) && P.IsLatestCompleted(s.log, e)
    requires RedoesAsWas(UndoOf(s, e), s') && NoneAbandoned(s.log, UndoOf(s, e).log, e)
    ensures s' == s
  {
    hide P.Settled, P.Finished, P.IsLatestCompleted, P.CompletedLog;
    var u := UndoOf(s, e);
    var next :| P.IsNextRedo(u.log, next) && Agrees(u.docs, Images(next, Before)) && s' == RedoOf(u, next, P.AsCompleted(next));
    UndoSettles(init, s, e);
    UndoLog(init, s, e);
    assert P.Redoable(u.log, P.AsUndone(e));
    RedoFinal(init, u, next, EPOCH);
    RedoLog(init, u, next, P.AsCompleted(next));
    if next != P.AsUndone(e) {
      assert false;
    }
    LatestIsCompleted(s, e);
    Reverted(init, s, e);
  }

  lemma LatestIsCompleted(s: P.Store, e: Entry)
    requires P.IsLatestCompleted(s.log, e)
    ensures e in s.log && e.state == Completed
  {
  }

  lemma Reverted(init: Docs, s: P.Store, e: Entry)
    requires P.Settled(init, s) && P.IsLatestCompleted(s.log, e)
    ensures RedoOf(UndoOf(s, e), P.AsUndone(e), e) == s
  {
    hide WellFormed, P.SoundLog, P.Numbered;
    P.WithoutLatest(init, s.log, s.sequence, e);
    LatestIsCompleted(s, e);
    LoggedPaths(init, s, e);
    var base := Replay(init, P.CompletedLog(s.log - {e}));
    ReplayRetracts(base, e);
    assert P.Others(s.log - {e} + {P.AsUndone(e)}, e.transactionId) == s.log - {e};
  }

  lemma LoggedPaths(init: Docs, s: P.Store, e: Entry)
    requires P.Settled(init, s) && e in s.log
    ensures DistinctPaths(e.documents)
  {
  }

  // ---- many undos, many redos --------------------------------------------------------------

  ghost predicate Undos(run: seq<P.Store>) {
    run != [] && forall i | 0 <= i < |run| - 1 :: Undoes(run[i], run[i + 1])
  }

  ghost predicate Redos(run: seq<P.Store>) {
    run != [] && forall i | 0 <= i < |run| - 1 :: Redoes(run[i], run[i + 1])
  }

  ghost predicate RedosAsWas(run: seq<P.Store>) {
    run != [] && forall i | 0 <= i < |run| - 1 :: RedoesAsWas(run[i], run[i + 1])
  }

  ghost predicate EachKeepsRecord(run: seq<P.Store>) {
    forall i | 0 <= i < |run| - 1 :: KeepsRecord(run[i], run[i + 1])
  }

  lemma UndosTail(run: seq<P.Store>)
    requires Undos(run) && |run| > 1
    ensures Undos(run[1..])
  {
    var rest := run[1..];
    forall i | 0 <= i < |rest| - 1 ensures Undoes(rest[i], rest[i + 1]) {
      var j := i + 1;
      assert Undoes(run[j], run[j + 1]);
    }
  }

  /** Undoing takes completed entries away one at a time, newest first. */
  lemma {:induction false} UndosRetract(init: Docs, run: seq<P.Store>)
    requires Undos(run) && P.Settled(init, run[0])
    ensures P.Settled(init, run[|run| - 1])
    ensures P.CompletedLog(run[|run| - 1].log) <= P.CompletedLog(run[0].log)
    decreases |run|
  {
    hide P.Settled, P.CompletedLog, UndoOf, P.IsLatestCompleted;
    if |run| > 1 {
      assert Undoes(run[0], run[1]);
      var e :| P.IsLatestCompleted(run[0].log, e) && run[1] == UndoOf(run[0], e);
      UndoSettles(init, run[0], e);
      UndoLog(init, run[0], e);
      var rest := run[1..];
      UndosTail(run);
      UndosRetract(init, rest);
    }
  }

  lemma RedoStepSettles(init: Docs, s: P.Store, e: Entry, t: Timestamp, s': P.Store)
    requires P.Settled(init, s) && RedoesAt(s, e, t, s')
    ensures P.Settled(init, s') && P.Names(AsCompletedAt(e, t), P.AsRedoing(e), After)
    ensures s'.log == s.log - {e} + {AsCompletedAt(e, t)}
    ensures P.CompletedLog(s'.log) == P.CompletedLog(s.log) + {AsCompletedAt(e, t)}
    ensures e in s.log && e.state == Undone && forall y | y in s.log && y.state == Undone && y != e :: Order(y) != Order(e)
  {
    hide P.Settled, P.CompletedLog, RedoOf, P.IsNextRedo, P.Names;
    RedoFinal(init, s, e, t);
    RedoSettles(init, s, e, AsCompletedAt(e, t));
    RedoLog(init, s, e, AsCompletedAt(e, t));
  }

  /**
   Redoing keeps what is completed, takes only from what was undone, and leaves nothing undone that
   came before something it completed.
   */
  lemma {:induction false} RedosPassNothingOver(init: Docs, run: seq<P.Store>)
    requires Redos(run) && P.Settled(init, run[0])
    ensures var last := run[|run| - 1];
            && P.Settled(init, last)
            && (forall x | x in last.log && x.state == Undone :: x in run[0].log)
            && (forall x | x in last.log && x.state == Undone && AboveCompleted(run[0].log, x) :: AboveCompleted(last.log, x))
    decreases |run|
  {
    hide P.Settled, P.CompletedLog, RedoesAt;
    if |run| > 1 {
      var n := |run| - 2;
      RedosPassNothingOver(init, run[..n + 1]);
      assert Redoes(run[n], run[n + 1]);
      var e, t :| RedoesAt(run[n], e, t, run[n + 1]);
      RedoStepSettles(init, run[n], e, t, run[n + 1]);
      RedoneIsNext(run[n], e, t, run[n + 1]);
    }
  }

  /** What stays undone above everything completed comes after the entry redone. */
  lemma RedoneIsNext(s: P.Store, e: Entry, t: Timestamp, s': P.Store)
    requires RedoesAt(s, e, t, s') && P.CompletedLog(s'.log) == P.CompletedLog(s.log) + {AsCompletedAt(e, t)}
    requires s'.log == s.log - {e} + {AsCompletedAt(e, t)}
    requires forall y | y in s.log && y.state == Undone && y != e :: Order(y) != Order(e)
    ensures forall x | x in s'.log && x.state == Undone && AboveCompleted(s.log, x) :: AboveCompleted(s'.log, x)
  {
    hide RedoOf;
    forall x | x in s'.log && x.state == Undone && AboveCompleted(s.log, x) ensures AboveCompleted(s'.log, x) {
      assert P.Redoable(s.log, x);
    }
  }

  lemma {:induction false} RedosKeepCompleted(init: Docs, run: seq<P.Store>, x: Entry)
    requires Redos(run) && P.Settled(init, run[0]) && x in run[0].log && x.state == Completed
    ensures x in run[|run| - 1].log
    decreases |run|
  {
    hide P.Settled, P.CompletedLog, RedoesAt;
    if |run| > 1 {
      var n := |run| - 2;
      RedosKeepCompleted(init, run[..n + 1], x);
      RedosPassNothingOver(init, run[..n + 1]);
      assert Redoes(run[n], run[n + 1]);
      var e, t :| RedoesAt(run[n], e, t, run[n + 1]);
      RedoStepSettles(init, run[n], e, t, run[n + 1]);
    }
  }

  ghost predicate SameTime(x: Entry, log: set<Entry>) {
    exists y :: y in log && y.transactionId == x.transactionId && y.completedAt == x.completedAt
  }

  lemma {:induction false} UndosKeepTimes(init: Docs, run: seq<P.Store>, x: Entry)
    requires Undos(run) && P.Settled(init, run[0]) && x in run[0].log
    ensures SameTime(x, run[|run| - 1].log)
    decreases |run|
  {
    hide P.Settled, P.CompletedLog, UndoOf, P.IsLatestCompleted;
    if |run| > 1 {
      assert Undoes(run[0], run[1]);
      var e :| P.IsLatestCompleted(run[0].log, e) && run[1] == UndoOf(run[0], e);
      UndoSettles(init, run[0], e);
      UndoLog(init, run[0], e);
      UndosTail(run);
      UndosKeepTimes(init, run[1..], if x == e then P.AsUndone(e) else x);
    }
  }

  lemma {:induction false} RedosRevertUndos(init: Docs, undos: seq<P.Store>, redos: seq<P.Store>, top: Entry)
    requires Undos(undos) && RedosAsWas(redos) && P.Settled(init, undos[0])
    requires |undos| == |redos| > 1 && redos[0] == undos[|undos| - 1]
    requires P.IsLatestCompleted(undos[0].log, top) && NoneAbandoned(undos[0].log, redos[0].log, top)
    ensures redos[|redos| - 1] == undos[0]
    decreases |undos|
  {
    hide P.Settled, P.CompletedLog, UndoOf, RedoOf, P.IsNextRedo, P.IsLatestCompleted;
    var n := |undos| - 1;
    assert Undoes(undos[0], undos[1]);
    var e :| P.IsLatestCompleted(undos[0].log, e) && undos[1] == UndoOf(undos[0], e);
    OneLatest(init, undos[0], e, top);
    UndoSettles(init, undos[0], e);
    var rest, init' := undos[1..], redos[..n];
    UndosTail(undos);
    assert RedosAsWas(init');
    UndosRetract(init, rest);
    if n > 1 {
      assert Undoes(undos[1], undos[2]);
      var next :| P.IsLatestCompleted(undos[1].log, next) && undos[2] == UndoOf(undos[1], next);
      NoneAbandonedBelow(init, undos[0], e, next, redos[0].log);
      RedosRevertUndos(init, rest, init', next);
    }
    assert redos[n - 1] == undos[1];
    assert RedoesAsWas(redos[n - 1], redos[n]);
    RedoReverts(init, undos[0], e, redos[n]);
  }

  lemma OneLatest(init: Docs, s: P.Store, e: Entry, x: Entry)
    requires P.Settled(init, s) && P.IsLatestCompleted(s.log, e) && P.IsLatestCompleted(s.log, x)
    ensures e == x
  {
    SplitLatest(s.log, s.sequence, e);
  }

  lemma NoneAbandonedBelow(init: Docs, s: P.Store, e: Entry, next: Entry, low: set<Entry>)
    requires P.Settled(init, s) && P.IsLatestCompleted(s.log, e) && NoneAbandoned(s.log, low, e)
    requires P.IsLatestCompleted(UndoOf(s, e).log, next)
    ensures NoneAbandoned(UndoOf(s, e).log, low, next)
  {
    UndoLog(init, s, e);
    LatestIsCompleted(UndoOf(s, e), next);
  }

  // ---- completion times set aside ----------------------------------------------------------

  const EPOCH := Instant(0)

  function Timeless(e: Entry): Entry {
    if e.completedAt.Some? then e.(completedAt := Some(EPOCH)) else e
  }

  function TimelessLog(log: set<Entry>): set<Entry> { set e | e in log :: Timeless(e) }

  /** The store with every completion time put to the same instant. */
  function TimelessStore(s: P.Store): P.Store { s.(log := TimelessLog(s.log)) }

  lemma TimelessAt(log: set<Entry>, e: Entry)
    ensures e in log ==> Timeless(e) in TimelessLog(log)
  {
  }

  lemma TimelessParts(log: set<Entry>, id: string)
    ensures P.CompletedLog(TimelessLog(log)) == TimelessLog(P.CompletedLog(log))
    ensures P.Ordered(TimelessLog(log)) == TimelessLog(P.Ordered(log))
    ensures P.Others(TimelessLog(log), id) == TimelessLog(P.Others(log, id))
  {
    forall e | e in log
      ensures Timeless(e).state == e.state && Timeless(e).completionOrder == e.completionOrder && Timeless(e).transactionId == e.transactionId {}
  }

  lemma {:induction false} TimelessReplay(init: Docs, log: set<Entry>)
    requires DistinctOrders(log)
    ensures Replay(init, TimelessLog(log)) == Replay(init, log)
    ensures Linked(init, TimelessLog(log)) == Linked(init, log)
    decreases |log|
  {
    hide Images, Timeless;
    if log == {} {
      assert TimelessLog(log) == {};
    } else {
      var e := Latest(log);
      var rest := log - {e};
      TimelessReplay(init, rest);
      hide TimelessLog, DistinctOrders;
      TimelessTop(log, e);
      SameImages(e);
      ReplayExtends(init, TimelessLog(rest), Timeless(e));
    }
  }

  lemma TimelessTop(log: set<Entry>, e: Entry)
    requires DistinctOrders(log) && Newest(e, log)
    ensures TimelessLog(log) == TimelessLog(log - {e}) + {Timeless(e)}
    ensures forall x | x in TimelessLog(log - {e}) :: Order(x) < Order(Timeless(e))
  {
    assert log == log - {e} + {e};
  }

  lemma SameImages(e: Entry)
    ensures Images(Timeless(e), Before) == Images(e, Before) && Images(Timeless(e), After) == Images(e, After)
  {
  }

  lemma TimelessNumbered(log: set<Entry>, sequence: int)
    requires P.NumberedLog(log, sequence)
    ensures P.NumberedLog(TimelessLog(log), sequence)
  {
    TimelessParts(log, "");
    forall e | e in log ensures WellFormed(Timeless(e)) && !IsActiveState(Timeless(e).state) {}
  }

  lemma TimelessSettled(init: Docs, s: P.Store)
    requires P.Settled(init, s)
    ensures P.Settled(init, TimelessStore(s))
  {
    hide P.NumberedLog;
    TimelessParts(s.log, "");
    TimelessNumbered(s.log, s.sequence);
    CompletedOrders(s.log, s.sequence);
    TimelessReplay(init, P.CompletedLog(s.log));
  }

  lemma CompletedOrders(log: set<Entry>, sequence: int)
    requires P.NumberedLog(log, sequence)
    ensures DistinctOrders(P.CompletedLog(log))
  {
    assert P.CompletedLog(log) <= P.Ordered(log);
  }

  lemma TimelessUndo(s: P.Store, e: Entry)
    requires P.IsLatestCompleted(s.log, e)
    ensures P.IsLatestCompleted(TimelessStore(s).log, Timeless(e))
    ensures TimelessStore(UndoOf(s, e)) == UndoOf(TimelessStore(s), Timeless(e))
  {
    TimelessParts(s.log, e.transactionId);
    SameImages(e);
    var others := P.Others(s.log, e.transactionId);
    assert TimelessLog(others + {P.AsUndone(e)}) == TimelessLog(others) + {Timeless(P.AsUndone(e))};
  }

  lemma TimelessNextRedo(log: set<Entry>, e: Entry)
    requires P.IsNextRedo(log, e)
    ensures P.IsNextRedo(TimelessLog(log), Timeless(e))
  {
    TimelessParts(log, "");
    forall x | P.Redoable(TimelessLog(log), x) ensures Order(e) <= Order(x) {
      var y :| y in log && x == Timeless(y);
      forall z | z in P.CompletedLog(log) ensures Order(z) < Order(y) {
        assert Timeless(z) in TimelessLog(P.CompletedLog(log));
      }
      assert P.Redoable(log, y);
    }
  }

  lemma TimelessRedo(s: P.Store, e: Entry, t: Timestamp, s': P.Store)
    requires RedoesAt(s, e, t, s') && e.completedAt.Some?
    ensures RedoesAsWas(TimelessStore(s), TimelessStore(s'))
  {
    hide P.IsNextRedo;
    TimelessNextRedo(s.log, e);
    TimelessParts(s.log, e.transactionId);
    SameImages(e);
    var others := P.Others(s.log, e.transactionId);
    assert TimelessLog(others + {AsCompletedAt(e, t)}) == TimelessLog(others) + {P.AsCompleted(Timeless(e))};
    assert TimelessStore(s') == RedoOf(TimelessStore(s), Timeless(e), P.AsCompleted(Timeless(e)));
  }

  function TimelessRun(run: seq<P.Store>): seq<P.Store> {
    seq(|run|, i requires 0 <= i < |run| => TimelessStore(run[i]))
  }

  lemma TimelessUndos(run: seq<P.Store>)
    requires Undos(run)
    ensures Undos(TimelessRun(run))
  {
    hide P.IsLatestCompleted, UndoOf, TimelessStore;
    var blank := TimelessRun(run);
    forall i | 0 <= i < |blank| - 1 ensures Undoes(blank[i], blank[i + 1]) {
      assert Undoes(run[i], run[i + 1]);
      var e :| P.IsLatestCompleted(run[i].log, e) && run[i + 1] == UndoOf(run[i], e);
      TimelessUndo(run[i], e);
    }
  }

  lemma TimelessRedos(init: Docs, run: seq<P.Store>)
    requires Redos(run) && P.Settled(init, run[0])
    ensures RedosAsWas(TimelessRun(run))
  {
    hide P.Settled, RedoesAt, RedoesAsWas, TimelessStore;
    var blank := TimelessRun(run);
    forall i | 0 <= i < |blank| - 1 ensures RedoesAsWas(blank[i], blank[i + 1]) {
      assert Redoes(run[i], run[i + 1]);
      var e, t :| RedoesAt(run[i], e, t, run[i + 1]);
      RedosPassNothingOver(init, run[..i + 1]);
      RedoneHasTime(init, run[i], e, t, run[i + 1]);
      TimelessRedo(run[i], e, t, run[i + 1]);
    }
  }

  lemma RedoneHasTime(init: Docs, s: P.Store, e: Entry, t: Timestamp, s': P.Store)
    requires P.Settled(init, s) && RedoesAt(s, e, t, s')
    ensures e.completedAt.Some?
  {
  }

  lemma TimelessAbandoned(log: set<Entry>, low: set<Entry>, top: Entry)
    requires NoneAbandoned(log, low, top)
    ensures NoneAbandoned(TimelessLog(log), TimelessLog(low), Timeless(top))
  {
    TimelessParts(low, "");
    forall x | x in TimelessLog(log) && x.state == Undone && AboveCompleted(TimelessLog(low), x) ensures Order(top) < Order(x) {
      var y :| y in log && x == Timeless(y);
      forall z | z in P.CompletedLog(low) ensures Order(z) < Order(y) {
        assert Timeless(z) in TimelessLog(P.CompletedLog(low));
      }
    }
  }

  /** Times aside, redos revert as many undos. */
  lemma RedosRevertTimeless(init: Docs, undos: seq<P.Store>, redos: seq<P.Store>, top: Entry)
    requires Undos(undos) && Redos(redos) && P.Settled(init, undos[0])
    requires |undos| == |redos| > 1 && redos[0] == undos[|undos| - 1]
    requires P.IsLatestCompleted(undos[0].log, top) && NoneAbandoned(undos[0].log, redos[0].log, top)
    ensures TimelessStore(redos[|redos| - 1]) == TimelessStore(undos[0])
  {
    hide P.Settled, Undos, Redos, RedosAsWas, NoneAbandoned, P.IsLatestCompleted, UndoOf;
    UndosRetract(init, undos);
    TimelessUndos(undos);
    TimelessRedos(init, redos);
    TimelessSettled(init, undos[0]);
    TimelessUndo(undos[0], top);
    TimelessAbandoned(undos[0].log, redos[0].log, top);
    RedosRevertUndos(init, TimelessRun(undos), TimelessRun(redos), Timeless(top));
  }

  /** An abandoned entry in between is redone first, and keeps the newest one from coming back. */
  lemma AbandonedIsInTheWay(init: Docs, undos: seq<P.Store>, redos: seq<P.Store>, top: Entry)
    requires Undos(undos) && Redos(redos) && P.Settled(init, undos[0])
    requires |undos| == |redos| > 1 && redos[0] == undos[|undos| - 1]
    requires P.IsLatestCompleted(undos[0].log, top) && !NoneAbandoned(undos[0].log, redos[0].log, top)
    ensures TimelessStore(redos[|redos| - 1]) != TimelessStore(undos[0])
  {
    hide P.Settled, Undos, Redos;
    var last := redos[|redos| - 1];
    LatestIsCompleted(undos[0], top);
    UndosRetract(init, undos);
    RedosPassNothingOver(init, redos);
    if TimelessLog(last.log) == TimelessLog(undos[0].log) {
      TimelessAt(undos[0].log, top);
      var top' :| top' in last.log && Timeless(top') == Timeless(top);
      assert top' in P.CompletedLog(last.log);
      var x :| x in undos[0].log && x.state == Undone && AboveCompleted(redos[0].log, x) && Order(x) <= Order(top);
      TimelessAt(undos[0].log, x);
      assert false;
    }
  }

  /** Had a redo written another time, that time would still be in the archive. */
  lemma EqualKeepsRecord(init: Docs, undos: seq<P.Store>, redos: seq<P.Store>, i: nat)
    requires Undos(undos) && Redos(redos) && P.Settled(init, undos[0])
    requires redos[0] == undos[|undos| - 1] && redos[|redos| - 1] == undos[0] && i < |redos| - 1
    ensures KeepsRecord(redos[i], redos[i + 1])
  {
    hide P.Settled, P.CompletedLog, RedoesAt;
    UndosRetract(init, undos);
    assert Redoes(redos[i], redos[i + 1]);
    var e, t :| RedoesAt(redos[i], e, t, redos[i + 1]);
    RedosPassNothingOver(init, redos[..i + 1]);
    RedoStepSettles(init, redos[i], e, t, redos[i + 1]);
    RedosRest(redos, i + 1);
    RedosKeepCompleted(init, redos[i + 1..], AsCompletedAt(e, t));
    UndosKeepTimes(init, undos, AsCompletedAt(e, t));
    var y :| y in redos[0].log && y.transactionId == e.transactionId && y.completedAt == Some(t);
    OneOfEachId(init, redos[0], e, y);
    RedoesOwn(redos[i], e, t, redos[i + 1]);
  }

  lemma RedosRest(run: seq<P.Store>, k: nat)
    requires Redos(run) && k < |run|
    ensures Redos(run[k..])
  {
    var rest := run[k..];
    forall i | 0 <= i < |rest| - 1 ensures Redoes(rest[i], rest[i + 1]) {
      var j := i + k;
      assert Redoes(run[j], run[j + 1]);
    }
  }

  lemma OneOfEachId(init: Docs, s: P.Store, x: Entry, y: Entry)
    requires P.Settled(init, s) && x in s.log && y in s.log && x.transactionId == y.transactionId
    ensures x == y
  {
  }

  lemma RedoesOwn(s: P.Store, e: Entry, t: Timestamp, s': P.Store)
    requires RedoesAt(s, e, t, s') && e.completedAt == Some(t)
    ensures KeepsRecord(s, s') && RedoesAsWas(s, s')
  {
    assert AsCompletedAt(e, t) == P.AsCompleted(e);
  }

  lemma KeepingIsAsWas(init: Docs, s: P.Store, s': P.Store)
    requires P.Settled(init, s) && Redoes(s, s') && KeepsRecord(s, s')
    ensures RedoesAsWas(s, s')
  {
    hide P.CompletedLog, RedoOf;
    var e, t :| RedoesAt(s, e, t, s');
    var x :| P.IsNextRedo(s.log, x) && s' == RedoOf(s, x, P.AsCompleted(x));
    assert x in P.Ordered(s.log) && e in P.Ordered(s.log);
  }

  lemma AllKeepAsWas(init: Docs, redos: seq<P.Store>)
    requires Redos(redos) && P.Settled(init, redos[0]) && EachKeepsRecord(redos)
    ensures RedosAsWas(redos)
  {
    hide P.Settled, Redoes, KeepsRecord, RedoesAsWas;
    forall i | 0 <= i < |redos| - 1 ensures RedoesAsWas(redos[i], redos[i + 1]) {
      RedosPassNothingOver(init, redos[..i + 1]);
      KeepingIsAsWas(init, redos[i], redos[i + 1]);
    }
  }

  /**
   As many redos as undos, each finished by itself or by recovery, give back the store they started
   from, completion times aside, if and only if no entry abandoned by an earlier apply lies between the
   oldest entry undone and the newest. They give it back to the letter if and only if besides every
   redo wrote the record that was there before.
   */
  lemma UndosThenRedos(init: Docs, undos: seq<P.Store>, redos: seq<P.Store>, top: Entry)
    requires Undos(undos) && Redos(redos) && P.Settled(init, undos[0])
    requires |undos| == |redos| > 1 && redos[0] == undos[|undos| - 1]
    requires P.IsLatestCompleted(undos[0].log, top)
    ensures TimelessStore(redos[|redos| - 1]) == TimelessStore(undos[0]) <==> NoneAbandoned(undos[0].log, redos[0].log, top)
    ensures NoneAbandoned(undos[0].log, redos[0].log, top) ==> redos[|redos| - 1].docs == undos[0].docs
    ensures redos[|redos| - 1] == undos[0] <==> NoneAbandoned(undos[0].log, redos[0].log, top) && EachKeepsRecord(redos)
  {
    hide P.Settled, Undos, Redos, KeepsRecord, P.IsLatestCompleted, NoneAbandoned, TimelessLog;
    if NoneAbandoned(undos[0].log, redos[0].log, top) {
      RedosRevertTimeless(init, undos, redos, top);
    } else {
      AbandonedIsInTheWay(init, undos, redos, top);
    }
    if redos[|redos| - 1] == undos[0] {
      forall i | 0 <= i < |redos| - 1 ensures KeepsRecord(redos[i], redos[i + 1]) {
        EqualKeepsRecord(init, undos, redos, i);
      }
    }
    if NoneAbandoned(undos[0].log, redos[0].log, top) && EachKeepsRecord(redos) {
      UndosRetract(init, undos);
      AllKeepAsWas(init, redos);
      RedosRevertUndos(init, undos, redos, top);
    }
  }

  // ---- redo is never refused after undo ----------------------------------------------------

  /** With nothing abandoned below it, the entry just undone is the next to redo, and its documents are where redo needs them. */
  lemma UndoneIsNext(init: Docs, s: P.Store, e: Entry, low: set<Entry>)
    requires P.Settled(init, s) && P.IsLatestCompleted(s.log, e) && NoneAbandoned(s.log, low, e)
    requires P.CompletedLog(low) <= P.CompletedLog(UndoOf(s, e).log)
    ensures P.IsNextRedo(UndoOf(s, e).log, P.AsUndone(e))
    ensures Agrees(UndoOf(s, e).docs, Images(P.AsUndone(e), Before))
    ensures RedoesAsWas(UndoOf(s, e), s)
  {
    hide P.Settled, P.CompletedLog, P.IsLatestCompleted, Images;
    var u := UndoOf(s, e);
    UndoLog(init, s, e);
    LatestIsCompleted(s, e);
    forall x | P.Redoable(u.log, x) ensures Order(e) <= Order(x) {
      assert x != P.AsUndone(e) ==> x in s.log && AboveCompleted(low, x);
    }
    assert P.Redoable(u.log, P.AsUndone(e));
    UndoneDocs(s, e);
    Reverted(init, s, e);
  }

  lemma UndoneDocs(s: P.Store, e: Entry)
    ensures Agrees(UndoOf(s, e).docs, Images(P.AsUndone(e), Before))
  {
  }

  /** After n undos with nothing abandoned, n redos give back every record as it was. */
  lemma {:induction false} RedosExist(init: Docs, undos: seq<P.Store>, top: Entry) returns (redos: seq<P.Store>)
    requires Undos(undos) && P.Settled(init, undos[0]) && |undos| > 1
    requires P.IsLatestCompleted(undos[0].log, top) && NoneAbandoned(undos[0].log, undos[|undos| - 1].log, top)
    ensures RedosAsWas(redos) && |redos| == |undos| && redos[0] == undos[|undos| - 1] && redos[|redos| - 1] == undos[0]
    decreases |undos|
  {
    hide P.Settled, P.CompletedLog, UndoOf, P.IsLatestCompleted, NoneAbandoned, RedoesAsWas;
    var low := undos[|undos| - 1].log;
    assert Undoes(undos[0], undos[1]);
    var e :| P.IsLatestCompleted(undos[0].log, e) && undos[1] == UndoOf(undos[0], e);
    OneLatest(init, undos[0], e, top);
    UndoSettles(init, undos[0], e);
    UndosTail(undos);
    UndosRetract(init, undos[1..]);
    UndoneIsNext(init, undos[0], e, low);
    if |undos| == 2 {
      redos := [undos[1], undos[0]];
    } else {
      assert Undoes(undos[1], undos[2]);
      var next :| P.IsLatestCompleted(undos[1].log, next) && undos[2] == UndoOf(undos[1], next);
      NoneAbandonedBelow(init, undos[0], e, next, low);
      var rest := RedosExist(init, undos[1..], next);
      redos := rest + [undos[0]];
    }
  }

  lemma TimelessRedoable(log: set<Entry>, x: Entry)
    requires x in log
    ensures P.Redoable(TimelessLog(log), Timeless(x)) <==> P.Redoable(log, x)
  {
    TimelessParts(log, "");
    if P.Redoable(TimelessLog(log), Timeless(x)) {
      forall z | z in P.CompletedLog(log) ensures Order(z) < Order(x) {
        assert Timeless(z) in TimelessLog(P.CompletedLog(log));
      }
    }
  }

  lemma NextRedoTimed(log: set<Entry>, y: Entry)
    requires P.IsNextRedo(TimelessLog(log), y)
    ensures exists x :: P.IsNextRedo(log, x) && Timeless(x) == y
  {
    var x :| x in log && Timeless(x) == y;
    TimelessRedoable(log, x);
    forall w | P.Redoable(log, w) ensures Order(x) <= Order(w) {
      TimelessRedoable(log, w);
      assert P.Redoable(TimelessLog(log), Timeless(w));
    }
    assert P.IsNextRedo(log, x);
  }

  /** Something can be redone, and its documents are where redo needs them. */
  ghost predicate CanGoOn(s: P.Store) {
    exists e :: P.IsNextRedo(s.log, e) && Agrees(s.docs, Images(e, Before))
  }

  /** What differs from an undone store in completion times only can be redone. */
  lemma AlikeGoesOn(u: P.Store, e: Entry, r: P.Store)
    requires P.IsNextRedo(u.log, e) && Agrees(u.docs, Images(e, Before)) && TimelessStore(r) == TimelessStore(u)
    ensures CanGoOn(r)
  {
    hide P.IsNextRedo, TimelessLog, Images;
    TimelessNextRedo(u.log, e);
    assert TimelessLog(r.log) == TimelessLog(u.log) && r.docs == u.docs;
    NextRedoTimed(r.log, Timeless(e));
    var x :| P.IsNextRedo(r.log, x) && Timeless(x) == Timeless(e);
    SameImages(x);
    SameImages(e);
  }

  /**
   With nothing abandoned, and however the redos so far were finished, redo can go on until there are as
   many redos as undos: the next entry is there and its documents are where it needs them.
   */
  lemma {:induction false} RedoNeverSticks(init: Docs, undos: seq<P.Store>, redos: seq<P.Store>, top: Entry)
    requires Undos(undos) && Redos(redos) && P.Settled(init, undos[0])
    requires 0 < |redos| < |undos| && redos[0] == undos[|undos| - 1]
    requires P.IsLatestCompleted(undos[0].log, top) && NoneAbandoned(undos[0].log, redos[0].log, top)
    ensures CanGoOn(redos[|redos| - 1])
    decreases |undos|
  {
    hide P.Settled, P.CompletedLog, UndoOf, P.IsLatestCompleted, NoneAbandoned, CanGoOn, Redos, TimelessStore, P.IsNextRedo, RedoesAsWas;
    assert Undoes(undos[0], undos[1]);
    var e :| P.IsLatestCompleted(undos[0].log, e) && undos[1] == UndoOf(undos[0], e);
    OneLatest(init, undos[0], e, top);
    UndoSettles(init, undos[0], e);
    var rest := undos[1..];
    UndosTail(undos);
    UndosRetract(init, rest);
    var last := redos[|redos| - 1];
    if |rest| > 1 {
      assert Undoes(undos[1], undos[2]);
      var next :| P.IsLatestCompleted(undos[1].log, next) && undos[2] == UndoOf(undos[1], next);
      NoneAbandonedBelow(init, undos[0], e, next, redos[0].log);
      if |redos| < |rest| {
        RedoNeverSticks(init, rest, redos, next);
        return;
      }
      RedosRevertTimeless(init, rest, redos, next);
    }
    assert TimelessStore(last) == TimelessStore(undos[1]);
    UndoneIsNext(init, undos[0], e, redos[0].log);
    AlikeGoesOn(undos[1], P.AsUndone(e), last);
  }
}
