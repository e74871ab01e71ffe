/** The apply journal's operations on the disk, with every way each write may go wrong. */
module ApplyJournal {
  import opened Common
  import opened DurableDisk
  import opened AtomicWrite
  import opened JournalModel
  import opened JournalFiles
  import O = JournalOrder
  import P = JournalProtocol

  // ---- selections --------------------------------------------------------------------------

  function LatestCompleted(entries: seq<Entry>): (r: Option<Entry>)
    ensures r.None? ==> forall e | e in entries :: e.state != Completed
    ensures r.Some? ==> r.value in entries && r.value.state == Completed
    ensures r.Some? ==> forall e | e in entries && e.state == Completed :: Order(e) <= Order(r.value)
  {
    if entries == [] then None
    else
      var e, rest := entries[0], LatestCompleted(entries[1..]);
      if e.state == Completed && (rest.None? || Order(e) >= Order(rest.value)) then Some(e) else rest
  }

  function LatestCompletedOrder(entries: seq<Entry>): (r: int)
    ensures r >= 0
    ensures forall e | e in entries && e.state == Completed :: Order(e) <= r
    ensures r == 0 || exists e :: e in entries && e.state == Completed && Order(e) == r
  {
    if entries == [] then 0
    else
      var e, rest := entries[0], LatestCompletedOrder(entries[1..]);
      if e.state == Completed && Order(e) > rest then Order(e) else rest
  }

  function LeastUndoneAbove(entries: seq<Entry>, bound: int): (r: Option<Entry>)
    ensures r.None? ==> forall e | e in entries && e.state == Undone :: Order(e) <= bound
    ensures r.Some? ==> r.value in entries && r.value.state == Undone && Order(r.value) > bound
    ensures r.Some? ==> forall e | e in entries && e.state == Undone && Order(e) > bound :: Order(r.value) <= Order(e)
  {
    if entries == [] then None
    else
      var e, rest := entries[0], LeastUndoneAbove(entries[1..], bound);
      if e.state == Undone && Order(e) > bound && (rest.None? || Order(e) <= Order(rest.value)) then Some(e) else rest
  }

  function NextRedo(entries: seq<Entry>): Option<Entry> {
    LeastUndoneAbove(entries, LatestCompletedOrder(entries))
  }

  function MaxOrder(entries: seq<Entry>): (r: int)
    ensures r >= 0
    ensures forall e | e in entries :: Order(e) <= r
    ensures r == 0 || exists e :: e in entries && Order(e) == r
  {
    if entries == [] then 0
    else
      var rest := MaxOrder(entries[1..]);
      if Order(entries[0]) > rest then Order(entries[0]) else rest
  }

  ghost predicate Lists(entries: seq<Entry>, log: set<Entry>) {
    forall e :: e in entries <==> e in log
  }

  lemma LatestCompletedIsNewest(entries: seq<Entry>, log: set<Entry>)
    requires Lists(entries, log)
    ensures var r := LatestCompleted(entries);
            if r.Some? then P.IsLatestCompleted(log, r.value) else P.CompletedLog(log) == {}
  {
  }

  /** The array search finds the redo candidate exactly when the log has one. */
  lemma NextRedoIsNext(entries: seq<Entry>, log: set<Entry>)
    requires Lists(entries, log) && forall e | e in log :: WellFormed(e)
    ensures var r := NextRedo(entries);
            if r.Some? then P.IsNextRedo(log, r.value) else forall e :: !P.IsNextRedo(log, e)
  {
    var bound, r := LatestCompletedOrder(entries), NextRedo(entries);
    forall e | P.Redoable(log, e) ensures e in entries && e.state == Undone && Order(e) > bound {
      if bound != 0 {
        var x :| x in entries && x.state == Completed && Order(x) == bound;
        assert x in P.CompletedLog(log);
      }
    }
    if r.Some? {
      assert P.Redoable(log, r.value);
    }
  }

  // ---- the undo cache ----------------------------------------------------------------------

  datatype Candidate = Candidate(completionOrder: int, documents: seq<CandidateDocument>)
  datatype CandidateDocument = CandidateDocument(documentPath: string, afterHash: Digest<Bytes>)

  function CandidateOf(e: Entry): Candidate {
    Candidate(Order(e), seq(|e.documents|, i requires 0 <= i < |e.documents| =>
      CandidateDocument(e.documents[i].documentPath, e.documents[i].afterHash)))
  }

  /** Names, times and sizes of the archive files, taken to change whenever their contents do. */
  function Signature(c: Files): Files { map t | t in c && t.Archive? :: c[t] }

  datatype Cache = Cache(signature: Files, entry: Option<Candidate>)

  /** The cache spares the next scan of this archive. */
  predicate Remembers(cache: Option<Cache>, c: Files, candidate: Option<Candidate>) {
    cache == Some(Cache(Signature(c), candidate))
  }

  ghost predicate IsUndoCandidate(log: set<Entry>, o: Option<Candidate>) {
    match o
    case Some(k) => exists e :: P.IsLatestCompleted(log, e) && k == CandidateOf(e)
    case None => P.CompletedLog(log) == {}
  }

  /** What the cache says of the archive it was taken from is what a scan of that archive says. */
  ghost predicate CacheSound(cache: Option<Cache>) {
    cache.Some? ==>
      && ArchiveReadable(cache.value.signature)
      && IsUndoCandidate(Archived(cache.value.signature), cache.value.entry)
  }

  lemma SignatureView(c: Files)
    ensures ArchiveReadable(Signature(c)) == ArchiveReadable(c)
    ensures ArchiveReadable(c) ==> Archived(Signature(c)) == Archived(c)
  {
    var s := Signature(c);
    assert forall t | t in c && t.Archive? :: t in s && ReadArchived(s, t.id) == ReadArchived(c, t.id);
    if ArchiveReadable(s) {
      assert forall t | t in c && t.Archive? :: ReadArchived(s, t.id).Some?;
    }
  }

  // ---- single writes -----------------------------------------------------------------------

  ghost function DocLocks(paths: seq<string>): set<Lock<Target>> {
    set i | 0 <= i < |paths| :: Of(Doc(paths[i]))
  }

  /** No lock is held on a file of the journal, so each of its writes can take its own. */
  ghost predicate FilesFree(held: set<Lock<Target>>) {
    forall t | Of(t) in held :: t.Doc?
  }

  lemma OperationAndDocuments(paths: seq<string>)
    ensures FilesFree({Operation}) && FilesFree({Operation} + DocLocks(paths))
    ensures DocLocks(paths) !! {Operation} && {Operation} + DocLocks(paths) - DocLocks(paths) == {Operation}
  {
  }

  datatype JournalResult =
    | Done(transactionId: string, documentPaths: seq<string>, recoveryPending: bool)
    | NothingPending
    | Refused(reason: Refusal)
    | Threw

  datatype Refusal = JournalInvalid | JournalConflict | InProgressElsewhere | StillPending | JournalNotFound

  class Journal {
    const disk: Disk<Target, Bytes>
    /** The documents before the first apply. */
    ghost const init: Docs
    var cache: Option<Cache>

    constructor (disk: Disk<Target, Bytes>, ghost init: Docs)
      ensures this.disk == disk && this.init == init && cache == None
      ensures P.Recoverable(init, StoreOf(disk.files)) ==> Sound()
      ensures O.Restorable(StoreOf(disk.files)) ==> Sane()
    {
      this.disk := disk;
      this.init := init;
      this.cache := None;
      new;
      if P.Recoverable(init, StoreOf(disk.files)) {
        O.RecoverableIsRestorable(init, StoreOf(disk.files));
      }
    }

    /** Archive and active entry are in order, whatever the documents hold otherwise; the cache tells the truth. */
    ghost predicate Sane()
      reads this, disk`files
    {
      O.Restorable(StoreOf(disk.files)) && CacheSound(cache)
    }

    /** Besides, the documents are what the log says: nothing was edited outside the journal. */
    ghost predicate Sound()
      reads this, disk`files
    {
      Sane() && P.Recoverable(init, StoreOf(disk.files))
    }

    lemma SaneKnowsOrders()
      ensures Sane() && ReadActive(disk.files) == Idle ==> ArchiveReadable(disk.files) && OrdersKnown(disk.files)
    {
      if Sane() && ReadActive(disk.files) == Idle {
        OrdersOfRestorable(disk.files);
      }
    }

    method WriteFile(t: Target, bytes: Bytes) returns (ok: bool)
      requires disk.Valid()
      requires Of(t) !in disk.held
      modifies disk
      ensures disk.Valid() && disk.held == old(disk.held) && StillOpen(old(disk.denied), disk.denied)
      ensures disk.files == old(disk.files) || disk.files == old(disk.files)[t := Whole(bytes)]
      ensures ok ==> disk.files == old(disk.files)[t := Whole(bytes)] && disk.moved <= old(disk.moved) - {t}
      ensures !old(disk.alive) ==> !disk.alive && disk.files == old(disk.files)
      ensures disk.failed >= old(disk.failed) + if ok then 0 else if disk.files == old(disk.files) then 1 else 2
      ensures old(disk.Calm()) ==> disk.Calm() && disk.failed == old(disk.failed)
    {
      var r := AtomicWriteFile(disk, Plan(t, bytes, None, false), false);
      ok := r.Written?;
    }

    /** The cached candidate is dropped once the archive has changed under it. */
    method WriteJournal(entry: Entry) returns (ok: bool)
      requires disk.Valid()
      requires Of(Archive(entry.transactionId)) !in disk.held
      modifies disk, this`cache
      ensures disk.Valid() && disk.held == old(disk.held) && StillOpen(old(disk.denied), disk.denied)
      ensures disk.files == old(disk.files) || disk.files == Recorded(old(disk.files), entry)
      ensures ok ==> disk.files == Recorded(old(disk.files), entry) && disk.moved <= old(disk.moved) - {Archive(entry.transactionId)}
      ensures cache == if ok then None else old(cache)
      ensures !old(disk.alive) ==> !disk.alive && disk.files == old(disk.files)
      ensures disk.failed >= old(disk.failed) + if ok then 0 else if disk.files == old(disk.files) then 1 else 2
      ensures old(disk.Calm()) ==> disk.Calm() && disk.failed == old(disk.failed)
    {
      ok := WriteFile(Archive(entry.transactionId), SerializeJournal(entry));
      if ok {
        cache := None;
      }
    }

    method WriteActive(entry: Option<Entry>) returns (ok: bool)
      requires disk.Valid()
      requires Of(Active) !in disk.held
      modifies disk
      ensures disk.Valid() && disk.held == old(disk.held) && StillOpen(old(disk.denied), disk.denied)
      ensures disk.files == old(disk.files) || disk.files == old(disk.files)[Active := Whole(ActiveBytes(entry))]
      ensures ok ==> disk.files == old(disk.files)[Active := Whole(ActiveBytes(entry))] && disk.moved <= old(disk.moved) - {Active}
      ensures !old(disk.alive) ==> !disk.alive && disk.files == old(disk.files)
      ensures disk.failed >= old(disk.failed) + if ok then 0 else if disk.files == old(disk.files) then 1 else 2
      ensures old(disk.Calm()) ==> disk.Calm() && disk.failed == old(disk.failed)
    {
      ok := WriteFile(Active, ActiveBytes(entry));
    }

    /** Read the whole archive, or nothing when one record is corrupt, misnamed or in progress. */
    method ReadJournals() returns (readable: bool, entries: seq<Entry>)
      ensures readable == ArchiveReadable(disk.files)
      ensures readable ==> Lists(entries, Archived(disk.files))
    {
      entries := [];
      var names := set t | t in disk.files && t.Archive?;
      ghost var seen: set<Target> := {};
      while names != {}
        invariant names + seen == set t | t in disk.files && t.Archive?
        invariant forall t | t in seen :: t in disk.files && t.Archive? && ReadArchived(disk.files, t.id).Some?
        invariant forall e :: e in entries <==> exists t :: t in seen && t in disk.files && t.Archive? && ReadArchived(disk.files, t.id) == Some(e)
        decreases names
      {
        var name :| name in names;
        var parsed := ReadArchived(disk.files, name.id);
        if parsed.None? {
          return false, [];
        }
        entries := entries + [parsed.value];
        names := names - {name};
        seen := seen + {name};
      }
      readable := true;
    }

    method CacheLatestCompleted(entry: Option<Entry>)
      modifies this`cache
      ensures Cached(disk.files, entry) ==> CacheSound(cache)
      ensures cache == Some(Cache(Signature(disk.files), if entry.Some? then Some(CandidateOf(entry.value)) else None))
    {
      SignatureView(disk.files);
      cache := Some(Cache(Signature(disk.files), if entry.Some? then Some(CandidateOf(entry.value)) else None));
    }

    /**
     Reserve the order after the sequence file's value, or after every archived order when that file
     is missing, corrupt or zero. `next` is the order reserved, whether or not writing it succeeds.
     */
    method ReserveCompletionOrder() returns (order: Option<int>, ghost next: int)
      requires disk.Valid()
      requires FilesFree(disk.held)
      modifies disk
      ensures disk.Valid() && disk.held == old(disk.held) && StillOpen(old(disk.denied), disk.denied)
      ensures disk.files == old(disk.files) || disk.files == Sequenced(old(disk.files), next)
      ensures disk.files != old(disk.files) || order.Some? ==>
                0 < next <= MAX_SAFE_INTEGER && P.Reserves(StoreOf(old(disk.files)), next)
      ensures order.Some? ==> order.value == next && disk.files == Sequenced(old(disk.files), next)
      ensures !old(disk.alive) ==> !disk.alive && disk.files == old(disk.files)
      ensures disk.failed >= old(disk.failed) + if order.None? && disk.files != old(disk.files) then 2 else 0
      ensures disk.failed == old(disk.failed) && order.None? && ArchiveReadable(disk.files) ==>
                P.Reserves(StoreOf(disk.files), next) && next > MAX_SAFE_INTEGER
      ensures old(disk.Calm()) ==> disk.Calm() && disk.failed == old(disk.failed)
    {
      var current := ReadSequence(disk.files);
      next := current + 1;
      if current == 0 {
        var readable, entries := ReadJournals();
        if !readable {
          return None, next;
        }
        current := MaxOrder(entries);
        next := current + 1;
      }
      if current >= MAX_SAFE_INTEGER {
        return None, next;
      }
      var ok := WriteFile(Sequence, SequenceText(current + 1));
      order := if ok then Some(current + 1) else None;
    }

    /** With nothing active: take an order, then make the new entry active. No document is touched here. */
    method Prepare(documents: seq<PlannedDocument>, transactionId: string, createdAt: Timestamp)
      returns (entry: Option<Entry>, ghost e: Entry)
      requires disk.Valid()
      requires IsTransactionId(transactionId) && createdAt.Instant? && Archive(transactionId) !in disk.files
      requires Plannable(documents)
      requires FilesFree(disk.held)
      modifies disk
      ensures disk.Valid() && disk.held == old(disk.held) && StillOpen(old(disk.denied), disk.denied)
      ensures disk.files != old(disk.files) || entry.Some? ==> StartsFrom(old(disk.files), documents, transactionId, e)
      ensures || disk.files == old(disk.files)
              || disk.files == Sequenced(old(disk.files), Order(e))
              || disk.files == Activated(Sequenced(old(disk.files), Order(e)), e)
      ensures entry.Some? ==> entry.value == e && disk.files == Activated(Sequenced(old(disk.files), Order(e)), e)
      ensures !old(disk.alive) ==> !disk.alive && disk.files == old(disk.files)
      ensures disk.failed >= old(disk.failed)
      ensures entry.None? && ReadActive(disk.files) != ReadActive(old(disk.files)) ==> disk.failed >= old(disk.failed) + 2
      ensures disk.failed == old(disk.failed) && entry.None? && documents != []
                && ReadActive(old(disk.files)) == Idle && ArchiveReadable(old(disk.files)) ==>
                exists n :: n > MAX_SAFE_INTEGER && P.Reserves(StoreOf(old(disk.files)), n)
      ensures old(disk.Calm()) ==> disk.Calm() && disk.failed == old(disk.failed)
    {
      e := Entry(transactionId, createdAt, Prepared, None, None, []);
      if documents == [] || ReadActive(disk.files) != Idle {
        return None, e;
      }
      var order;
      ghost var next;
      order, next := ReserveCompletionOrder();
      var changes := seq(|documents|, i requires 0 <= i < |documents| => ChangeOf(documents[i]));
      e := Entry(transactionId, createdAt, Prepared, None, Some(next), changes);
      if order.None? {
        return None, e;
      }
      var prepared := Entry(transactionId, createdAt, Prepared, None, order, changes);
      var ok := WriteActive(Some(prepared));
      entry := if ok then Some(prepared) else None;
    }

    /** Archive the entry as completed, clear the active entry, remember it as the undo candidate. */
    method Complete(entry: Entry, now: Timestamp) returns (ok: bool)
      requires disk.Valid()
      requires FilesFree(disk.held)
      modifies disk, this`cache
      ensures disk.Valid() && disk.held == old(disk.held) && StillOpen(old(disk.denied), disk.denied)
      ensures var recorded := Recorded(old(disk.files), AsCompletedAt(entry, now));
              && (disk.files == old(disk.files) || disk.files == recorded || disk.files == Cleared(recorded))
              && (ok ==> disk.files == Cleared(recorded))
      ensures old(CacheSound(cache)) && (ok ==> Cached(disk.files, Some(entry))) ==> CacheSound(cache)
      ensures !old(disk.alive) ==> !disk.alive && disk.files == old(disk.files)
      ensures entry.completionOrder.None? ==> !ok && disk.files == old(disk.files)
      ensures ok ==> Remembers(cache, disk.files, Some(CandidateOf(entry)))
      ensures disk.failed >= old(disk.failed) + if ok || entry.completionOrder.None? then 0 else 1
      ensures !ok && ReadActive(disk.files) != ReadActive(old(disk.files)) ==> disk.failed >= old(disk.failed) + 2
      ensures old(disk.Calm()) ==> disk.Calm() && disk.failed == old(disk.failed)
    {
      if entry.completionOrder.None? {
        return false;
      }
      var completed := AsCompletedAt(entry, now);
      ok := WriteJournal(completed);
      if ok {
        ok := WriteActive(None);
      }
      if ok {
        CacheLatestCompleted(Some(completed));
        SameCandidate(completed, entry);
      }
    }

    method Abort(entry: Entry) returns (ok: bool)
      requires disk.Valid()
      requires FilesFree(disk.held)
      modifies disk, this`cache
      ensures disk.Valid() && disk.held == old(disk.held) && StillOpen(old(disk.denied), disk.denied)
      ensures var recorded := Recorded(old(disk.files), P.AbortRecord(entry));
              && (disk.files == old(disk.files) || disk.files == recorded || disk.files == Cleared(recorded))
              && (ok ==> disk.files == Cleared(recorded))
      ensures cache == old(cache) || cache == None
      ensures !old(disk.alive) ==> !disk.alive && disk.files == old(disk.files)
      ensures disk.failed >= old(disk.failed) + if ok then 0 else 1
      ensures !ok && ReadActive(disk.files) != ReadActive(old(disk.files)) ==> disk.failed >= old(disk.failed) + 2
      ensures old(disk.Calm()) ==> disk.Calm() && disk.failed == old(disk.failed)
    {
      ok := WriteJournal(P.AbortRecord(entry));
      if ok {
        ok := WriteActive(None);
      }
    }

    /** Archive an entry whose documents are all at `side`, then clear it. */
    method ArchiveRecovered(e: Entry, side: Side, now: Timestamp) returns (ok: bool)
      requires disk.Valid()
      requires FilesFree(disk.held)
      modifies disk, this`cache
      ensures disk.Valid() && disk.held == old(disk.held) && StillOpen(old(disk.denied), disk.denied)
      ensures var recorded := Recorded(old(disk.files), FinalOf(e, side, now));
              && (disk.files == old(disk.files) || disk.files == recorded || disk.files == Cleared(recorded))
              && (ok ==> disk.files == Cleared(recorded))
      ensures old(CacheSound(cache)) && (side == After && ok ==> Cached(disk.files, Some(e))) ==> CacheSound(cache)
      ensures !old(disk.alive) ==> !disk.alive && disk.files == old(disk.files)
      ensures disk.failed >= old(disk.failed) + if ok || (side == After && e.completionOrder.None?) then 0 else 1
      ensures !ok && ReadActive(disk.files) != ReadActive(old(disk.files)) ==> disk.failed >= old(disk.failed) + 2
      ensures old(disk.Calm()) ==> disk.Calm() && disk.failed == old(disk.failed)
    {
      if side == After {
        ok := Complete(e, now);
      } else {
        ok := WriteJournal(P.AsUndone(e));
        if ok {
          ok := WriteActive(None);
        }
      }
    }

    /**
     Bring every document of the entry to one image and archive the entry accordingly, but only if
     each document is at one of the entry's two images to begin with.
     */
    method RecoverJournalEntry(e: Entry, side: Side, lockHeld: bool, now: Timestamp) returns (r: JournalResult)
      requires disk.Valid() && WellFormed(e)
      requires FilesFree(disk.held) && if lockHeld then DocLocks(PathList(e)) <= disk.held else DocLocks(PathList(e)) !! disk.held
      modifies disk, this`cache
      ensures disk.Valid() && disk.held == old(disk.held) && StillOpen(old(disk.denied), disk.denied)
      ensures Advance(old(disk.files), e, side, FinalOf(e, side, now), disk.files)
      ensures r.Done? || r == Refused(JournalConflict)
      ensures r.Done? ==> r.transactionId == e.transactionId && r.documentPaths == PathList(e)
      ensures r.Done? && !r.recoveryPending ==> disk.files == Finished(old(disk.files), e, side, FinalOf(e, side, now))
      ensures r.Done? ==> AtSide(old(disk.files), e, side, FinalOf(e, side, now), disk.files)
      ensures r.Refused? ==> Moving(old(disk.files), e, side, disk.files)
      ensures !AtAnImage(old(disk.files), e) ==> r.Refused? && disk.files == old(disk.files) && disk.failed == old(disk.failed)
      ensures old(CacheSound(cache)) && (side == After && r.Done? && !r.recoveryPending ==> Cached(disk.files, Some(e))) ==> CacheSound(cache)
      ensures !old(disk.alive) ==> !disk.alive && disk.files == old(disk.files)
      ensures disk.failed >= old(disk.failed)
      ensures AtAnImage(old(disk.files), e) && (side == After ==> e.completionOrder.Some?) && !Finishes(r) ==>
                disk.failed > old(disk.failed)
      ensures r.Refused? && disk.files != old(disk.files) ==> disk.failed >= old(disk.failed) + 2
      ensures !Finishes(r) && ReadActive(disk.files) != ReadActive(old(disk.files)) ==> disk.failed >= old(disk.failed) + 2
      ensures old(disk.Calm()) ==> disk.Calm() && disk.failed == old(disk.failed)
    {
      hide Between, Distinct, AllSatisfied, OthersKept, WellFormed, Cached, PlansMove, FirstConflict, Advance, AtSide, Moving;
      hide Overlay, DocLocks, FinalOf, PathList, Targets;
      var plans: seq<Plan<Target, Bytes>> := [];
      for i := 0 to |e.documents|
        invariant |plans| == i
        invariant forall j | 0 <= j < i :: DocumentAtAnImage(disk.files, e.documents[j])
        invariant forall j | 0 <= j < i :: plans[j] == RecoveryPlan(disk.files, e.documents[j], side)
      {
        var document := e.documents[i];
        if !DocumentAtAnImage(disk.files, document) {
          MovingNowhere(disk.files, e, side);
          MovingAdvances(disk.files, e, side, FinalOf(e, side, now), disk.files);
          return Refused(JournalConflict);
        }
        plans := plans + [RecoveryPlan(disk.files, document, side)];
      }
      RecoveryPlansFit(disk.files, e, side, plans);
      PlanLocks(plans, e, side);
      ghost var before := disk.files;
      var written := AtomicWriteAll(disk, plans, lockHeld);
      BetweenMoves(before, plans, e, side, disk.files);
      if !written.Written? {
        MovingAdvances(before, e, side, FinalOf(e, side, now), disk.files);
        return Refused(JournalConflict);
      }
      OverlayMoves(before, plans, e.documents, side);
      var ok := ArchiveRecovered(e, side, now);
      MovedReadsActive(before, e, side);
      AfterMoving(before, e, side, FinalOf(e, side, now), disk.files);
      r := Done(e.transactionId, PathList(e), !ok);
    }

    /** Finish whatever entry a crash or failure left active. */
    method RecoverIncompleteLocked(now: Timestamp) returns (r: JournalResult)
      requires disk.Valid() && now.Instant?
      requires disk.held == {Operation}
      modifies disk, this`cache
      ensures disk.Valid() && disk.held == old(disk.held) && StillOpen(old(disk.denied), disk.denied)
      ensures RecoveryPoint(old(disk.files), now, disk.files)
      ensures r.NothingPending? <==> ReadActive(old(disk.files)) == Idle
      ensures r == Refused(JournalInvalid) <==> ReadActive(old(disk.files)) == InvalidActive
      ensures r.NothingPending? || r.Done? || r == Refused(JournalInvalid) || r == Refused(JournalConflict)
      ensures Finishes(r) ==> ReadActive(disk.files) == Idle && RecoveryDone(old(disk.files), now, disk.files)
      ensures old(Sane()) ==> Sane()
      ensures old(Sane()) && !Finishes(r) ==> disk.failed > old(disk.failed)
      ensures old(Sound()) ==> Sound()
      ensures old(Sound()) && Finishes(r) ==> P.Settled(init, StoreOf(disk.files))
      ensures !old(disk.alive) ==> !disk.alive && disk.files == old(disk.files)
      ensures !ReadActive(old(disk.files)).InProgress? ==> disk.files == old(disk.files) && disk.failed == old(disk.failed)
      ensures disk.failed >= old(disk.failed)
      ensures disk.failed == old(disk.failed) && !Finishes(r) ==> r.Refused? && disk.files == old(disk.files)
      ensures !Finishes(r) && ReadActive(disk.files) == Idle ==> disk.failed >= old(disk.failed) + 2
      ensures r.Done? ==> ReadActive(old(disk.files)).InProgress? && r.transactionId == ReadActive(old(disk.files)).entry.transactionId
                          && r.documentPaths == PathList(ReadActive(old(disk.files)).entry)
      ensures old(disk.Calm()) ==> disk.Calm() && disk.failed == old(disk.failed)
    {
      var active := ReadActive(disk.files);
      if active.InvalidActive? {
        return Refused(JournalInvalid);
      }
      if active.Idle? {
        return NothingPending;
      }
      hide ArchiveReadable, Archived, StoreOf, P.Settled, P.InFlight, CacheSound, Cached, Advance, AtAnImage, Finished;
      hide WellFormed, DocLocks, FilesFree, PathList;
      var e := active.entry;
      ghost var c := disk.files;
      OperationAndDocuments(PathList(e));
      ActiveIsWellFormed(c, e);
      if P.Recoverable(init, StoreOf(c)) {
        O.RecoverableIsRestorable(init, StoreOf(c));
      }
      ghost var restorable := O.Restorable(StoreOf(c));
      if restorable {
        ActiveIsCarried(c, e);
        HashTestPasses(c, e);
        FinishIsCached(c, e, now);
      }
      r := RecoverJournalEntry(e, Toward(e), false, now);
      if restorable {
        RecoveryRestores(c, e, now, disk.files);
      }
      if P.Recoverable(init, StoreOf(c)) {
        RecoveryKeeps(init, c, e, now, disk.files);
      }
    }

    /**
     Move the documents of the active entry to `side`, archive it and clear it. A write that could
     not be rolled back is recovered on the spot; one that was rolled back just clears the entry.
     */
    method CarryActive(active: Entry, side: Side, candidate: Option<Entry>, now: Timestamp)
      returns (r: JournalResult, ghost final: Entry, ghost torn: bool)
      requires disk.Valid() && WellFormed(active) && IsActiveState(active.state)
      requires FilesFree(disk.held) && DocLocks(PathList(active)) <= disk.held
      modifies disk, this`cache
      ensures disk.Valid() && disk.held == old(disk.held) && StillOpen(old(disk.denied), disk.denied)
      ensures final == if torn then FinalOf(active, side, now) else Closing(active, side)
      ensures disk.files == Cleared(old(disk.files)) || Advance(old(disk.files), active, side, final, disk.files)
      ensures r.Done? || r == Refused(JournalConflict) || r.Threw?
      ensures r.Done? ==> r.transactionId == active.transactionId && r.documentPaths == PathList(active)
      ensures r.Done? ==> AtSide(old(disk.files), active, side, final, disk.files)
      ensures r.Done? && !r.recoveryPending ==> disk.files == Finished(old(disk.files), active, side, final)
      ensures r.Refused? || r.Threw? ==> disk.files == Cleared(old(disk.files)) || Moving(old(disk.files), active, side, disk.files)
      ensures old(CacheSound(cache))
                && (r.Done? && !r.recoveryPending ==> Cached(disk.files, candidate) && (side == After ==> Cached(disk.files, Some(active)))) ==>
                CacheSound(cache)
      ensures !old(disk.alive) ==> !disk.alive && disk.files == old(disk.files)
      ensures Finishes(r) && !torn ==> Remembers(cache, disk.files, if candidate.Some? then Some(CandidateOf(candidate.value)) else None)
      ensures r.Refused? && !torn ==> disk.files == Cleared(old(disk.files))
      ensures r.Threw? ==> !torn
      ensures disk.failed >= old(disk.failed)
      ensures AllSatisfied(CarryPlans(active, side), old(disk.files)) ==>
                disk.failed >= old(disk.failed) + Failings(r, torn) + if r.Threw? then 1 else 0
      ensures old(disk.Calm()) ==> disk.Calm() && disk.failed == old(disk.failed)
    {
      hide Between, Distinct, AllSatisfied, OthersKept, WellFormed, Cached, PlansMove, FirstConflict, CarryPlans, AtAnImage;
      ActiveIsOrdered(active);
      final := Closing(active, side);
      torn := false;
      var plans := CarryPlans(active, side);
      CarryPlansFit(disk.files, active, side);
      PlanLocks(plans, active, side);
      var written := AtomicWriteAll(disk, plans, true);
      BetweenMoves(old(disk.files), plans, active, side, disk.files);
      if written == Failed(false) {
        torn := true;
        ghost var mid := disk.files;
        MovingAtAnImage(old(disk.files), active, side, mid);
        r := RecoverJournalEntry(active, side, true, now);
        final := FinalOf(active, side, now);
        AdvanceFromMoving(old(disk.files), active, side, final, mid, disk.files);
        return;
      }
      if !written.Written? {
        MovingNowhere(old(disk.files), active, side);
        var cleared := WriteActive(None);
        r := if cleared then Refused(JournalConflict) else Threw;
        return;
      }
      OverlayMoves(old(disk.files), plans, active.documents, side);
      var ok := WriteJournal(Closing(active, side));
      if ok {
        ok := WriteActive(None);
      }
      if ok {
        CacheLatestCompleted(candidate);
      }
      r := Done(active.transactionId, PathList(active), !ok);
    }

    /** The common body of undo and redo: the documents must be at the other image, then the entry is carried over. */
    method Carry(active: Entry, side: Side, candidate: Option<Entry>, now: Timestamp)
      returns (r: JournalResult, ghost final: Entry, ghost torn: bool)
      requires disk.Valid() && WellFormed(active) && IsActiveState(active.state)
      requires disk.held == {Operation}
      modifies disk, this`cache
      ensures disk.Valid() && disk.held == old(disk.held) && StillOpen(old(disk.denied), disk.denied)
      ensures final == if torn then FinalOf(active, side, now) else Closing(active, side)
      ensures CarryPoint(old(disk.files), active, side, final, disk.files)
      ensures r.Done? || r == Refused(JournalConflict) || r.Threw?
      ensures r.Done? ==> r.transactionId == active.transactionId && r.documentPaths == PathList(active)
      ensures r.Done? ==> AllSatisfied(CarryPlans(active, side), old(disk.files))
      ensures r.Done? ==> AtSide(Activated(old(disk.files), active), active, side, final, disk.files)
      ensures r.Done? && !r.recoveryPending ==> disk.files == Finished(Activated(old(disk.files), active), active, side, final)
      ensures r.Refused? || r.Threw? ==> Untouched(old(disk.files), active, side, disk.files)
      ensures old(CacheSound(cache))
                && (r.Done? && !r.recoveryPending ==> Cached(disk.files, candidate) && (side == After ==> Cached(disk.files, Some(active)))) ==>
                CacheSound(cache)
      ensures !old(disk.alive) ==> !disk.alive && disk.files == old(disk.files)
      ensures !AllSatisfied(CarryPlans(active, side), old(disk.files)) ==> r == Refused(JournalConflict) && disk.files == old(disk.files) && !torn
      // a refusal leaves nothing active, unless the documents were left between their images
      ensures r.Refused? && !torn ==> disk.files == old(disk.files) || disk.files == Cleared(old(disk.files))
      ensures r.Threw? ==> !torn
      ensures ReadActive(old(disk.files)) == Idle && LeavesActive(r, disk.files) ==> disk.failed >= old(disk.failed) + 2
      ensures disk.failed >= old(disk.failed)
      ensures AllSatisfied(CarryPlans(active, side), old(disk.files)) ==> disk.failed >= old(disk.failed) + Failings(r, torn)
      ensures old(disk.Calm()) ==> disk.Calm() && disk.failed == old(disk.failed)
    {
      final := Closing(active, side);
      torn := false;
      hide DocLocks, FilesFree, PathList, LocksOf, AllSatisfied, CarryPlans, PlansMove, Distinct, FirstConflict, WellFormed;
      hide Cached, Advance, AtSide, Moving, Finished;
      hide Images, Closing, CacheSound, CandidateOf, Remembers, StoreOf;
      ghost var locks := DocLocks(PathList(active));
      OperationAndDocuments(PathList(active));
      var locked := disk.Acquire(locks);
      if !locked {
        return Refused(JournalConflict), final, torn;
      }
      CarryPlansFit(old(disk.files), active, side);
      PlanLocks(CarryPlans(active, side), active, side);
      var verified := VerifyPreconditions(disk, CarryPlans(active, side));
      if !verified.Written? {
        var released := disk.Release(locks);
        return Refused(JournalConflict), final, torn;
      }
      var ok := WriteActive(Some(active));
      if ok {
        r, final, torn := CarryActive(active, side, candidate, now);
      } else {
        MovingNowhere(Activated(old(disk.files), active), active, side);
        MovingAdvances(Activated(old(disk.files), active), active, side, final, Activated(old(disk.files), active));
        r := Threw;
      }
      var released := disk.Release(locks);
    }

    method RecoverIncompleteApplies(now: Timestamp) returns (r: JournalResult)
      requires disk.Valid() && now.Instant?
      requires disk.held == {}
      modifies disk, this`cache
      ensures disk.Valid() && disk.held == old(disk.held)
      ensures disk.files == old(disk.files) || RecoveryPoint(old(disk.files), now, disk.files)
      ensures old(Sane()) ==> Sane()
      ensures old(Sane()) && !Finishes(r) ==> disk.failed > old(disk.failed)
      ensures disk.failed >= old(disk.failed)
      ensures disk.failed == old(disk.failed) && !Finishes(r) ==> r.Refused? && disk.files == old(disk.files)
      ensures Operation !in old(disk.denied) ==> (r == Refused(InProgressElsewhere) <==> Operation in disk.denied)
      ensures r == Refused(InProgressElsewhere) ==> disk.files == old(disk.files) && disk.failed > old(disk.failed)
      ensures r != Refused(InProgressElsewhere) ==>
                && (r.NothingPending? <==> ReadActive(old(disk.files)) == Idle)
                && (r == Refused(JournalInvalid) <==> ReadActive(old(disk.files)) == InvalidActive)
      ensures old(disk.Calm()) ==> disk.Calm() && disk.failed == old(disk.failed)
      ensures old(Sound()) ==> Sound()
      ensures old(Sound()) && Finishes(r) ==> P.Settled(init, StoreOf(disk.files))
      ensures Finishes(r) ==> ReadActive(disk.files) == Idle && RecoveryDone(old(disk.files), now, disk.files)
      ensures !old(disk.alive) ==> !disk.alive && disk.files == old(disk.files)
    {
      var locked := disk.Acquire({Operation});
      if !locked {
        return Refused(InProgressElsewhere);
      }
      r := RecoverIncompleteLocked(now);
      var released := disk.Release({Operation});
    }

    method UndoEntry(e: Entry, entries: seq<Entry>, now: Timestamp) returns (r: JournalResult, ghost torn: bool)
      requires disk.Valid() && now.Instant? && ReadActive(disk.files) == Idle && ArchiveReadable(disk.files)
      requires Lists(entries, Archived(disk.files)) && P.IsLatestCompleted(Archived(disk.files), e)
      requires disk.held == {Operation}
      modifies disk, this`cache
      ensures disk.Valid() && disk.held == old(disk.held) && StillOpen(old(disk.denied), disk.denied)
      ensures CarryPoint(old(disk.files), P.AsUndoing(e), Before, P.AsUndone(e), disk.files)
      ensures r.Done? ==> r.transactionId == e.transactionId && UndoneTo(old(disk.files), e, r.recoveryPending, disk.files)
      ensures old(Sane()) ==> Sane()
      ensures old(P.Settled(init, StoreOf(disk.files)) && CacheSound(cache)) ==> Sound()
      ensures old(P.Settled(init, StoreOf(disk.files))) && r.Done? && !r.recoveryPending ==> P.Settled(init, StoreOf(disk.files))
      ensures !AllSatisfied(CarryPlans(P.AsUndoing(e), Before), old(disk.files)) ==> r == Refused(JournalConflict) && disk.files == old(disk.files)
      ensures r.Done? || r == Refused(JournalConflict) || r.Threw?
      ensures r.Done? ==> r.documentPaths == PathList(e)
      ensures r.Refused? && !torn ==> disk.files == old(disk.files) || disk.files == Cleared(old(disk.files))
      ensures LeavesActive(r, disk.files) ==> disk.failed >= old(disk.failed) + 2
      ensures torn ==> disk.failed >= old(disk.failed) + if Finishes(r) then 2 else 3
      ensures disk.failed >= old(disk.failed)
      ensures AllSatisfied(CarryPlans(P.AsUndoing(e), Before), old(disk.files)) ==> disk.failed >= old(disk.failed) + Failings(r, torn)
      ensures old(disk.Calm()) ==> disk.Calm() && disk.failed == old(disk.failed)
      ensures !old(disk.alive) ==> !disk.alive && disk.files == old(disk.files)
    {
      hide ArchiveReadable, Archived, ReadActive, StoreOf, P.Settled, P.Recoverable, CacheSound, Cached, P.IsLatestCompleted, Lists;
      hide AllSatisfied, CarryPlans, WellFormed, CarryPoint, Advance, AtSide, Finished, Activated, Cleared, Moving;
      var nextLatest := LatestCompleted(Filter(entries, e.transactionId));
      ghost var c := disk.files;
      hide O.Restorable;
      ghost var settled := P.Settled(init, StoreOf(c));
      LatestIsLogged(c, e);
      if settled {
        SettledIsRestorable(init, c);
        UndoKeeps(init, c, e);
      }
      ghost var restorable := O.Restorable(StoreOf(c));
      if restorable {
        NextLatestIsCached(c, e, entries);
      }
      UndoingWellFormed(e);
      ghost var final;
      r, final, torn := Carry(P.AsUndoing(e), Before, nextLatest, now);
      if restorable && AllSatisfied(CarryPlans(P.AsUndoing(e), Before), c) {
        UndoRestores(c, e, disk.files);
      }
      if settled {
        UndoPointSound(init, c, e, disk.files);
      }
    }

    /** Undo with recovery out of the way. */
    method UndoLatest(now: Timestamp) returns (r: JournalResult, ghost torn: bool)
      requires disk.Valid() && now.Instant? && ReadActive(disk.files) == Idle
      requires disk.held == {Operation}
      modifies disk, this`cache
      ensures disk.Valid() && disk.held == old(disk.held) && StillOpen(old(disk.denied), disk.denied)
      ensures UndoPoint(old(disk.files), disk.files)
      ensures r.Done? ==> UndoDone(old(disk.files), r.transactionId, r.recoveryPending, disk.files)
      ensures old(Sane()) ==> Sane()
      ensures old(P.Settled(init, StoreOf(disk.files)) && CacheSound(cache)) ==>
                Sound() && (r.Done? && !r.recoveryPending ==> P.Settled(init, StoreOf(disk.files)))
      ensures r.Done? || r.Refused? || r.Threw?
      ensures r != Refused(InProgressElsewhere) && r != Refused(StillPending)
      ensures r.Done? ==> NamesDocuments(old(disk.files), r.transactionId, r.documentPaths)
      ensures r.Refused? ==> UndoRefuses(old(disk.files), r.reason) || (r == Refused(JournalConflict) && disk.failed > old(disk.failed))
      ensures r.Refused? && !torn ==> disk.files == old(disk.files) || disk.files == Cleared(old(disk.files))
      ensures LeavesActive(r, disk.files) ==> disk.failed >= old(disk.failed) + 2
      ensures torn ==> disk.failed >= old(disk.failed) + if Finishes(r) then 2 else 3
      ensures disk.failed >= old(disk.failed)
      ensures r.Threw? || (r.Done? && r.recoveryPending) ==> disk.failed > old(disk.failed)
      ensures disk.failed == old(disk.failed) && r.Refused? ==> disk.files == old(disk.files)
      ensures old(OrdersKnown(disk.files) && CanUndo(disk.files)) && !Finishes(r) ==> disk.failed > old(disk.failed)
      ensures old(disk.Calm()) ==> disk.Calm() && disk.failed == old(disk.failed)
      ensures old(OrdersKnown(disk.files) && !CanUndo(disk.files)) ==> r.Refused? && disk.files == old(disk.files)
      ensures !old(disk.alive) ==> !disk.alive && disk.files == old(disk.files)
    {
      hide Archived, ReadActive, StoreOf, P.Settled, P.Recoverable, CacheSound, O.Restorable, P.IsLatestCompleted;
      hide AllSatisfied, CarryPlans, WellFormed, CarryPoint, UndoRefuses, NamesDocuments, PathList, Cleared;
      torn := false;
      UndoFindsNothing(disk.files);
      SettledIsSound(init, disk.files);
      var readable, entries := ReadJournals();
      if !readable {
        return Refused(JournalInvalid), torn;
      }
      LatestCompletedIsNewest(entries, Archived(disk.files));
      ArchiveIsNamed(disk.files);
      var latest := LatestCompleted(entries);
      if latest.None? {
        return Refused(JournalNotFound), torn;
      }
      LatestUnique(disk.files, latest.value);
      LatestAnswers(disk.files, latest.value);
      r, torn := UndoEntry(latest.value, entries, now);
    }

    /** Recover what is pending, then carry the newest completed entry back. `mid` is the store between the two. */
    method UndoLastApply(now: Timestamp)
      returns (r: JournalResult, ghost mid: Files, ghost torn: bool)
      requires disk.Valid() && now.Instant?
      requires disk.held == {}
      modifies disk, this`cache
      ensures disk.Valid() && disk.held == old(disk.held)
      ensures mid == old(disk.files) || RecoveryPoint(old(disk.files), now, mid)
      ensures UndoPoint(mid, disk.files)
      ensures r.Done? ==> UndoDone(mid, r.transactionId, r.recoveryPending, disk.files)
      ensures old(Sane()) ==> Sane()
      ensures old(Sound()) ==> Sound()
      ensures old(Sound()) && r.Done? && !r.recoveryPending ==> P.Settled(init, StoreOf(disk.files))
      ensures old(Sound()) && disk.failed == old(disk.failed) ==> P.Settled(init, StoreOf(mid))
      ensures UndoAvailability(old(disk.files)) == RecoveryPending || mid == old(disk.files)
      ensures old(Sane()) && disk.failed == old(disk.failed) ==> RecoveryDone(old(disk.files), now, mid) && ReadActive(mid) == Idle
      ensures old(Sane()) && disk.failed == old(disk.failed) ==> (Finishes(r) <==> UndoAvailability(mid) == Available)
      ensures old(Sane()) && UndoAvailability(mid) == Unavailable ==> r.Refused? && disk.files == mid
      ensures ReadActive(mid) == InvalidActive || (ReadActive(mid) == Idle && !ArchiveReadable(mid)) ==> r.Refused? && disk.files == mid
      // the answer
      ensures r.Done? || r.Refused? || r.Threw?
      ensures r.Done? ==> RecoveryDone(old(disk.files), now, mid) && NamesDocuments(mid, r.transactionId, r.documentPaths)
      ensures r.Refused? ==>
                UndoRefuses(mid, r.reason) || (disk.failed > old(disk.failed) && r.reason != JournalInvalid && r.reason != JournalNotFound)
      ensures Operation !in old(disk.denied) ==> (r == Refused(InProgressElsewhere) <==> Operation in disk.denied)
      ensures r == Refused(InProgressElsewhere) ==> disk.files == mid == old(disk.files) && disk.failed == old(disk.failed) + 1
      ensures r == Refused(StillPending) ==> ReadActive(old(disk.files)).InProgress? && disk.failed > old(disk.failed)
      // a refusal leaves nothing of this call behind, unless the documents could not be put back
      ensures r.Refused? && !torn ==> disk.files == mid || disk.files == Cleared(mid)
      ensures ReadActive(mid) == Idle && LeavesActive(r, disk.files) ==> disk.failed >= old(disk.failed) + 2
      ensures torn ==> disk.failed >= old(disk.failed) + if Finishes(r) then 2 else 3
      ensures !Finishes(r) && !r.Refused? ==> disk.failed > old(disk.failed)
      ensures disk.failed >= old(disk.failed)
      ensures !old(disk.alive) ==> !disk.alive && disk.files == old(disk.files)
      ensures old(disk.Calm()) ==> disk.Calm() && disk.failed == old(disk.failed)
    {
      hide ArchiveReadable, Archived, DocsOf, ReadActive, ReadSequence, StoreOf, P.Settled, P.InFlight, O.Restorable;
      hide RecoveryPoint, UndoPoint, UndoDone, CacheSound, CanUndo, OrdersKnown, RecoveryDone, UndoRefuses, NamesDocuments;
      torn := false;
      mid := disk.files;
      UndoNothing(mid);
      var locked := disk.Acquire({Operation});
      if !locked {
        return Refused(InProgressElsewhere), mid, torn;
      }
      var recovered := RecoverIncompleteLocked(now);
      mid := disk.files;
      ActiveRefuses(mid);
      if !Finishes(recovered) {
        UndoNothing(mid);
        r := if recovered.Refused? then recovered else Refused(StillPending);
        var released := disk.Release({Operation});
        return;
      }
      SaneKnowsOrders();
      UnreadableOffersNothing(mid);
      r, torn := UndoLatest(now);
      var released := disk.Release({Operation});
    }

    method RedoEntry(e: Entry, now: Timestamp) returns (r: JournalResult, ghost final: Entry, ghost torn: bool)
      requires disk.Valid() && now.Instant? && ReadActive(disk.files) == Idle && ArchiveReadable(disk.files)
      requires P.IsNextRedo(Archived(disk.files), e)
      requires disk.held == {Operation}
      modifies disk, this`cache
      ensures disk.Valid() && disk.held == old(disk.held) && StillOpen(old(disk.denied), disk.denied)
      ensures final == if torn then FinalOf(P.AsRedoing(e), After, now) else Closing(P.AsRedoing(e), After)
      ensures CarryPoint(old(disk.files), P.AsRedoing(e), After, final, disk.files)
      ensures r.Done? ==> r.transactionId == e.transactionId && RedoneTo(old(disk.files), e, final, r.recoveryPending, disk.files)
      ensures !AllSatisfied(CarryPlans(P.AsRedoing(e), After), old(disk.files)) ==> r == Refused(JournalConflict) && disk.files == old(disk.files)
      ensures old(Sane()) ==> Sane()
      ensures old(P.Settled(init, StoreOf(disk.files)) && CacheSound(cache)) ==> Sound()
      ensures old(P.Settled(init, StoreOf(disk.files))) && r.Done? && !r.recoveryPending ==> P.Settled(init, StoreOf(disk.files))
      ensures r.Done? || r == Refused(JournalConflict) || r.Threw?
      ensures r.Done? ==> r.documentPaths == PathList(e)
      ensures r.Refused? && !torn ==> disk.files == old(disk.files) || disk.files == Cleared(old(disk.files))
      ensures LeavesActive(r, disk.files) ==> disk.failed >= old(disk.failed) + 2
      ensures torn ==> disk.failed >= old(disk.failed) + if Finishes(r) then 2 else 3
      ensures disk.failed >= old(disk.failed)
      ensures AllSatisfied(CarryPlans(P.AsRedoing(e), After), old(disk.files)) ==> disk.failed >= old(disk.failed) + Failings(r, torn)
      ensures old(disk.Calm()) ==> disk.Calm() && disk.failed == old(disk.failed)
      ensures !old(disk.alive) ==> !disk.alive && disk.files == old(disk.files)
    {
      ghost var c := disk.files;
      ArchiveIsNamed(c);
      RedoingWellFormed(e);
      ghost var active := P.AsRedoing(e);
      ghost var startable := P.Settled(init, StoreOf(c)) && AllSatisfied(CarryPlans(active, After), c);
      if P.Settled(init, StoreOf(c)) {
        SettledIsRestorable(init, c);
      }
      if startable {
        RedoKeeps(init, c, e, now);
      }
      RedoFinals(e, now);
      ghost var restorable := O.Restorable(StoreOf(c));
      if restorable {
        RedoIsCached(c, e, Closing(active, After));
        RedoIsCached(c, e, FinalOf(active, After, now));
      }
      hide ArchiveReadable, Archived, ReadActive, StoreOf, P.Settled, P.Recoverable, CacheSound, Cached, P.IsNextRedo;
      hide AllSatisfied, CarryPlans, WellFormed, CarryPoint, Advance, AtSide, Finished, Activated, Cleared, Moving, P.Names, O.Restorable;
      r, final, torn := Carry(P.AsRedoing(e), After, Some(e), now);
      if restorable && AllSatisfied(CarryPlans(active, After), c) {
        RedoRestores(c, e, final, disk.files);
      }
      if startable {
        CarrySound(init, c, active, After, final, disk.files);
      }
    }

    /** Redo with recovery out of the way. */
    method RedoNext(now: Timestamp) returns (r: JournalResult, ghost final: Entry, ghost torn: bool)
      requires disk.Valid() && now.Instant? && ReadActive(disk.files) == Idle
      requires disk.held == {Operation}
      modifies disk, this`cache
      ensures disk.Valid() && disk.held == old(disk.held) && StillOpen(old(disk.denied), disk.denied)
      ensures RedoPoint(old(disk.files), now, final, disk.files)
      ensures r.Done? ==> RedoDone(old(disk.files), r.transactionId, final, r.recoveryPending, disk.files)
      ensures old(Sane()) ==> Sane()
      ensures old(P.Settled(init, StoreOf(disk.files)) && CacheSound(cache)) ==> Sound()
      ensures old(P.Settled(init, StoreOf(disk.files))) && r.Done? && !r.recoveryPending ==> P.Settled(init, StoreOf(disk.files))
      ensures r.Done? || r.Refused? || r.Threw?
      ensures r != Refused(InProgressElsewhere) && r != Refused(StillPending)
      ensures r.Done? && !torn ==> KeepsItsTime(old(disk.files), r.transactionId, final)
      ensures r.Done? ==> NamesDocuments(old(disk.files), r.transactionId, r.documentPaths)
      ensures r.Refused? ==> RedoRefuses(old(disk.files), r.reason) || (r == Refused(JournalConflict) && disk.failed > old(disk.failed))
      ensures r.Refused? && !torn ==> disk.files == old(disk.files) || disk.files == Cleared(old(disk.files))
      ensures LeavesActive(r, disk.files) ==> disk.failed >= old(disk.failed) + 2
      ensures torn ==> disk.failed >= old(disk.failed) + if Finishes(r) then 2 else 3
      ensures disk.failed >= old(disk.failed)
      ensures r.Threw? || (r.Done? && r.recoveryPending) ==> disk.failed > old(disk.failed)
      ensures disk.failed == old(disk.failed) && r.Refused? ==> disk.files == old(disk.files)
      ensures old(OrdersKnown(disk.files) && CanRedo(disk.files)) && !Finishes(r) ==> disk.failed > old(disk.failed)
      ensures old(disk.Calm()) ==> disk.Calm() && disk.failed == old(disk.failed)
      ensures old(OrdersKnown(disk.files) && !CanRedo(disk.files)) ==> r.Refused? && disk.files == old(disk.files)
      ensures !old(disk.alive) ==> !disk.alive && disk.files == old(disk.files)
    {
      hide Archived, ReadActive, StoreOf, P.Settled, P.Recoverable, CacheSound, O.Restorable, P.IsNextRedo;
      hide AllSatisfied, CarryPlans, WellFormed, CarryPoint, RedoRefuses, NamesDocuments, KeepsItsTime, PathList, Cleared, P.Names;
      hide OrdersKnown, P.DistinctIds, RedoneTo, P.Redoable, FinalOf;
      RedoFindsNothing(disk.files);
      SettledIsSound(init, disk.files);
      final := Entry("", NotADate, Aborted, None, None, []);
      torn := false;
      var readable, entries := ReadJournals();
      if !readable {
        return Refused(JournalInvalid), final, torn;
      }
      ArchiveIsNamed(disk.files);
      NextRedoIsNext(entries, Archived(disk.files));
      var next := NextRedo(entries);
      if next.None? {
        return Refused(JournalNotFound), final, torn;
      }
      ghost var c := disk.files;
      NextRedoUnique(c, next.value);
      NextRedoAnswers(c, next.value);
      r, final, torn := RedoEntry(next.value, now);
    }

    /** Recover what is pending, then carry the redo candidate forward. `mid` is the store between the two. */
    method RedoLastApply(now: Timestamp)
      returns (r: JournalResult, ghost mid: Files, ghost final: Entry, ghost torn: bool)
      requires disk.Valid() && now.Instant?
      requires disk.held == {}
      modifies disk, this`cache
      ensures disk.Valid() && disk.held == old(disk.held)
      ensures mid == old(disk.files) || RecoveryPoint(old(disk.files), now, mid)
      ensures RedoPoint(mid, now, final, disk.files)
      ensures r.Done? ==> RedoDone(mid, r.transactionId, final, r.recoveryPending, disk.files)
      ensures old(Sane()) ==> Sane()
      ensures old(Sound()) ==> Sound()
      ensures old(Sound()) && r.Done? && !r.recoveryPending ==> P.Settled(init, StoreOf(disk.files))
      ensures old(Sound()) && disk.failed == old(disk.failed) ==> P.Settled(init, StoreOf(mid))
      ensures RedoAvailability(old(disk.files)) == RecoveryPending || mid == old(disk.files)
      ensures old(Sane()) && disk.failed == old(disk.failed) ==> RecoveryDone(old(disk.files), now, mid) && ReadActive(mid) == Idle
      ensures old(Sane()) && disk.failed == old(disk.failed) ==> (Finishes(r) <==> RedoAvailability(mid) == Available)
      ensures old(Sane()) && RedoAvailability(mid) == Unavailable ==> r.Refused? && disk.files == mid
      ensures ReadActive(mid) == InvalidActive || (ReadActive(mid) == Idle && !ArchiveReadable(mid)) ==> r.Refused? && disk.files == mid
      // the answer
      ensures r.Done? || r.Refused? || r.Threw?
      ensures r.Done? && !torn ==> KeepsItsTime(mid, r.transactionId, final)
      ensures r.Done? ==> RecoveryDone(old(disk.files), now, mid) && NamesDocuments(mid, r.transactionId, r.documentPaths)
      ensures r.Refused? ==>
                RedoRefuses(mid, r.reason) || (disk.failed > old(disk.failed) && r.reason != JournalInvalid && r.reason != JournalNotFound)
      ensures Operation !in old(disk.denied) ==> (r == Refused(InProgressElsewhere) <==> Operation in disk.denied)
      ensures r == Refused(InProgressElsewhere) ==> disk.files == mid == old(disk.files) && disk.failed == old(disk.failed) + 1
      ensures r == Refused(StillPending) ==> ReadActive(old(disk.files)).InProgress? && disk.failed > old(disk.failed)
      // a refusal leaves nothing of this call behind, unless the documents could not be put back
      ensures r.Refused? && !torn ==> disk.files == mid || disk.files == Cleared(mid)
      ensures ReadActive(mid) == Idle && LeavesActive(r, disk.files) ==> disk.failed >= old(disk.failed) + 2
      ensures torn ==> disk.failed >= old(disk.failed) + if Finishes(r) then 2 else 3
      ensures !Finishes(r) && !r.Refused? ==> disk.failed > old(disk.failed)
      ensures disk.failed >= old(disk.failed)
      ensures !old(disk.alive) ==> !disk.alive && disk.files == old(disk.files)
      ensures old(disk.Calm()) ==> disk.Calm() && disk.failed == old(disk.failed)
    {
      hide ArchiveReadable, Archived, DocsOf, ReadActive, ReadSequence, StoreOf, P.Settled, P.InFlight, O.Restorable;
      hide RecoveryPoint, RedoPoint, RedoDone, CacheSound, CanRedo, OrdersKnown, RecoveryDone, RedoRefuses, NamesDocuments;
      hide KeepsItsTime, FinalOf;
      torn := false;
      mid := disk.files;
      final := Entry("", NotADate, Aborted, None, None, []);
      RedoNothing(mid, now, final);
      var locked := disk.Acquire({Operation});
      if !locked {
        return Refused(InProgressElsewhere), mid, final, torn;
      }
      var recovered := RecoverIncompleteLocked(now);
      mid := disk.files;
      ActiveRefuses(mid);
      if !Finishes(recovered) {
        RedoNothing(mid, now, final);
        r := if recovered.Refused? then recovered else Refused(StillPending);
        var released := disk.Release({Operation});
        return;
      }
      SaneKnowsOrders();
      UnreadableOffersNothing(mid);
      r, final, torn := RedoNext(now);
      var released := disk.Release({Operation});
    }
  }

  /** A new process opens what the last one left, wherever that one died: nothing is cached yet. */
  method Reopen(last: Journal, schedule: seq<Fault>) returns (journal: Journal)
    modifies last.disk`schedule, last.disk`alive, last.disk`held
    ensures fresh(journal) && journal.disk == last.disk && journal.init == last.init && journal.cache == None
    ensures last.disk.alive && last.disk.schedule == schedule && last.disk.held == {}
    ensures old(last.Sane()) ==> journal.Sane()
    ensures old(last.Sound()) ==> journal.Sound()
  {
    last.disk.Restart(schedule);
    journal := new Journal(last.disk, last.init);
  }

  // ---- planned documents -------------------------------------------------------------------

  datatype PlannedDocument = PlannedDocument(documentPath: string, before: Text, after: Text)

  function ChangeOf(d: PlannedDocument): DocumentChange {
    DocumentChange(d.documentPath, d.before, HashText(d.before), d.after, HashText(d.after))
  }

  /** Parsed documents under distinct names, as apply plans them. */
  predicate Plannable(documents: seq<PlannedDocument>) {
    && (forall i | 0 <= i < |documents| :: documents[i].documentPath != "" && documents[i].before.Document? && documents[i].after.Document?)
    && (forall i, j | 0 <= i < j < |documents| :: documents[i].documentPath != documents[j].documentPath)
  }

  /** `e` is the well-formed entry that starts an apply of these documents from `c`. */
  ghost predicate StartsFrom(c: Files, documents: seq<PlannedDocument>, transactionId: string, e: Entry) {
    && ReadActive(c) == Idle
    && WellFormed(e) && e.state == Prepared && e.transactionId == transactionId
    && |e.documents| == |documents|
    && (forall i | 0 <= i < |documents| :: e.documents[i] == ChangeOf(documents[i]))
    && P.Reserves(StoreOf(c), Order(e))
  }

  /** `entry` is what a scan of the archive would find newest. */
  ghost predicate Cached(c: Files, entry: Option<Entry>) {
    && ArchiveReadable(c)
    && match entry
       case Some(x) => exists e :: P.IsLatestCompleted(Archived(c), e) && CandidateOf(e) == CandidateOf(x)
       case None => P.CompletedLog(Archived(c)) == {}
  }

  // ---- recovery ----------------------------------------------------------------------------

  function PathList(e: Entry): seq<string> {
    seq(|e.documents|, i requires 0 <= i < |e.documents| => e.documents[i].documentPath)
  }

  function AsCompletedAt(e: Entry, now: Timestamp): Entry { e.(state := Completed, completedAt := Some(now)) }

  /** The archive record a recovery writes once the documents are at `side`. */
  function FinalOf(e: Entry, side: Side, now: Timestamp): Entry {
    if side == After then AsCompletedAt(e, now) else P.AsUndone(e)
  }

  predicate DocumentAtAnImage(c: Files, change: DocumentChange) {
    && Doc(change.documentPath) in c
    && (ContentHash(c[Doc(change.documentPath)]) == change.beforeHash || ContentHash(c[Doc(change.documentPath)]) == change.afterHash)
  }

  predicate AtAnImage(c: Files, e: Entry) {
    forall i | 0 <= i < |e.documents| :: DocumentAtAnImage(c, e.documents[i])
  }

  /** All documents of the entry are at `side`, whatever of the journal has been written. */
  ghost predicate AtSide(c: Files, e: Entry, side: Side, final: Entry, c': Files) {
    c' == Moved(c, e, side) || c' == Recorded(Moved(c, e, side), final) || c' == Finished(c, e, side, final)
  }

  function RecoveryPlan(c: Files, change: DocumentChange, side: Side): Plan<Target, Bytes>
    requires Doc(change.documentPath) in c
  {
    Plan(Doc(change.documentPath), DocumentText(if side == Before then change.before else change.after),
         Some(ContentHash(c[Doc(change.documentPath)])), false)
  }

  lemma PlanLocks(plans: seq<Plan<Target, Bytes>>, e: Entry, side: Side)
    requires PlansMove(plans, e.documents, side)
    ensures LocksOf(plans) == DocLocks(PathList(e))
  {
    var paths := PathList(e);
    assert forall i | 0 <= i < |plans| :: plans[i].path == Doc(paths[i]);
    forall l | l in DocLocks(paths) ensures l in LocksOf(plans) {
      var i :| 0 <= i < |paths| && l == Of(Doc(paths[i]));
      assert l == Of(plans[i].path);
    }
  }

  lemma MovingNowhere(c: Files, e: Entry, side: Side)
    ensures Moving(c, e, side, c)
  {
  }

  lemma RecoveryPlansFit(c: Files, e: Entry, side: Side, plans: seq<Plan<Target, Bytes>>)
    requires WellFormed(e) && |plans| == |e.documents| && AtAnImage(c, e)
    requires forall j | 0 <= j < |plans| :: plans[j] == RecoveryPlan(c, e.documents[j], side)
    ensures PlansMove(plans, e.documents, side) && Distinct(plans) && AllSatisfied(plans, c)
  {
    assert forall j | 0 <= j < |plans| :: DocumentAtAnImage(c, e.documents[j]);
  }

  /** A prepared or redoing entry is carried forward, an undoing one back. */
  function Toward(e: Entry): Side { if e.state == Undoing then Before else After }

  ghost predicate RecoveryPoint(c: Files, now: Timestamp, c': Files) {
    match ReadActive(c)
    case InProgress(e) => Advance(c, e, Toward(e), FinalOf(e, Toward(e), now), c')
    case _ => c' == c
  }

  /** Where a recovery that finishes leaves the files. */
  ghost predicate RecoveryDone(c: Files, now: Timestamp, c': Files) {
    match ReadActive(c)
    case InProgress(e) => c' == Finished(c, e, Toward(e), FinalOf(e, Toward(e), now))
    case _ => c' == c
  }

  predicate Finishes(r: JournalResult) {
    r.NothingPending? || (r.Done? && !r.recoveryPending)
  }

  lemma FinalNames(e: Entry, now: Timestamp)
    requires WellFormed(e) && IsActiveState(e.state) && now.Instant?
    ensures P.Names(FinalOf(e, Toward(e), now), e, Toward(e))
  {
  }

  lemma ActiveIsWellFormed(c: Files, e: Entry)
    requires ReadActive(c) == InProgress(e)
    ensures WellFormed(e) && IsActiveState(e.state)
  {
  }

  lemma ActiveIsCarried(c: Files, e: Entry)
    requires O.Restorable(StoreOf(c)) && ReadActive(c) == InProgress(e)
    ensures O.Carried(StoreOf(c), e) && O.AtImages(DocsOf(c), e)
  {
  }

  /** The hash test passes exactly if every document is there and wholly at one of the entry's two images. */
  lemma HashTestMeans(c: Files, e: Entry)
    requires WellFormed(e)
    ensures AtAnImage(c, e) <==>
            forall i | 0 <= i < |e.documents| ::
              && Doc(e.documents[i].documentPath) in c
              && c[Doc(e.documents[i].documentPath)] in {DocCell(e.documents[i].before), DocCell(e.documents[i].after)}
  {
    forall i | 0 <= i < |e.documents|
      ensures DocumentAtAnImage(c, e.documents[i]) <==>
              && Doc(e.documents[i].documentPath) in c
              && c[Doc(e.documents[i].documentPath)] in {DocCell(e.documents[i].before), DocCell(e.documents[i].after)}
    {
      assert WellFormedChange(e.documents[i]);
    }
  }

  /** With its documents at its images, whatever a crash left of an entry, recovery never refuses it. */
  lemma HashTestPasses(c: Files, e: Entry)
    requires WellFormed(e) && O.AtImages(DocsOf(c), e)
    ensures AtAnImage(c, e)
  {
    ImagesOfAt(e.documents, Before);
    ImagesOfAt(e.documents, After);
    forall i | 0 <= i < |e.documents| ensures DocumentAtAnImage(c, e.documents[i]) {
      var change := e.documents[i];
      var p := change.documentPath;
      assert p in Images(e, Before) && p in DocsOf(c) && DocsOf(c)[p] == c[Doc(p)];
      assert WellFormedChange(change);
    }
  }

  /** Every point of a recovery can be recovered from, whatever the other documents hold. */
  lemma RecoveryRestores(c: Files, e: Entry, now: Timestamp, c': Files)
    requires O.Restorable(StoreOf(c)) && ReadActive(c) == InProgress(e) && now.Instant?
    requires Advance(c, e, Toward(e), FinalOf(e, Toward(e), now), c')
    ensures O.Restorable(StoreOf(c'))
  {
    hide ArchiveReadable, Archived, DocsOf, ReadActive, ReadSequence, WellFormed, Finished, P.Finished;
    hide Advance, P.Advance, O.AtImages, O.Topmost, P.NumberedLog, P.Names;
    ActiveIsWellFormed(c, e);
    ActiveIsCarried(c, e);
    ReadableStore(c);
    FinalNames(e, now);
    AdvanceView(c, e, Toward(e), FinalOf(e, Toward(e), now), c');
    O.AdvanceIsOrderly(StoreOf(c), e, Toward(e), FinalOf(e, Toward(e), now), StoreOf(c'));
  }

  lemma ReadableStore(c: Files)
    ensures StoreOf(c).readable == ArchiveReadable(c)
  {
  }

  lemma RecoveryKeeps(init: Docs, c: Files, e: Entry, now: Timestamp, c': Files)
    requires P.InFlight(init, StoreOf(c), e) && now.Instant? && IsActiveState(e.state)
    requires Advance(c, e, Toward(e), FinalOf(e, Toward(e), now), c')
    ensures P.Recoverable(init, StoreOf(c'))
    ensures c' == Finished(c, e, Toward(e), FinalOf(e, Toward(e), now)) ==> P.Settled(init, StoreOf(c'))
  {
    FinalNames(e, now);
    AdvanceView(c, e, Toward(e), FinalOf(e, Toward(e), now), c');
    P.AdvanceKeeps(init, StoreOf(c), e, Toward(e), FinalOf(e, Toward(e), now), StoreOf(c'));
    FinishedView(c, e, Toward(e), FinalOf(e, Toward(e), now));
  }

  lemma SameCandidate(e: Entry, x: Entry)
    requires e.completionOrder == x.completionOrder && e.documents == x.documents
    ensures CandidateOf(e) == CandidateOf(x)
  {
  }

  lemma LatestIsCached(c: Files, e: Entry, x: Entry)
    requires StoreOf(c).readable && P.IsLatestCompleted(StoreOf(c).log, e)
    requires e.completionOrder == x.completionOrder && e.documents == x.documents
    ensures Cached(c, Some(x))
  {
    SameCandidate(e, x);
  }

  /** An entry carried forward is on top of the log, so it is the next undo candidate. */
  lemma CarriedIsCached(c: Files, e: Entry, final: Entry)
    requires O.Carried(StoreOf(c), e) && P.Names(final, e, After)
    ensures Cached(Finished(c, e, After, final), Some(e))
  {
    hide Finished, P.Finished, ArchiveReadable, Archived, DocsOf, ReadActive, ReadSequence, Cached, P.IsLatestCompleted, CandidateOf;
    ReadableStore(c);
    FinishedView(c, e, After, final);
    O.FinishedIsLatest(StoreOf(c), e, final);
    FinishedReadable(StoreOf(c), e, After, final);
    LatestIsCached(Finished(c, e, After, final), final, e);
  }

  lemma FinishIsCached(c: Files, e: Entry, now: Timestamp)
    requires O.Carried(StoreOf(c), e) && WellFormed(e) && now.Instant? && IsActiveState(e.state)
    ensures Toward(e) == After ==> Cached(Finished(c, e, After, FinalOf(e, After, now)), Some(e))
  {
    hide Finished, Cached, O.Carried, WellFormed;
    if Toward(e) == After {
      FinalNames(e, now);
      CarriedIsCached(c, e, FinalOf(e, After, now));
    }
  }

  lemma FinishedReadable(s: P.Store, e: Entry, side: Side, final: Entry)
    ensures P.Finished(s, e, side, final).readable == s.readable
  {
  }

  lemma ActiveIsOrdered(e: Entry)
    requires WellFormed(e) && IsActiveState(e.state)
    ensures e.completionOrder.Some?
  {
  }

  lemma MovingAdvances(c: Files, e: Entry, side: Side, final: Entry, c': Files)
    requires Moving(c, e, side, c')
    ensures Advance(c, e, side, final, c')
  {
  }

  lemma AfterMoving(c: Files, e: Entry, side: Side, final: Entry, c': Files)
    requires var m := Moved(c, e, side); c' == m || c' == Recorded(m, final) || c' == Cleared(Recorded(m, final))
    ensures Advance(c, e, side, final, c') && AtSide(c, e, side, final, c')
  {
    forall t ensures SameAt(c, Moved(c, e, side), t) || MovedTo(e, side, Moved(c, e, side), t) {
      MovedAt(c, Images(e, side), t);
    }
  }

  lemma MovedReadsActive(c: Files, e: Entry, side: Side)
    ensures ReadActive(Moved(c, e, side)) == ReadActive(c)
  {
    MovedAt(c, Images(e, side), Active);
  }

  // ---- undo and redo -----------------------------------------------------------------------

  /** How many steps must not have happened for the active entry to be left so; `torn` when its documents could not be put back. */
  function Failings(r: JournalResult, torn: bool): nat {
    match r
    case Done(_, _, recoveryPending) => (if torn then 2 else 0) + (if recoveryPending then 1 else 0)
    case Refused(_) => if torn then 3 else 1
    case Threw => 1
    case NothingPending => 0
  }

  /** An answer other than success, with an entry still active. */
  predicate LeavesActive(r: JournalResult, c: Files) {
    !r.Done? && ReadActive(c) != Idle
  }

  /** The documents named are those of the archived entry of this id. */
  ghost predicate NamesDocuments(c: Files, id: string, paths: seq<string>) {
    ArchiveReadable(c) && exists e :: e in Archived(c) && e.transactionId == id && paths == PathList(e)
  }

  /** The record a redo writes, unless a recovery wrote it: completed, at the time it first was. */
  ghost predicate KeepsItsTime(c: Files, id: string, final: Entry) {
    ArchiveReadable(c) && exists e :: P.IsNextRedo(Archived(c), e) && e.transactionId == id && final == P.AsCompleted(e)
  }

  /** Why undo refuses a store, when no step fails. */
  ghost predicate UndoRefuses(c: Files, reason: Refusal) {
    match ReadActive(c)
    case InvalidActive => reason == JournalInvalid
    case InProgress(_) => reason == JournalConflict
    case Idle =>
      if !ArchiveReadable(c) then reason == JournalInvalid
      else if P.CompletedLog(Archived(c)) == {} then reason == JournalNotFound
      else reason == JournalConflict && exists e :: P.IsLatestCompleted(Archived(c), e) && !AllSatisfied(CarryPlans(P.AsUndoing(e), Before), c)
  }

  ghost predicate RedoRefuses(c: Files, reason: Refusal) {
    match ReadActive(c)
    case InvalidActive => reason == JournalInvalid
    case InProgress(_) => reason == JournalConflict
    case Idle =>
      if !ArchiveReadable(c) then reason == JournalInvalid
      else if forall e :: !P.IsNextRedo(Archived(c), e) then reason == JournalNotFound
      else reason == JournalConflict && exists e :: P.IsNextRedo(Archived(c), e) && !AllSatisfied(CarryPlans(P.AsRedoing(e), After), c)
  }

  lemma SettledIsSound(init: Docs, c: Files)
    ensures P.Settled(init, StoreOf(c)) ==> P.Recoverable(init, StoreOf(c)) && O.Restorable(StoreOf(c))
  {
    if P.Settled(init, StoreOf(c)) {
      O.RecoverableIsRestorable(init, StoreOf(c));
    }
  }

  lemma ActiveRefuses(c: Files)
    ensures ReadActive(c) == InvalidActive ==> UndoRefuses(c, JournalInvalid) && RedoRefuses(c, JournalInvalid)
    ensures ReadActive(c).InProgress? ==> UndoRefuses(c, JournalConflict) && RedoRefuses(c, JournalConflict)
  {
  }

  lemma UndoFindsNothing(c: Files)
    requires ReadActive(c) == Idle
    ensures !ArchiveReadable(c) ==> UndoRefuses(c, JournalInvalid)
    ensures ArchiveReadable(c) && P.CompletedLog(Archived(c)) == {} ==> UndoRefuses(c, JournalNotFound) && !CanUndo(c)
  {
  }

  lemma LatestAnswers(c: Files, e: Entry)
    requires ArchiveReadable(c) && ReadActive(c) == Idle && P.IsLatestCompleted(Archived(c), e)
    ensures !AllSatisfied(CarryPlans(P.AsUndoing(e), Before), c) ==> UndoRefuses(c, JournalConflict)
    ensures NamesDocuments(c, e.transactionId, PathList(e))
  {
  }

  lemma RedoFindsNothing(c: Files)
    requires ReadActive(c) == Idle
    ensures !ArchiveReadable(c) ==> RedoRefuses(c, JournalInvalid)
    ensures ArchiveReadable(c) && (forall e :: !P.IsNextRedo(Archived(c), e)) ==> RedoRefuses(c, JournalNotFound) && !CanRedo(c)
  {
  }

  lemma NextRedoAnswers(c: Files, e: Entry)
    requires ArchiveReadable(c) && ReadActive(c) == Idle && P.IsNextRedo(Archived(c), e)
    ensures !AllSatisfied(CarryPlans(P.AsRedoing(e), After), c) ==> RedoRefuses(c, JournalConflict)
    ensures NamesDocuments(c, e.transactionId, PathList(e))
    ensures KeepsItsTime(c, e.transactionId, Closing(P.AsRedoing(e), After))
  {
    assert Closing(P.AsRedoing(e), After) == P.AsCompleted(e);
  }

  /** While its documents are being moved, each of them is at one of the entry's images. */
  lemma MovingAtAnImage(c: Files, e: Entry, side: Side, mid: Files)
    requires WellFormed(e) && Moving(c, e, side, mid)
    ensures AllSatisfied(CarryPlans(e, side), c) ==> AtAnImage(mid, e)
  {
    ImagesOfAt(e.documents, side);
    if AllSatisfied(CarryPlans(e, side), c) {
      forall i | 0 <= i < |e.documents| ensures DocumentAtAnImage(mid, e.documents[i]) {
        var t := Doc(e.documents[i].documentPath);
        assert Satisfied(CarryPlans(e, side)[i], c) && WellFormedChange(e.documents[i]);
        assert SameAt(c, mid, t) || MovedTo(e, side, mid, t);
      }
    }
  }

  /** The archive record undo and redo themselves write. */
  function Closing(active: Entry, side: Side): Entry {
    if side == After then P.AsCompleted(active) else P.AsUndone(active)
  }

  predicate IsFinal(final: Entry, active: Entry, side: Side, now: Timestamp) {
    final == Closing(active, side) || final == FinalOf(active, side, now)
  }

  function CarryPlan(change: DocumentChange, side: Side): Plan<Target, Bytes> {
    if side == After then Plan(Doc(change.documentPath), DocumentText(change.after), Some(change.beforeHash), false)
    else Plan(Doc(change.documentPath), DocumentText(change.before), Some(change.afterHash), false)
  }

  function CarryPlans(e: Entry, side: Side): seq<Plan<Target, Bytes>> { PlansFor(e.documents, side) }

  function PlansFor(documents: seq<DocumentChange>, side: Side): seq<Plan<Target, Bytes>> {
    seq(|documents|, i requires 0 <= i < |documents| => CarryPlan(documents[i], side))
  }

  /** Where carrying an entry over may stop. */
  ghost predicate CarryPoint(c: Files, active: Entry, side: Side, final: Entry, c': Files) {
    c' == c || c' == Cleared(Activated(c, active)) || Advance(Activated(c, active), active, side, final, c')
  }

  /** Where it may stop without an answer of success: no journal record changed hands. */
  ghost predicate Untouched(c: Files, active: Entry, side: Side, c': Files) {
    c' == c || c' == Cleared(Activated(c, active)) || Moving(Activated(c, active), active, side, c')
  }

  lemma CarryPlansFit(c: Files, active: Entry, side: Side)
    requires WellFormed(active)
    ensures PlansMove(CarryPlans(active, side), active.documents, side) && Distinct(CarryPlans(active, side))
    ensures AllSatisfied(CarryPlans(active, side), Activated(c, active)) == AllSatisfied(CarryPlans(active, side), c)
  {
    var plans := CarryPlans(active, side);
    assert forall i | 0 <= i < |plans| :: Satisfied(plans[i], Activated(c, active)) == Satisfied(plans[i], c);
  }

  /** Recovery that starts from a half-moved entry goes through the same states. */
  lemma AdvanceFromMoving(a: Files, e: Entry, side: Side, final: Entry, mid: Files, c': Files)
    requires Moving(a, e, side, mid) && Advance(mid, e, side, final, c')
    ensures Moved(mid, e, side) == Moved(a, e, side)
    ensures Advance(a, e, side, final, c')
    ensures Moving(mid, e, side, c') ==> Moving(a, e, side, c')
  {
    forall t ensures SameAt(Moved(a, e, side), Moved(mid, e, side), t) {
      assert SameAt(a, mid, t) || MovedTo(e, side, mid, t);
      MovedAt(a, Images(e, side), t);
      MovedAt(mid, Images(e, side), t);
    }
    SameEverywhere(Moved(a, e, side), Moved(mid, e, side));
    if Moving(mid, e, side, c') {
      forall t ensures SameAt(a, c', t) || MovedTo(e, side, c', t) {
        assert SameAt(a, mid, t) || MovedTo(e, side, mid, t);
        assert SameAt(mid, c', t) || MovedTo(e, side, c', t);
      }
    }
  }

  /** The entries of other transactions, in order. */
  function Filter(entries: seq<Entry>, id: string): (r: seq<Entry>)
    ensures forall e :: e in r <==> e in entries && e.transactionId != id
  {
    if entries == [] then []
    else if entries[0].transactionId == id then Filter(entries[1..], id)
    else [entries[0]] + Filter(entries[1..], id)
  }

  ghost predicate UndoPoint(c: Files, c': Files) {
    || c' == c
    || (ArchiveReadable(c) && ReadActive(c) == Idle &&
        exists e :: P.IsLatestCompleted(Archived(c), e) && AllSatisfied(CarryPlans(P.AsUndoing(e), Before), c)
                    && CarryPoint(c, P.AsUndoing(e), Before, P.AsUndone(e), c'))
  }

  lemma UndoNothing(c: Files)
    ensures UndoPoint(c, c)
  {
  }

  /** The newest completed entry's documents are at their before-images; unless recovery is pending, it is archived undone. */
  ghost predicate UndoDone(c: Files, id: string, pending: bool, c': Files) {
    && ArchiveReadable(c)
    && exists e :: P.IsLatestCompleted(Archived(c), e) && e.transactionId == id && UndoneTo(c, e, pending, c')
  }

  ghost predicate UndoneTo(c: Files, e: Entry, pending: bool, c': Files) {
    && AllSatisfied(CarryPlans(P.AsUndoing(e), Before), c)
    && AtSide(Activated(c, P.AsUndoing(e)), P.AsUndoing(e), Before, P.AsUndone(e), c')
    && (!pending ==> c' == Finished(Activated(c, P.AsUndoing(e)), P.AsUndoing(e), Before, P.AsUndone(e)))
  }

  lemma CarryPlansSatisfied(c: Files, e: Entry, side: Side)
    requires WellFormed(e)
    requires Agrees(DocsOf(c), Images(e, if side == Before then After else Before))
    ensures AllSatisfied(CarryPlans(e, side), c)
  {
    var from := if side == Before then After else Before;
    ImagesOfAt(e.documents, from);
    var plans := CarryPlans(e, side);
    forall i | 0 <= i < |plans| ensures Satisfied(plans[i], c) {
      var p := e.documents[i].documentPath;
      assert p in Images(e, from) && p in DocsOf(c) && DocsOf(c)[p] == c[Doc(p)];
      assert WellFormedChange(e.documents[i]);
    }
  }

  lemma LatestIsLogged(c: Files, e: Entry)
    requires ArchiveReadable(c) && P.IsLatestCompleted(Archived(c), e)
    ensures WellFormed(e) && e.state == Completed && P.IsLatestCompleted(StoreOf(c).log, e)
  {
    ArchiveIsNamed(c);
  }

  lemma UndoingWellFormed(e: Entry)
    requires WellFormed(e) && e.state == Completed
    ensures WellFormed(P.AsUndoing(e))
  {
  }

  lemma UndoKeeps(init: Docs, c: Files, e: Entry)
    requires P.Settled(init, StoreOf(c)) && P.IsLatestCompleted(StoreOf(c).log, e) && WellFormed(e)
    ensures P.InFlight(init, StoreOf(Activated(c, P.AsUndoing(e))), P.AsUndoing(e))
    ensures P.Names(P.AsUndone(e), P.AsUndoing(e), Before)
    ensures AllSatisfied(CarryPlans(P.AsUndoing(e), Before), c)
  {
    P.UndoingStarts(init, StoreOf(c), e);
    ActivatedView(c, P.AsUndoing(e));
    CarryPlansSatisfied(c, P.AsUndoing(e), Before);
  }

  lemma ClearedAgain(init: Docs, c: Files, e: Entry)
    requires P.Settled(init, StoreOf(c)) && WellFormed(e) && IsActiveState(e.state)
    ensures P.Settled(init, StoreOf(Cleared(Activated(c, e))))
  {
    ActivatedView(c, e);
    ClearedView(Activated(c, e));
  }

  lemma InFlightParts(init: Docs, c: Files, e: Entry, side: Side, final: Entry)
    requires P.InFlight(init, StoreOf(c), e) && P.Names(final, e, side)
    ensures ArchiveReadable(c) && WellFormed(final) && !IsActiveState(final.state)
  {
  }

  lemma CarrySound(init: Docs, c: Files, active: Entry, side: Side, final: Entry, c': Files)
    requires P.Settled(init, StoreOf(c)) && WellFormed(active) && IsActiveState(active.state)
    requires P.InFlight(init, StoreOf(Activated(c, active)), active) && P.Names(final, active, side)
    requires CarryPoint(c, active, side, final, c')
    ensures P.Recoverable(init, StoreOf(c'))
    ensures c' == Finished(Activated(c, active), active, side, final) ==> P.Settled(init, StoreOf(c'))
  {
    hide ArchiveReadable, Archived, DocsOf, ReadSequence, ReadActive, WellFormed, P.Settled, P.InFlight, P.Advance;
    hide P.Finished, Finished, P.Names, Advance;
    var a := Activated(c, active);
    InFlightParts(init, a, active, side, final);
    if Advance(a, active, side, final, c') {
      AdvanceView(a, active, side, final, c');
      FinishedView(a, active, side, final);
      P.AdvanceKeeps(init, StoreOf(a), active, side, final, StoreOf(c'));
    } else if c' == Cleared(a) {
      ClearedAgain(init, c, active);
    }
  }

  lemma UndoPointSound(init: Docs, c: Files, e: Entry, c': Files)
    requires P.Settled(init, StoreOf(c)) && P.IsLatestCompleted(StoreOf(c).log, e) && WellFormed(e)
    requires CarryPoint(c, P.AsUndoing(e), Before, P.AsUndone(e), c')
    ensures P.Recoverable(init, StoreOf(c'))
    ensures c' == Finished(Activated(c, P.AsUndoing(e)), P.AsUndoing(e), Before, P.AsUndone(e)) ==> P.Settled(init, StoreOf(c'))
  {
    UndoKeeps(init, c, e);
    CarrySound(init, c, P.AsUndoing(e), Before, P.AsUndone(e), c');
  }

  lemma LatestOfOthers(log: set<Entry>, e: Entry, side: Side, entries: seq<Entry>)
    requires Lists(entries, log)
    ensures var rest := P.Others(log, e.transactionId) + {P.AsUndone(P.AsUndoing(e))};
            var r := LatestCompleted(Filter(entries, e.transactionId));
            if r.Some? then P.IsLatestCompleted(rest, r.value) else P.CompletedLog(rest) == {}
  {
    var others := P.Others(log, e.transactionId);
    LatestCompletedIsNewest(Filter(entries, e.transactionId), others);
    assert P.CompletedLog(others + {P.AsUndone(P.AsUndoing(e))}) == P.CompletedLog(others);
  }

  lemma NextLatestIsCached(c: Files, e: Entry, entries: seq<Entry>)
    requires O.Restorable(StoreOf(c)) && ReadActive(c) == Idle && ArchiveReadable(c)
    requires P.IsLatestCompleted(StoreOf(c).log, e) && WellFormed(e) && Lists(entries, Archived(c))
    ensures Cached(Finished(Activated(c, P.AsUndoing(e)), P.AsUndoing(e), Before, P.AsUndone(e)),
                   LatestCompleted(Filter(entries, e.transactionId)))
  {
    hide Finished, Activated, ArchiveReadable, Archived, DocsOf, ReadActive, ReadSequence, Cached, P.IsLatestCompleted;
    hide LatestCompleted, Filter, CandidateOf;
    var a, active, final := Activated(c, P.AsUndoing(e)), P.AsUndoing(e), P.AsUndone(e);
    O.UndoingIsOrderly(StoreOf(c), e);
    ActivatedView(c, active);
    ReadableStore(a);
    FinishedView(a, active, Before, final);
    LatestOfOthers(StoreOf(c).log, e, Before, entries);
    var r := LatestCompleted(Filter(entries, e.transactionId));
    if r.Some? {
      LatestIsCached(Finished(a, active, Before, final), r.value, r.value);
    } else {
      NoneIsCached(Finished(a, active, Before, final));
    }
  }

  lemma SettledIsRestorable(init: Docs, c: Files)
    requires P.Settled(init, StoreOf(c))
    ensures O.Restorable(StoreOf(c))
  {
    O.RecoverableIsRestorable(init, StoreOf(c));
  }

  /** Wherever undo or redo stops, the journal is in order. */
  lemma CarryRestores(c: Files, active: Entry, side: Side, final: Entry, c': Files)
    requires O.Restorable(StoreOf(c)) && ReadActive(c) == Idle && WellFormed(active) && IsActiveState(active.state)
    requires O.Carried(P.Activated(StoreOf(c), active), active) && P.Names(final, active, side)
    requires AllSatisfied(CarryPlans(active, side), c) && CarryPoint(c, active, side, final, c')
    ensures O.Restorable(StoreOf(c'))
  {
    hide ArchiveReadable, Archived, DocsOf, ReadSequence, ReadActive, WellFormed, P.Advance, P.Finished, Finished, P.Names;
    hide Advance, AllSatisfied, CarryPlans;
    hide Activated, Cleared, O.Topmost, O.AtImages, P.NumberedLog, Agrees;
    var a := Activated(c, active);
    ActivatedView(c, active);
    ReadableStore(a);
    if Advance(a, active, side, final, c') {
      AdvanceView(a, active, side, final, c');
      CarryPlansAgree(c, active, side);
      O.AgreeingIsAtImages(DocsOf(c), active, if side == Before then After else Before);
      O.AdvanceIsOrderly(StoreOf(a), active, side, final, StoreOf(c'));
    } else if c' == Cleared(a) {
      ClearedView(a);
    }
  }

  lemma UndoRestores(c: Files, e: Entry, c': Files)
    requires O.Restorable(StoreOf(c)) && ReadActive(c) == Idle && P.IsLatestCompleted(StoreOf(c).log, e) && WellFormed(e)
    requires AllSatisfied(CarryPlans(P.AsUndoing(e), Before), c) && CarryPoint(c, P.AsUndoing(e), Before, P.AsUndone(e), c')
    ensures O.Restorable(StoreOf(c'))
  {
    hide CarryPoint, AllSatisfied, StoreOf, ReadActive;
    RestorableIdle(c);
    O.UndoingIsOrderly(StoreOf(c), e);
    CarryRestores(c, P.AsUndoing(e), Before, P.AsUndone(e), c');
  }

  lemma RestorableIdle(c: Files)
    requires O.Restorable(StoreOf(c)) && ReadActive(c) == Idle
    ensures O.Orderly(StoreOf(c)) && StoreOf(c).active == Idle
  {
  }

  lemma RedoRestores(c: Files, e: Entry, final: Entry, c': Files)
    requires O.Restorable(StoreOf(c)) && ReadActive(c) == Idle && P.IsNextRedo(StoreOf(c).log, e) && WellFormed(e)
    requires P.Names(final, P.AsRedoing(e), After)
    requires AllSatisfied(CarryPlans(P.AsRedoing(e), After), c) && CarryPoint(c, P.AsRedoing(e), After, final, c')
    ensures O.Restorable(StoreOf(c'))
  {
    hide CarryPoint, AllSatisfied, StoreOf, ReadActive, P.Names;
    RestorableIdle(c);
    O.RedoingIsOrderly(StoreOf(c), e);
    CarryRestores(c, P.AsRedoing(e), After, final, c');
  }

  /** A redo's archive record keeps the entry's completion time, or takes the time of the recovery that finished it. */
  lemma RedoFinals(e: Entry, now: Timestamp)
    requires WellFormed(e) && e.state == Undone && now.Instant?
    ensures P.Names(Closing(P.AsRedoing(e), After), P.AsRedoing(e), After)
    ensures P.Names(FinalOf(P.AsRedoing(e), After, now), P.AsRedoing(e), After)
  {
  }

  lemma OrdersOfRestorable(c: Files)
    requires O.Restorable(StoreOf(c)) && ReadActive(c) == Idle
    ensures ArchiveReadable(c) && OrdersKnown(c)
  {
  }

  lemma UnreadableOffersNothing(c: Files)
    ensures !ArchiveReadable(c) ==> !CanUndo(c) && !CanRedo(c) && OrdersKnown(c)
  {
  }

  lemma NoneIsCached(c: Files)
    requires StoreOf(c).readable && P.CompletedLog(StoreOf(c).log) == {}
    ensures Cached(c, None)
  {
  }

  /** The archive is readable and no two of its entries share an order. */
  ghost predicate OrdersKnown(c: Files) {
    ArchiveReadable(c) ==> DistinctOrders(P.Ordered(Archived(c)))
  }

  /** The newest completed entry's documents are at its after-images. */
  ghost predicate CanUndo(c: Files) {
    && ArchiveReadable(c)
    && exists e :: P.IsLatestCompleted(Archived(c), e) && AllSatisfied(CarryPlans(P.AsUndoing(e), Before), c)
  }

  lemma LatestUnique(c: Files, e: Entry)
    requires ArchiveReadable(c) && P.IsLatestCompleted(Archived(c), e)
    ensures OrdersKnown(c) ==> forall x | P.IsLatestCompleted(Archived(c), x) :: x == e
  {
    ArchiveIsNamed(c);
    if OrdersKnown(c) {
      forall x | P.IsLatestCompleted(Archived(c), x) ensures x == e {
        assert x in P.Ordered(Archived(c)) && e in P.Ordered(Archived(c));
      }
    }
  }

  datatype Availability = Available | Unavailable | RecoveryPending

  /** What a user may be offered, by a scan of the whole store. */
  ghost function UndoAvailability(c: Files): Availability {
    match ReadActive(c)
    case InvalidActive => Unavailable
    case InProgress(_) => RecoveryPending
    case Idle => if CanUndo(c) then Available else Unavailable
  }

  ghost function RedoAvailability(c: Files): Availability {
    match ReadActive(c)
    case InvalidActive => Unavailable
    case InProgress(_) => RecoveryPending
    case Idle => if CanRedo(c) then Available else Unavailable
  }

  /** In a settled store undo has its documents where it needs them whenever anything is completed. */
  lemma SettledCanUndo(init: Docs, c: Files)
    requires P.Settled(init, StoreOf(c)) && P.CompletedLog(Archived(c)) != {}
    ensures CanUndo(c) && OrdersKnown(c)
  {
    ArchiveIsNamed(c);
    var e := Latest(P.CompletedLog(Archived(c)));
    assert P.IsLatestCompleted(Archived(c), e);
    UndoKeeps(init, c, e);
  }

  /** The redo candidate's documents are at its before-images. */
  ghost predicate CanRedo(c: Files) {
    && ArchiveReadable(c)
    && exists e :: P.IsNextRedo(Archived(c), e) && AllSatisfied(CarryPlans(P.AsRedoing(e), After), c)
  }

  ghost predicate RedoPoint(c: Files, now: Timestamp, final: Entry, c': Files) {
    || c' == c
    || (ArchiveReadable(c) && ReadActive(c) == Idle &&
        exists e :: P.IsNextRedo(Archived(c), e) && IsFinal(final, P.AsRedoing(e), After, now)
                    && AllSatisfied(CarryPlans(P.AsRedoing(e), After), c) && CarryPoint(c, P.AsRedoing(e), After, final, c'))
  }

  lemma RedoNothing(c: Files, now: Timestamp, final: Entry)
    ensures RedoPoint(c, now, final, c)
  {
  }

  /** The redo candidate's documents are at their after-images; unless recovery is pending, it is archived completed. */
  ghost predicate RedoDone(c: Files, id: string, final: Entry, pending: bool, c': Files) {
    && ArchiveReadable(c)
    && exists e :: P.IsNextRedo(Archived(c), e) && e.transactionId == id && RedoneTo(c, e, final, pending, c')
  }

  ghost predicate RedoneTo(c: Files, e: Entry, final: Entry, pending: bool, c': Files) {
    && P.Names(final, P.AsRedoing(e), After)
    && AllSatisfied(CarryPlans(P.AsRedoing(e), After), c)
    && AtSide(Activated(c, P.AsRedoing(e)), P.AsRedoing(e), After, final, c')
    && (!pending ==> c' == Finished(Activated(c, P.AsRedoing(e)), P.AsRedoing(e), After, final))
  }

  lemma RedoingWellFormed(e: Entry)
    requires WellFormed(e) && e.state == Undone
    ensures WellFormed(P.AsRedoing(e))
  {
  }

  lemma NextRedoUnique(c: Files, e: Entry)
    requires ArchiveReadable(c) && P.IsNextRedo(Archived(c), e)
    ensures OrdersKnown(c) ==> forall x | P.IsNextRedo(Archived(c), x) :: x == e
  {
    ArchiveIsNamed(c);
    if OrdersKnown(c) {
      forall x | P.IsNextRedo(Archived(c), x) ensures x == e {
        assert x in P.Ordered(Archived(c)) && e in P.Ordered(Archived(c));
      }
    }
  }

  lemma CarryPlansAgree(c: Files, e: Entry, side: Side)
    requires WellFormed(e) && AllSatisfied(CarryPlans(e, side), c)
    ensures Agrees(DocsOf(c), Images(e, if side == Before then After else Before))
  {
    var from := if side == Before then After else Before;
    ImagesOfAt(e.documents, from);
    var plans := CarryPlans(e, side);
    forall p | p in Images(e, from) ensures p in DocsOf(c) && DocsOf(c)[p] == Images(e, from)[p] {
      var i :| 0 <= i < |e.documents| && e.documents[i].documentPath == p;
      assert Satisfied(plans[i], c) && WellFormedChange(e.documents[i]);
    }
  }

  lemma RedoKeeps(init: Docs, c: Files, e: Entry, now: Timestamp)
    requires P.Settled(init, StoreOf(c)) && P.IsNextRedo(StoreOf(c).log, e) && WellFormed(e) && now.Instant?
    requires AllSatisfied(CarryPlans(P.AsRedoing(e), After), c)
    ensures P.InFlight(init, StoreOf(Activated(c, P.AsRedoing(e))), P.AsRedoing(e))
    ensures P.Names(Closing(P.AsRedoing(e), After), P.AsRedoing(e), After)
    ensures P.Names(FinalOf(P.AsRedoing(e), After, now), P.AsRedoing(e), After)
  {
    CarryPlansAgree(c, P.AsRedoing(e), After);
    P.RedoingStarts(init, StoreOf(c), e);
    ActivatedView(c, P.AsRedoing(e));
  }

  lemma RedoIsCached(c: Files, e: Entry, final: Entry)
    requires O.Restorable(StoreOf(c)) && ReadActive(c) == Idle && P.IsNextRedo(StoreOf(c).log, e) && WellFormed(e)
    requires P.Names(final, P.AsRedoing(e), After)
    ensures Cached(Finished(Activated(c, P.AsRedoing(e)), P.AsRedoing(e), After, final), Some(e))
    ensures Cached(Finished(Activated(c, P.AsRedoing(e)), P.AsRedoing(e), After, final), Some(P.AsRedoing(e)))
  {
    hide Finished, Activated, StoreOf, ReadActive, O.Carried, O.Orderly, O.Restorable, P.Names;
    RestorableIdle(c);
    O.RedoingIsOrderly(StoreOf(c), e);
    RedoingWellFormed(e);
    ActivatedView(c, P.AsRedoing(e));
    CarriedIsCached(Activated(c, P.AsRedoing(e)), P.AsRedoing(e), final);
    CachedAlike(Finished(Activated(c, P.AsRedoing(e)), P.AsRedoing(e), After, final), P.AsRedoing(e), e);
  }

  lemma CachedAlike(c: Files, x: Entry, y: Entry)
    requires Cached(c, Some(x)) && x.completionOrder == y.completionOrder && x.documents == y.documents
    ensures Cached(c, Some(y))
  {
    SameCandidate(x, y);
  }
}
