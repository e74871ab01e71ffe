/** What undo and redo may be offered as, and the cache that spares the offer a scan of the archive. */
module JournalAvailability {
  import opened Common
  import opened DurableDisk
  import opened AtomicWrite
  import opened JournalModel
  import opened JournalFiles
  import opened ApplyJournal
  import O = JournalOrder
  import P = JournalProtocol

  /** Every document named exists and has the hash given for it. */
  predicate AllAt(c: Files, documents: seq<CandidateDocument>) {
    forall i | 0 <= i < |documents| ::
      Doc(documents[i].documentPath) in c && ContentHash(c[Doc(documents[i].documentPath)]) == documents[i].afterHash
  }

  predicate AllBefore(c: Files, documents: seq<DocumentChange>) {
    forall i | 0 <= i < |documents| ::
      Doc(documents[i].documentPath) in c && ContentHash(c[Doc(documents[i].documentPath)]) == documents[i].beforeHash
  }

  lemma AllAtIsSatisfied(c: Files, e: Entry)
    ensures AllAt(c, CandidateOf(e).documents) <==> AllSatisfied(CarryPlans(P.AsUndoing(e), Before), c)
  {
    var plans, documents := CarryPlans(P.AsUndoing(e), Before), CandidateOf(e).documents;
    forall i | 0 <= i < |documents|
      ensures Satisfied(plans[i], c) <==>
        Doc(documents[i].documentPath) in c && ContentHash(c[Doc(documents[i].documentPath)]) == documents[i].afterHash
    {
    }
  }

  lemma AllBeforeIsSatisfied(c: Files, e: Entry)
    ensures AllBefore(c, e.documents) <==> AllSatisfied(CarryPlans(P.AsRedoing(e), After), c)
  {
    var plans := CarryPlans(P.AsRedoing(e), After);
    forall i | 0 <= i < |e.documents|
      ensures Satisfied(plans[i], c) <==>
        Doc(e.documents[i].documentPath) in c && ContentHash(c[Doc(e.documents[i].documentPath)]) == e.documents[i].beforeHash
    {
    }
  }

  /** The cache decides exactly what a scan of the archive would. */
  lemma CandidateDecidesUndo(c: Files, candidate: Option<Candidate>)
    requires ArchiveReadable(c) && OrdersKnown(c) && IsUndoCandidate(Archived(c), candidate)
    ensures CanUndo(c) <==> candidate.Some? && AllAt(c, candidate.value.documents)
  {
    if candidate.Some? {
      var e :| P.IsLatestCompleted(Archived(c), e) && candidate.value == CandidateOf(e);
      LatestUnique(c, e);
      AllAtIsSatisfied(c, e);
    }
  }

  /** The undo candidate, from the cache when no archive file has changed since it was taken. */
  method ReadLatestCompleted(journal: Journal) returns (readable: bool, entry: Option<Candidate>)
    requires CacheSound(journal.cache)
    modifies journal`cache
    ensures CacheSound(journal.cache)
    ensures readable == ArchiveReadable(journal.disk.files)
    ensures readable ==> IsUndoCandidate(Archived(journal.disk.files), entry) && Remembers(journal.cache, journal.disk.files, entry)
  {
    var c := journal.disk.files;
    var signature := Signature(c);
    SignatureView(c);
    if journal.cache.Some? && journal.cache.value.signature == signature {
      return true, journal.cache.value.entry;
    }
    var entries;
    readable, entries := journal.ReadJournals();
    if !readable {
      return false, None;
    }
    LatestCompletedIsNewest(entries, Archived(c));
    var latest := LatestCompleted(entries);
    journal.CacheLatestCompleted(latest);
    entry := if latest.Some? then Some(CandidateOf(latest.value)) else None;
  }

  /** A store in any state the journal's operations and direct edits can leave is offered for what it is. */
  method OfferUndo(journal: Journal) returns (r: Availability)
    requires CacheSound(journal.cache)
    modifies journal`cache
    ensures CacheSound(journal.cache)
    ensures old(journal.Sane()) ==> journal.Sane()
    ensures old(journal.Sane()) || ReadActive(journal.disk.files) != Idle || !ArchiveReadable(journal.disk.files) ==>
              r == UndoAvailability(journal.disk.files)
  {
    var c := journal.disk.files;
    if O.Restorable(StoreOf(c)) && ReadActive(c) == Idle {
      OrdersOfRestorable(c);
    }
    UnreadableOffersNothing(c);
    match ReadActive(c)
    case InvalidActive => r := Unavailable;
    case InProgress(_) => r := RecoveryPending;
    case Idle =>
      var readable, entry := ReadLatestCompleted(journal);
      if readable && OrdersKnown(c) {
        CandidateDecidesUndo(c, entry);
      }
      r := if readable && entry.Some? && AllAt(c, entry.value.documents) then Available else Unavailable;
  }

  method OfferRedo(journal: Journal) returns (r: Availability)
    ensures journal.Sane() || ReadActive(journal.disk.files) != Idle || !ArchiveReadable(journal.disk.files) ==>
              r == RedoAvailability(journal.disk.files)
  {
    var c := journal.disk.files;
    if O.Restorable(StoreOf(c)) && ReadActive(c) == Idle {
      OrdersOfRestorable(c);
    }
    UnreadableOffersNothing(c);
    match ReadActive(c)
    case InvalidActive => r := Unavailable;
    case InProgress(_) => r := RecoveryPending;
    case Idle =>
      var readable, entries := journal.ReadJournals();
      if !readable {
        return Unavailable;
      }
      ArchiveIsNamed(c);
      NextRedoIsNext(entries, Archived(c));
      var next := NextRedo(entries);
      if next.None? {
        return Unavailable;
      }
      NextRedoUnique(c, next.value);
      AllBeforeIsSatisfied(c, next.value);
      r := if AllBefore(c, next.value.documents) then Available else Unavailable;
  }
}
