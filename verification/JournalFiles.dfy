/** The journal's steps as they show in the files, and the store they are read back as. */
module JournalFiles {
  import opened Common
  import opened DurableDisk
  import opened AtomicWrite
  import opened JournalModel
  import P = JournalProtocol

  ghost function StoreOf(c: Files): P.Store {
    P.Store(ReadActive(c), ArchiveReadable(c), if ArchiveReadable(c) then Archived(c) else {}, ReadSequence(c), DocsOf(c))
  }

  // ---- single-file writes ------------------------------------------------------------------

  function ActiveBytes(entry: Option<Entry>): Bytes {
    match entry case Some(e) => SerializeJournal(e) case None => NullText
  }

  function Activated(c: Files, e: Entry): Files { c[Active := Whole(SerializeJournal(e))] }

  function Cleared(c: Files): Files { c[Active := Whole(NullText)] }

  function Recorded(c: Files, e: Entry): Files { c[Archive(e.transactionId) := Whole(SerializeJournal(e))] }

  function Sequenced(c: Files, value: int): Files { c[Sequence := Whole(SequenceText(value))] }

  lemma NonDocKept(c: Files, t: Target, cell: Cell<Bytes>)
    requires !t.Doc?
    ensures DocsOf(c[t := cell]) == DocsOf(c)
    ensures t != Active ==> ReadActive(c[t := cell]) == ReadActive(c)
    ensures t != Sequence ==> ReadSequence(c[t := cell]) == ReadSequence(c)
  {
    assert forall u | u != t :: u in c[t := cell] <==> u in c;
  }

  lemma NonArchiveKept(c: Files, t: Target, cell: Cell<Bytes>)
    requires !t.Archive?
    ensures ArchiveReadable(c[t := cell]) == ArchiveReadable(c)
    ensures ArchiveReadable(c) ==> Archived(c[t := cell]) == Archived(c)
  {
    var c' := c[t := cell];
    assert forall u | u != t :: u in c' <==> u in c;
    assert forall u | u in c && u.Archive? :: u in c' && ReadArchived(c', u.id) == ReadArchived(c, u.id);
    if ArchiveReadable(c') {
      assert forall u | u in c && u.Archive? :: ReadArchived(c', u.id).Some?;
    }
  }

  lemma ActivatedView(c: Files, e: Entry)
    requires WellFormed(e) && IsActiveState(e.state)
    ensures StoreOf(Activated(c, e)) == P.Activated(StoreOf(c), e)
  {
    NonDocKept(c, Active, Whole(SerializeJournal(e)));
    NonArchiveKept(c, Active, Whole(SerializeJournal(e)));
  }

  lemma ClearedView(c: Files)
    ensures StoreOf(Cleared(c)) == P.Cleared(StoreOf(c))
  {
    NonDocKept(c, Active, Whole(NullText));
    NonArchiveKept(c, Active, Whole(NullText));
  }

  lemma SequencedView(c: Files, value: int)
    requires 0 <= value <= MAX_SAFE_INTEGER
    ensures StoreOf(Sequenced(c, value)) == P.Reserved(StoreOf(c), value)
  {
    NonDocKept(c, Sequence, Whole(SequenceText(value)));
    NonArchiveKept(c, Sequence, Whole(SequenceText(value)));
  }

  /** An entry is archived exactly when the record under its own name reads back as it. */
  lemma ArchivedUnderItsName(c: Files, x: Entry)
    requires ArchiveReadable(c)
    ensures x in Archived(c) <==> Archive(x.transactionId) in c && ReadArchived(c, x.transactionId) == Some(x)
  {
    if x in Archived(c) {
      var t :| t in c && t.Archive? && x == ReadArchived(c, t.id).value;
      assert t == Archive(x.transactionId);
    }
    if Archive(x.transactionId) in c && ReadArchived(c, x.transactionId) == Some(x) {
      var t := Archive(x.transactionId);
      assert t in c && t.Archive? && ReadArchived(c, t.id).value == x;
    }
  }

  lemma RecordedView(c: Files, e: Entry)
    requires ArchiveReadable(c) && WellFormed(e) && !IsActiveState(e.state)
    ensures StoreOf(Recorded(c, e)) == P.Recorded(StoreOf(c), e)
  {
    var c' := Recorded(c, e);
    NonDocKept(c, Archive(e.transactionId), Whole(SerializeJournal(e)));
    assert ReadArchived(c', e.transactionId) == Some(e);
    forall t | t in c' && t.Archive? ensures ReadArchived(c', t.id).Some? {
      assert t.id != e.transactionId ==> t in c && ReadArchived(c', t.id) == ReadArchived(c, t.id);
    }
    forall x ensures x in Archived(c') <==> x in P.Others(Archived(c), e.transactionId) || x == e {
      ArchivedUnderItsName(c, x);
      ArchivedUnderItsName(c', x);
    }
    assert Archived(c') == P.Others(Archived(c), e.transactionId) + {e};
  }

  /** Names keep archived entries apart. */
  lemma ArchiveIsNamed(c: Files)
    requires ArchiveReadable(c)
    ensures P.DistinctIds(Archived(c))
    ensures forall e | e in Archived(c) :: WellFormed(e) && !IsActiveState(e.state)
  {
    forall x, y | x in Archived(c) && y in Archived(c) && x.transactionId == y.transactionId ensures x == y {
      ArchivedUnderItsName(c, x);
      ArchivedUnderItsName(c, y);
    }
    forall e | e in Archived(c) ensures WellFormed(e) && !IsActiveState(e.state) {
      ArchivedUnderItsName(c, e);
    }
  }

  // ---- document writes ---------------------------------------------------------------------

  function FileImages(docs: Docs): Files { map p | p in docs :: Doc(p) := docs[p] }

  function Moved(c: Files, e: Entry, side: Side): Files { c + FileImages(Images(e, side)) }

  /** Every document of `e` is where `c` has it or at its image on `side`; nothing else differs. */
  ghost predicate Moving(c: Files, e: Entry, side: Side, c': Files) {
    forall t :: SameAt(c, c', t) || MovedTo(e, side, c', t)
  }

  predicate MovedTo(e: Entry, side: Side, c': Files, t: Target) {
    t.Doc? && t.path in Images(e, side) && t in c' && c'[t] == Images(e, side)[t.path]
  }

  lemma OnlyDocsDiffer(c: Files, c': Files)
    requires forall t: Target | !t.Doc? :: SameAt(c, c', t)
    ensures StoreOf(c') == StoreOf(c).(docs := DocsOf(c'))
  {
    assert SameAt(c, c', Active) && SameAt(c, c', Sequence);
    forall t: Target | t.Archive? ensures t in c <==> t in c'
      ensures t in c ==> ReadArchived(c, t.id) == ReadArchived(c', t.id) {
      assert SameAt(c, c', t);
    }
    if ArchiveReadable(c) {
      forall t | t in c' && t.Archive? ensures ReadArchived(c', t.id).Some? {
        assert t in c;
      }
    }
    if ArchiveReadable(c') {
      forall t | t in c && t.Archive? ensures ReadArchived(c, t.id).Some? {
        assert t in c';
      }
    }
  }

  lemma MovingView(c: Files, e: Entry, side: Side, c': Files)
    requires Moving(c, e, side, c')
    ensures StoreOf(c') == StoreOf(c).(docs := DocsOf(c'))
    ensures P.Moving(DocsOf(c), e, side, DocsOf(c'))
  {
    forall t: Target | !t.Doc? ensures SameAt(c, c', t) {
      assert SameAt(c, c', t) || MovedTo(e, side, c', t);
    }
    OnlyDocsDiffer(c, c');
    forall p ensures SameAt(DocsOf(c), DocsOf(c'), p) || (p in Images(e, side) && SameAt(Images(e, side), DocsOf(c'), p)) {
      assert SameAt(c, c', Doc(p)) || MovedTo(e, side, c', Doc(p));
      assert p in DocsOf(c) <==> Doc(p) in c;
      assert p in DocsOf(c') <==> Doc(p) in c';
    }
  }

  lemma MovedAt(c: Files, docs: Docs, t: Target)
    ensures !t.Doc? || t.path !in docs ==> SameAt(c, c + FileImages(docs), t)
    ensures t.Doc? && t.path in docs ==> t in c + FileImages(docs) && (c + FileImages(docs))[t] == docs[t.path]
  {
    assert t in FileImages(docs) <==> t.Doc? && t.path in docs;
  }

  lemma DocsMoved(c: Files, docs: Docs)
    ensures DocsOf(c + FileImages(docs)) == DocsOf(c) + docs
  {
    var c' := c + FileImages(docs);
    forall p ensures SameAt(DocsOf(c'), DocsOf(c) + docs, p) {
      MovedAt(c, docs, Doc(p));
      assert p in DocsOf(c') <==> Doc(p) in c';
      assert p in DocsOf(c) <==> Doc(p) in c;
    }
    assert forall p | p in DocsOf(c') :: SameAt(DocsOf(c'), DocsOf(c) + docs, p);
    assert forall p | p in DocsOf(c) + docs :: SameAt(DocsOf(c'), DocsOf(c) + docs, p);
  }

  lemma MovedView(c: Files, e: Entry, side: Side)
    ensures StoreOf(Moved(c, e, side)) == P.Moved(StoreOf(c), e, side)
    ensures ArchiveReadable(Moved(c, e, side)) == ArchiveReadable(c)
  {
    var c' := Moved(c, e, side);
    forall t ensures SameAt(c, c', t) || MovedTo(e, side, c', t) {
      MovedAt(c, Images(e, side), t);
    }
    MovingView(c, e, side, c');
    DocsMoved(c, Images(e, side));
  }

  // ---- an entry's progress -----------------------------------------------------------------

  function Finished(c: Files, e: Entry, side: Side, final: Entry): Files {
    Cleared(Recorded(Moved(c, e, side), final))
  }

  ghost predicate Advance(c: Files, e: Entry, side: Side, final: Entry, c': Files) {
    || Moving(c, e, side, c')
    || c' == Recorded(Moved(c, e, side), final)
    || c' == Finished(c, e, side, final)
  }

  lemma ClosedView(m: Files, final: Entry)
    requires ArchiveReadable(m) && WellFormed(final) && !IsActiveState(final.state)
    ensures StoreOf(Cleared(Recorded(m, final))) == P.Cleared(P.Recorded(StoreOf(m), final))
  {
    RecordedView(m, final);
    ClearedView(Recorded(m, final));
  }

  lemma FinishedView(c: Files, e: Entry, side: Side, final: Entry)
    requires ArchiveReadable(c) && WellFormed(final) && !IsActiveState(final.state)
    ensures StoreOf(Finished(c, e, side, final)) == P.Finished(StoreOf(c), e, side, final)
  {
    hide ArchiveReadable, Archived, DocsOf, Images, ReadActive, ReadSequence;
    MovedView(c, e, side);
    ClosedView(Moved(c, e, side), final);
  }

  lemma AdvanceView(c: Files, e: Entry, side: Side, final: Entry, c': Files)
    requires ArchiveReadable(c) && P.Names(final, e, side) && Advance(c, e, side, final, c')
    ensures P.Advance(StoreOf(c), e, side, final, StoreOf(c'))
  {
    hide ArchiveReadable, Archived, DocsOf, Images, ReadActive, ReadSequence, Moving, P.Moving;
    if Moving(c, e, side, c') {
      MovingView(c, e, side, c');
    } else if c' == Finished(c, e, side, final) {
      FinishedView(c, e, side, final);
    } else {
      MovedView(c, e, side);
      RecordedView(Moved(c, e, side), final);
    }
  }

  // ---- plans -------------------------------------------------------------------------------

  /** The plans move the documents to `side`, whatever they expect to find. */
  ghost predicate PlansMove(plans: seq<Plan<Target, Bytes>>, documents: seq<DocumentChange>, side: Side) {
    && |plans| == |documents|
    && forall i | 0 <= i < |plans| :: plans[i].path == Doc(documents[i].documentPath) && Whole(plans[i].contents) == Image(documents[i], side)
  }

  lemma {:induction false} OverlayMoves(c: Files, plans: seq<Plan<Target, Bytes>>, documents: seq<DocumentChange>, side: Side)
    requires PlansMove(plans, documents, side)
    ensures Overlay(c, plans) == c + FileImages(ImagesOf(documents, side))
  {
    hide FileImages, Image;
    if plans == [] {
      NoImages(c);
    } else {
      var n := |plans| - 1;
      OverlayMoves(c, plans[..n], documents[..n], side);
      FileImagesExtend(ImagesOf(documents[..n], side), documents[n].documentPath, Image(documents[n], side));
    }
  }

  lemma NoImages(c: Files)
    ensures c + FileImages(map[]) == c
  {
  }

  lemma FileImagesExtend(docs: Docs, p: string, cell: Cell<Bytes>)
    ensures FileImages(docs[p := cell]) == FileImages(docs)[Doc(p) := cell]
  {
  }

  lemma BetweenMoves(c: Files, plans: seq<Plan<Target, Bytes>>, e: Entry, side: Side, c': Files)
    requires WellFormed(e) && PlansMove(plans, e.documents, side) && Between(c, plans, c')
    ensures Moving(c, e, side, c')
  {
    ImagesOfAt(e.documents, side);
    forall t ensures SameAt(c, c', t) || MovedTo(e, side, c', t) {
      if !SameAt(c, c', t) {
        assert HoldsPlan(plans, c', t);
      }
    }
  }
}
