/**
 The durable records of the apply journal, how they are read back, and what a log of completed
 applies says the documents must hold.
 */
module JournalModel {
  import opened Common
  import opened DurableDisk

  // ---- records -----------------------------------------------------------------------------

  datatype State = Prepared | Completed | Undoing | Redoing | Undone | Aborted

  /** A document's text, tagged with the schema parser's verdict on it. */
  datatype Text = Document(text: string) | Malformed(text: string)

  datatype Timestamp = Instant(ms: int) | NotADate

  datatype DocumentChange = DocumentChange(
    documentPath: string,
    before: Text, beforeHash: Digest<Bytes>,
    after: Text, afterHash: Digest<Bytes>)

  datatype Entry = Entry(
    transactionId: string,
    createdAt: Timestamp,
    state: State,
    completedAt: Option<Timestamp>,
    completionOrder: Option<int>,
    documents: seq<DocumentChange>)

  /** The JSON object stored for an entry, with the keys an entry does not have. */
  datatype Record = Record(schemaVersion: int, kind: string, unknownKeys: bool, entry: Entry)

  datatype Bytes =
    | DocumentText(text: Text)
    | JournalText(record: Record)
    | NullText
    | SequenceText(value: int)
    | OtherText(raw: string)

  datatype Target = Doc(path: string) | Active | Archive(id: string) | Sequence

  type Files = map<Target, Cell<Bytes>>
  type Docs = map<string, Cell<Bytes>>

  const SCHEMA_VERSION := 4
  const JOURNAL_KIND := "sceneaxi.authoring-apply-journal"
  const MAX_SAFE_INTEGER := 9007199254740991

  function DocCell(text: Text): Cell<Bytes> { Whole(DocumentText(text)) }

  function HashText(text: Text): Digest<Bytes> { ContentHash(DocCell(text)) }

  predicate IsDigit(c: char) { '0' <= c <= '9' }

  predicate IsHex(c: char) { IsDigit(c) || 'a' <= c <= 'f' }

  /** Thirteen digits, a hyphen, sixteen lower-case hexadecimal digits. */
  predicate IsTransactionId(id: string) {
    && |id| == 30
    && (forall i | 0 <= i < 13 :: IsDigit(id[i]))
    && id[13] == '-'
    && (forall i | 14 <= i < 30 :: IsHex(id[i]))
  }

  // ---- the shape rules ---------------------------------------------------------------------

  predicate IsCompletedState(state: State) { state in {Completed, Undoing, Redoing, Undone} }

  predicate HasReservedOrder(state: State) { state == Prepared || IsCompletedState(state) }

  predicate WellFormedChange(change: DocumentChange) {
    && change.documentPath != ""
    && change.before.Document? && change.after.Document?
    && change.beforeHash == HashText(change.before)
    && change.afterHash == HashText(change.after)
  }

  predicate DistinctPaths(documents: seq<DocumentChange>) {
    forall i, j | 0 <= i < j < |documents| :: documents[i].documentPath != documents[j].documentPath
  }

  predicate WellFormed(e: Entry) {
    && IsTransactionId(e.transactionId)
    && e.createdAt.Instant?
    && e.documents != []
    && (HasReservedOrder(e.state) ==> e.completionOrder.Some? && 0 < e.completionOrder.value <= MAX_SAFE_INTEGER)
    && (!HasReservedOrder(e.state) ==> e.completionOrder.None?)
    && (IsCompletedState(e.state) ==> e.completedAt.Some? && e.completedAt.value.Instant?)
    && (!IsCompletedState(e.state) ==> e.completedAt.None?)
    && (forall i | 0 <= i < |e.documents| :: WellFormedChange(e.documents[i]))
    && DistinctPaths(e.documents)
  }

  function SerializeJournal(e: Entry): Bytes { JournalText(Record(SCHEMA_VERSION, JOURNAL_KIND, false, e)) }

  function ParseJournal(cell: Cell<Bytes>): Option<Entry> {
    match cell
    case Whole(JournalText(r)) =>
      if r.schemaVersion == SCHEMA_VERSION && r.kind == JOURNAL_KIND && !r.unknownKeys && WellFormed(r.entry)
      then Some(r.entry) else None
    case _ => None
  }

  /** A record reads back as an entry exactly if it is the text written for that entry, and the entry is well formed. */
  lemma ParsesWhatIsWritten(cell: Cell<Bytes>, e: Entry)
    ensures ParseJournal(cell) == Some(e) <==> WellFormed(e) && cell == Whole(SerializeJournal(e))
  {
  }

  // ---- reading the store -------------------------------------------------------------------

  datatype ActiveRead = Idle | InProgress(entry: Entry) | InvalidActive

  predicate IsActiveState(state: State) { state in {Prepared, Undoing, Redoing} }

  function ReadActive(c: Files): ActiveRead {
    if Active !in c || c[Active] == Whole(NullText) then Idle
    else match ParseJournal(c[Active])
      case Some(e) => if IsActiveState(e.state) then InProgress(e) else InvalidActive
      case None => InvalidActive
  }

  /** The archived entry with this id, unless the record is corrupt, misnamed or still in progress. */
  function ReadArchived(c: Files, id: string): Option<Entry>
    requires Archive(id) in c
  {
    match ParseJournal(c[Archive(id)])
    case Some(e) => if e.transactionId == id && !IsActiveState(e.state) then Some(e) else None
    case None => None
  }

  predicate ArchiveReadable(c: Files) {
    forall t | t in c && t.Archive? :: ReadArchived(c, t.id).Some?
  }

  function Archived(c: Files): set<Entry>
    requires ArchiveReadable(c)
  {
    set t | t in c && t.Archive? :: ReadArchived(c, t.id).value
  }

  function Order(e: Entry): int { e.completionOrder.GetOr(0) }

  /** The completion sequence's value; a missing, corrupt or malformed file reads as 0. */
  function ReadSequence(c: Files): int {
    if Sequence !in c then 0
    else match c[Sequence]
      case Whole(SequenceText(v)) => if 0 <= v <= MAX_SAFE_INTEGER then v else 0
      case _ => 0
  }

  function DocsOf(c: Files): Docs {
    map t | t in c && t.Doc? :: t.path := c[t]
  }

  // ---- the log -----------------------------------------------------------------------------

  datatype Side = Before | After

  function Image(change: DocumentChange, side: Side): Cell<Bytes> {
    DocCell(if side == Before then change.before else change.after)
  }

  function ImagesOf(documents: seq<DocumentChange>, side: Side): Docs {
    if documents == [] then map[]
    else
      var last := documents[|documents| - 1];
      ImagesOf(documents[..|documents| - 1], side)[last.documentPath := Image(last, side)]
  }

  /** The documents of an entry as they were before it, or as it leaves them. */
  function Images(e: Entry, side: Side): Docs { ImagesOf(e.documents, side) }

  lemma {:induction false} ImagesOfAt(documents: seq<DocumentChange>, side: Side)
    requires DistinctPaths(documents)
    ensures ImagesOf(documents, side).Keys == set i | 0 <= i < |documents| :: documents[i].documentPath
    ensures forall i | 0 <= i < |documents| ::
              && documents[i].documentPath in ImagesOf(documents, side)
              && ImagesOf(documents, side)[documents[i].documentPath] == Image(documents[i], side)
  {
    if documents != [] {
      var init := documents[..|documents| - 1];
      ImagesOfAt(init, side);
      assert documents == init + [documents[|documents| - 1]];
      assert forall i | 0 <= i < |init| :: documents[i] == init[i];
    }
  }

  ghost predicate Newest(e: Entry, log: set<Entry>) {
    e in log && forall x | x in log :: Order(x) <= Order(e)
  }

  lemma {:induction false} NewestExists(log: set<Entry>)
    requires log != {}
    ensures exists e :: Newest(e, log)
    decreases |log|
  {
    var x :| x in log;
    if log == {x} {
      assert Newest(x, log);
    } else {
      var rest := log - {x};
      assert rest != {};
      NewestExists(rest);
      var y :| Newest(y, rest);
      assert Newest(if Order(x) <= Order(y) then y else x, log);
    }
  }

  ghost function Latest(log: set<Entry>): (e: Entry)
    requires log != {}
    ensures Newest(e, log)
  {
    NewestExists(log);
    var e :| Newest(e, log);
    e
  }

  /** The fold of the after-images over the initial documents, oldest entry first. */
  ghost function Replay(init: Docs, log: set<Entry>): Docs
    decreases |log|
  {
    if log == {} then init
    else
      var e := Latest(log);
      Replay(init, log - {e}) + Images(e, After)
  }

  ghost predicate Agrees(docs: Docs, images: Docs) {
    forall p | p in images :: p in docs && docs[p] == images[p]
  }

  /** Each entry was applied to exactly what the earlier ones had left. */
  ghost predicate Linked(init: Docs, log: set<Entry>)
    decreases |log|
  {
    log == {} ||
    var e := Latest(log);
    Linked(init, log - {e}) && Agrees(Replay(init, log - {e}), Images(e, Before))
  }

  predicate DistinctOrders(log: set<Entry>) {
    forall x, y | x in log && y in log && Order(x) == Order(y) :: x == y
  }

  lemma ReplayExtends(init: Docs, log: set<Entry>, e: Entry)
    requires forall x | x in log :: Order(x) < Order(e)
    ensures Latest(log + {e}) == e
    ensures Replay(init, log + {e}) == Replay(init, log) + Images(e, After)
    ensures Linked(init, log + {e}) <==> Linked(init, log) && Agrees(Replay(init, log), Images(e, Before))
  {
    assert e in log + {e};
    assert Newest(Latest(log + {e}), log + {e});
    assert log + {e} - {e} == log;
  }

  /** Undoing the newest entry gives back the replay of the rest. */
  lemma ReplayRetracts(base: Docs, e: Entry)
    requires DistinctPaths(e.documents)
    requires Agrees(base, Images(e, Before))
    ensures base + Images(e, After) + Images(e, Before) == base
    ensures base + Images(e, Before) == base
  {
    ImagesOfAt(e.documents, Before);
    ImagesOfAt(e.documents, After);
  }
}
