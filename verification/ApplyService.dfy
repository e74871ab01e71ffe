/** The authoring service on the disk: proposals applied, and direct edits, through the journal. */
module ApplyService {
  import opened Common
  import opened DurableDisk
  import opened AtomicWrite
  import opened JsonValues
  import opened JsonPointer
  import opened JournalModel
  import opened JournalFiles
  import opened ApplyJournal
  import opened ApplyTransaction
  import O = JournalOrder
  import P = JournalProtocol
  import S = ProposeApply
  import M = EditMeaning

  /** A text with the parser's verdict on it. */
  function Tagged(s: S.Schema, text: string): Text {
    if s.parse(text).Some? then Document(text) else Malformed(text)
  }

  predicate IsText(cell: Cell<Bytes>) { cell.Whole? && cell.value.DocumentText? }

  function TextsOf(c: Files): map<string, string> {
    map t | t in c && t.Doc? && IsText(c[t]) :: t.path := c[t].value.text.text
  }

  /** Document files hold texts, each with the verdict the parser gives it. */
  ghost predicate Textual(s: S.Schema, c: Files) {
    forall t | t in c && t.Doc? && IsText(c[t]) :: c[t].value.text == Tagged(s, c[t].value.text.text)
  }

  /** So do the images an active entry may put there. */
  ghost predicate TextualEntry(s: S.Schema, c: Files) {
    match ReadActive(c)
    case InProgress(e) =>
      forall i | 0 <= i < |e.documents| ::
        e.documents[i].before == Tagged(s, e.documents[i].before.text) && e.documents[i].after == Tagged(s, e.documents[i].after.text)
    case _ => true
  }

  lemma RecoveryIsTextual(s: S.Schema, c: Files, now: Timestamp, c': Files)
    requires Textual(s, c) && TextualEntry(s, c)
    requires c' == c || RecoveryPoint(c, now, c')
    ensures Textual(s, c')
  {
    if c' != c && ReadActive(c).InProgress? {
      var e := ReadActive(c).entry;
      var side := Toward(e);
      ActiveIsWellFormed(c);
      hide ReadActive, WellFormed, Images, Advance;
      forall t | t in c' && t.Doc? && IsText(c'[t]) ensures c'[t].value.text == Tagged(s, c'[t].value.text.text) {
        DocumentOnTheWay(c, e, side, FinalOf(e, side, now), c', t);
        if t.path in Images(e, side) {
          ImageIsTextual(s, e, side, t.path);
        }
      }
    }
  }

  /** On an entry's way each document is as it was or at its image. */
  lemma DocumentOnTheWay(c: Files, e: Entry, side: Side, final: Entry, c': Files, t: Target)
    requires Advance(c, e, side, final, c') && t.Doc? && t in c'
    ensures SameAt(c, c', t) || (t.path in Images(e, side) && c'[t] == Images(e, side)[t.path])
  {
    hide Images;
    MovedAt(c, Images(e, side), t);
    if Moving(c, e, side, c') {
      assert SameAt(c, c', t) || MovedTo(e, side, c', t);
    }
  }

  lemma ActiveIsWellFormed(c: Files)
    ensures ReadActive(c).InProgress? ==> WellFormed(ReadActive(c).entry)
  {
  }

  lemma ImageIsTextual(s: S.Schema, e: Entry, side: Side, path: string)
    requires WellFormed(e) && path in Images(e, side)
    requires forall i | 0 <= i < |e.documents| ::
               e.documents[i].before == Tagged(s, e.documents[i].before.text) && e.documents[i].after == Tagged(s, e.documents[i].after.text)
    ensures var cell := Images(e, side)[path]; IsText(cell) && cell.value.text == Tagged(s, cell.value.text.text)
  {
    ImagesOfAt(e.documents, side);
    var i :| 0 <= i < |e.documents| && e.documents[i].documentPath == path;
  }

  function Planned(s: S.Schema, plan: S.DocumentPlan): PlannedDocument {
    PlannedDocument(plan.path, Tagged(s, plan.before), Tagged(s, plan.after))
  }

  function PlannedAll(s: S.Schema, plans: seq<S.DocumentPlan>): seq<PlannedDocument> {
    seq(|plans|, i requires 0 <= i < |plans| => Planned(s, plans[i]))
  }

  // ---- what a plan guarantees --------------------------------------------------------------

  lemma {:induction false} GroupsDistinct(resolve: string -> string, edits: seq<S.ProposalEdit>)
    requires S.GroupAll(resolve, edits).Ok?
    ensures var g := S.GroupAll(resolve, edits).value;
            && (forall abs :: abs in g.order <==> abs in g.byDoc)
            && (forall i, j | 0 <= i < j < |g.order| :: g.order[i] != g.order[j])
            && (forall abs | abs in g.byDoc :: exists e :: e in edits && resolve(e.documentPath) == abs)
  {
    if edits != [] {
      var init, e := edits[..|edits| - 1], edits[|edits| - 1];
      GroupsDistinct(resolve, init);
      assert edits == init + [e];
      var g, g' := S.GroupAll(resolve, init).value, S.GroupAll(resolve, edits).value;
      assert g'.byDoc.Keys == g.byDoc.Keys + {resolve(e.documentPath)};
      forall abs | abs in g'.byDoc ensures exists x :: x in edits && resolve(x.documentPath) == abs {
        if abs in g.byDoc {
          var x :| x in init && resolve(x.documentPath) == abs;
          assert x in edits;
        } else {
          assert e in edits;
        }
      }
    }
  }

  lemma {:induction false} ChainIsValid(s: S.Schema, d: Json, edits: seq<S.ProposalEdit>)
    requires S.Lawful(s) && Valid(d) && edits != [] && S.Chain(s, d, edits).Ok?
    ensures Valid(S.Chain(s, d, edits).value) && s.parse(s.serialize(S.Chain(s, d, edits).value)).Some?
  {
    hide S.Lawful, Valid, S.ApplyPointerEdit;
    var init, e := edits[..|edits| - 1], edits[|edits| - 1];
    if init != [] {
      ChainIsValid(s, d, init);
    }
    S.EditedIsValid(s, S.Chain(s, d, init).value, e.pointer, e.newValue);
  }

  lemma PlanIsSound(s: S.Schema, texts: map<string, string>, abs: string, group: S.Group)
    requires S.Lawful(s) && group.edits != [] && S.PlanOne(s, texts, abs, group).Ok?
    ensures var plan := S.PlanOne(s, texts, abs, group).value;
            && plan.path == abs && abs in texts && plan.before == texts[abs]
            && s.parse(plan.before).Some? && s.parse(plan.after).Some?
  {
    hide S.Lawful, Valid, S.Chain;
    var text := S.Load(s, texts, abs).value;
    S.ParsedIsValid(s, text);
    ChainIsValid(s, s.parse(text).value, group.edits);
  }

  lemma {:induction false} PlansAreSound(s: S.Schema, texts: map<string, string>, g: S.Groups, k: nat)
    requires S.Lawful(s) && S.Grouped(g) && k <= |g.order| && S.PlanAll(s, texts, g, k).Ok?
    ensures var plans := S.PlanAll(s, texts, g, k).value;
            forall i | 0 <= i < k ::
              && plans[i].path == g.order[i] && plans[i].path in texts && plans[i].before == texts[plans[i].path]
              && s.parse(plans[i].before).Some? && s.parse(plans[i].after).Some?
  {
    hide S.Lawful, S.PlanOne;
    if k > 0 {
      PlansAreSound(s, texts, g, k - 1);
      PlanIsSound(s, texts, g.order[k - 1], g.byDoc[g.order[k - 1]]);
    }
  }

  /** Planned documents are parsed texts under distinct names, from what is on disk. */
  lemma PlannedFits(s: S.Schema, resolve: string -> string, c: Files, p: S.Proposal)
    requires S.Lawful(s) && Textual(s, c) && S.PlanProposal(s, resolve, TextsOf(c), p).Ok?
    requires forall e | e in p.edits :: resolve(e.documentPath) != ""
    ensures var documents := PlannedAll(s, S.PlanProposal(s, resolve, TextsOf(c), p).value);
            Plannable(documents) && AllSatisfied(ApplyPlans(documents), c)
  {
    hide S.Lawful, S.DiffsMatch, S.PlanAll, S.GroupAll, S.Grouped;
    var g := S.GroupAll(resolve, p.edits).value;
    var plans := S.PlanProposal(s, resolve, TextsOf(c), p).value;
    GroupsDistinct(resolve, p.edits);
    PlansAreSound(s, TextsOf(c), g, |g.order|);
    var documents := PlannedAll(s, plans);
    forall i | 0 <= i < |documents| ensures documents[i].documentPath != "" && Satisfied(ApplyPlans(documents)[i], c) {
      assert plans[i].path == g.order[i] && g.order[i] in g.byDoc;
      OnDisk(s, c, plans[i].path);
    }
  }

  lemma OnDisk(s: S.Schema, c: Files, path: string)
    requires Textual(s, c) && path in TextsOf(c)
    ensures Doc(path) in c && c[Doc(path)] == DocCell(Tagged(s, TextsOf(c)[path]))
  {
  }

  // ---- the service -------------------------------------------------------------------------

  datatype Answer = NotReady | NotPlanned(reason: S.Reason) | Ran(result: ApplyResult)

  /** Ids are random: this one names no archive record and no active entry. */
  predicate Unused(c: Files, id: string) {
    Archive(id) !in c && (ReadActive(c).InProgress? ==> ReadActive(c).entry.transactionId != id)
  }

  lemma UnusedAfterRecovery(c: Files, now: Timestamp, c': Files, id: string)
    requires Unused(c, id) && (c' == c || RecoveryPoint(c, now, c'))
    ensures Archive(id) !in c'
  {
    if ReadActive(c).InProgress? {
      var e := ReadActive(c).entry;
      MovedAt(c, Images(e, Toward(e)), Archive(id));
      if Moving(c, e, Toward(e), c') {
        assert SameAt(c, c', Archive(id)) || MovedTo(e, Toward(e), c', Archive(id));
      }
    }
  }

  ghost predicate HoldsPlans(c: Files, s: S.Schema, plans: seq<S.DocumentPlan>) {
    forall i | 0 <= i < |plans| :: Doc(plans[i].path) in c && c[Doc(plans[i].path)] == DocCell(Document(plans[i].after))
  }

  lemma HoldsPlanned(s: S.Schema, plans: seq<S.DocumentPlan>, c: Files)
    requires Plannable(PlannedAll(s, plans)) && HoldsAfter(c, PlannedAll(s, plans))
    ensures HoldsPlans(c, s, plans)
  {
    var documents := PlannedAll(s, plans);
    assert forall i | 0 <= i < |plans| :: documents[i] == Planned(s, plans[i]) && documents[i].after.Document?;
  }

  function PlanPaths(plans: seq<S.DocumentPlan>): seq<string> {
    seq(|plans|, i requires 0 <= i < |plans| => plans[i].path)
  }

  lemma PlannedPaths(s: S.Schema, plans: seq<S.DocumentPlan>)
    ensures PathsOf(PlannedAll(s, plans)) == PlanPaths(plans)
  {
  }

  lemma SatisfiedHasNoConflict(plans: seq<Plan<Target, Bytes>>, c: Files)
    requires AllSatisfied(plans, c)
    ensures forall t :: !FirstConflict(plans, c, t)
  {
  }

  /** Each document the proposal names parses to its old document with the values proposed for it set in turn. */
  ghost predicate HoldsEdits(s: S.Schema, resolve: string -> string, p: S.Proposal, before: map<string, string>, after: map<string, string>) {
    forall abs | M.OwnProposed(resolve, p.edits, abs) != [] ::
      && abs in before && abs in after
      && M.ValuesValid(M.Proposed(M.OwnProposed(resolve, p.edits, abs)))
      && M.Sets(s, before[abs], M.Proposed(M.OwnProposed(resolve, p.edits, abs)), after[abs])
  }

  lemma PlansAreEdits(s: S.Schema, resolve: string -> string, p: S.Proposal, texts: map<string, string>, c: Files)
    requires S.Lawful(s) && S.PlanProposal(s, resolve, texts, p).Ok?
    requires HoldsPlans(c, s, S.PlanProposal(s, resolve, texts, p).value)
    ensures HoldsEdits(s, resolve, p, texts, TextsOf(c))
  {
    hide S.Lawful, S.PlanProposal, M.Sets, M.ValuesValid, M.OwnProposed;
    M.PlanSets(s, resolve, texts, p);
    var plans := S.PlanProposal(s, resolve, texts, p).value;
    forall abs | M.OwnProposed(resolve, p.edits, abs) != []
      ensures abs in texts && abs in TextsOf(c)
      ensures M.ValuesValid(M.Proposed(M.OwnProposed(resolve, p.edits, abs)))
      ensures M.Sets(s, texts[abs], M.Proposed(M.OwnProposed(resolve, p.edits, abs)), TextsOf(c)[abs])
    {
      var i :| 0 <= i < |plans| && plans[i].path == abs;
      assert M.PlanOf(s, resolve, texts, p, plans[i]);
      TextOn(c, abs, Document(plans[i].after));
    }
  }

  lemma TextOn(c: Files, path: string, text: Text)
    requires Doc(path) in c && c[Doc(path)] == DocCell(text)
    ensures path in TextsOf(c) && TextsOf(c)[path] == text.text
  {
    assert IsText(c[Doc(path)]);
  }

  /**
   Recover, plan, and run the plans as one transaction. `mid` is the store once recovery is done;
   the plans are made from the texts it holds.
   */
  method Apply(journal: Journal, s: S.Schema, resolve: string -> string, p: S.Proposal,
               transactionId: string, createdAt: Timestamp, now: Timestamp)
    returns (r: Answer, ghost mid: Files, ghost e: Entry, ghost resumed: Option<Files>)
    requires journal.disk.Valid() && journal.disk.held == {} && S.Lawful(s)
    requires IsTransactionId(transactionId) && Unused(journal.disk.files, transactionId)
    requires createdAt.Instant? && now.Instant? && forall x | x in p.edits :: resolve(x.documentPath) != ""
    requires Textual(s, journal.disk.files) && TextualEntry(s, journal.disk.files)
    modifies journal.disk, journal`cache
    ensures journal.disk.Valid() && journal.disk.held == {}
    ensures mid == old(journal.disk.files) || RecoveryPoint(old(journal.disk.files), now, mid)
    ensures !r.Ran? ==> journal.disk.files == mid
    ensures r.NotPlanned? ==> S.PlanProposal(s, resolve, TextsOf(mid), p) == S.Rejected(r.reason)
    ensures r.Ran? ==> S.PlanProposal(s, resolve, TextsOf(mid), p).Ok? && ApplyPoint(mid, e, now, resumed, journal.disk.files)
    ensures r.Ran? && r.result.Applied? ==> HoldsPlans(journal.disk.files, s, S.PlanProposal(s, resolve, TextsOf(mid), p).value)
    ensures r.Ran? && r.result.Rejected? ==> DocsOf(journal.disk.files) == DocsOf(mid)
    ensures old(journal.Sane()) ==> journal.Sane()
    ensures old(journal.Sound()) && (resumed.Some? ==> ReadActive(resumed.value) == InProgress(e)) ==> journal.Sound()
    // what applied means to a reader of the documents
    ensures r.Ran? && r.result.Applied? ==> HoldsEdits(s, resolve, p, TextsOf(mid), TextsOf(journal.disk.files))
    ensures r.Ran? && r.result.Applied? ==>
              r.result.transactionId == transactionId
              && r.result.documentPaths == PlanPaths(S.PlanProposal(s, resolve, TextsOf(mid), p).value)
    // what must have gone wrong for any other answer
    ensures r.NotReady? && old(journal.Sane()) ==> journal.disk.failed > old(journal.disk.failed)
    ensures !r.NotReady? ==> RecoveryDone(old(journal.disk.files), now, mid) && ReadActive(mid) == Idle
    ensures r.Ran? && r.result.Rejected? ==> r.result == Rejected(ApplyInProgress) || r.result == Rejected(ApplyFailed)
    ensures r.Ran? && r.result == Rejected(ApplyInProgress) ==> journal.disk.failed > old(journal.disk.failed)
    ensures r.Ran? && r.result == Rejected(ApplyFailed) && old(journal.Sane()) && p.edits != [] ==>
              || journal.disk.failed > old(journal.disk.failed)
              || exists n :: n > MAX_SAFE_INTEGER && P.Reserves(StoreOf(mid), n)
    ensures r.Ran? && r.result.Rejected? && ReadActive(journal.disk.files) != Idle ==> journal.disk.failed >= old(journal.disk.failed) + 2
    ensures r.Ran? && !r.result.Rejected? ==> journal.disk.failed >= old(journal.disk.failed) + Mishaps(r.result, resumed.Some?)
    ensures journal.disk.failed >= old(journal.disk.failed)
    ensures old(journal.disk.Calm()) ==> journal.disk.Calm() && journal.disk.failed == old(journal.disk.failed)
    ensures r.Ran? && r.result.Applied? && !r.result.recoveryPending && old(journal.Sound()) ==> journal.Sound()
  {
    hide S.Lawful, P.Recoverable, P.Settled, CacheSound, RecoveryPoint, ApplyPoint, Textual, TextsOf, S.PlanProposal;
    hide HoldsPlans, AllSatisfied;
    hide ReadActive, Archived, ArchiveReadable, StoreOf, DocsOf, HoldsAfter, TextualEntry, Unused, Plannable, StartsFrom, P.Interrupted;
    hide Begun, O.Restorable, RefusedAt, RecoveryDone, FirstConflict, HoldsEdits, PathsOf, PlanPaths, P.Reserves, Mishaps;
    resumed := None;
    e := Entry(transactionId, createdAt, Prepared, None, None, []);
    var recovered := journal.RecoverIncompleteApplies(now);
    mid := journal.disk.files;
    if !Finishes(recovered) {
      return NotReady, mid, e, None;
    }
    var texts := TextsOf(journal.disk.files);
    var planned := S.PlanApply(s, resolve, texts, p);
    if planned.Rejected? {
      return NotPlanned(planned.reason), mid, e, None;
    }
    RecoveryIsTextual(s, old(journal.disk.files), now, mid);
    PlannedFits(s, resolve, mid, p);
    SatisfiedHasNoConflict(ApplyPlans(PlannedAll(s, planned.value)), mid);
    UnusedAfterRecovery(old(journal.disk.files), now, mid, transactionId);
    var documents := PlannedAll(s, planned.value);
    if p.edits != [] {
      PlansNonEmpty(s, resolve, texts, p);
    }
    var result;
    if O.Restorable(StoreOf(mid)) {
      OrdersOfRestorable(mid);
    }
    result, e, resumed := ApplyDocuments(journal, documents, transactionId, createdAt, now);
    assert result.Rejected? ==> !result.reason.ContentHashConflict?;
    if result.Applied? {
      HoldsPlanned(s, planned.value, journal.disk.files);
      PlansAreEdits(s, resolve, p, texts, journal.disk.files);
      PlannedPaths(s, planned.value);
    }
    r := Ran(result);
  }

  lemma PlansNonEmpty(s: S.Schema, resolve: string -> string, texts: map<string, string>, p: S.Proposal)
    requires S.PlanProposal(s, resolve, texts, p).Ok? && p.edits != []
    ensures S.PlanProposal(s, resolve, texts, p).value != []
  {
    GroupsDistinct(resolve, p.edits);
    var g := S.GroupAll(resolve, p.edits).value;
    var init, last := p.edits[..|p.edits| - 1], p.edits[|p.edits| - 1];
    assert resolve(last.documentPath) in g.byDoc;
  }

  // ---- direct edits ------------------------------------------------------------------------

  datatype EditAnswer = Edited | EditRejected(reason: S.Reason) | EditConflict | EditBusy

  /** Write one document outside the journal, with recovery out of the way. */
  method WriteCanonicalDocument(journal: Journal, path: string, contents: Text, expected: Option<Digest<Bytes>>,
                                mustBeAbsent: bool, now: Timestamp)
    returns (r: EditAnswer, ghost mid: Files)
    requires journal.disk.Valid() && journal.disk.held == {} && now.Instant?
    modifies journal.disk, journal`cache
    ensures journal.disk.Valid() && journal.disk.held == {}
    ensures mid == old(journal.disk.files) || RecoveryPoint(old(journal.disk.files), now, mid)
    ensures ReadActive(old(journal.disk.files)) == Idle ==> mid == old(journal.disk.files)
    ensures journal.disk.files == mid || journal.disk.files == mid[Doc(path) := DocCell(contents)]
    ensures journal.disk.files != mid ==> ReadActive(mid) == Idle
    ensures old(journal.Sane()) ==> journal.Sane()
    ensures r.Edited? ==> journal.disk.files == mid[Doc(path) := DocCell(contents)]
    ensures r.Edited? ==> Satisfied(Plan(Doc(path), DocumentText(contents), expected, mustBeAbsent), mid)
    ensures r.EditConflict? ==> !Satisfied(Plan(Doc(path), DocumentText(contents), expected, mustBeAbsent), mid) && journal.disk.files == mid
    ensures !r.EditRejected?
    ensures r.EditBusy? && (ReadActive(old(journal.disk.files)) == Idle || old(journal.Sane())) ==> journal.disk.failed > old(journal.disk.failed)
    ensures r.EditBusy? && journal.disk.files != mid ==> journal.disk.failed >= old(journal.disk.failed) + 2
    ensures !r.EditBusy? ==> RecoveryDone(old(journal.disk.files), now, mid) && ReadActive(mid) == Idle
    ensures journal.disk.failed >= old(journal.disk.failed)
    ensures old(journal.disk.Calm()) ==> journal.disk.Calm() && journal.disk.failed == old(journal.disk.failed)
  {
    hide RecoveryPoint, ReadActive, StoreOf, O.Restorable, P.Recoverable, P.Settled, CacheSound, RecoveryDone, Journal.Sane, Journal.Sound;
    mid := journal.disk.files;
    var locked := journal.disk.Acquire({Operation});
    if !locked {
      return EditBusy, mid;
    }
    var recovered := journal.RecoverIncompleteLocked(now);
    mid := journal.disk.files;
    if Finishes(recovered) {
      r := WriteUnlogged(journal, Plan(Doc(path), DocumentText(contents), expected, mustBeAbsent));
    } else {
      r := EditBusy;
    }
    var released := journal.disk.Release({Operation});
  }

  /** Under the store's lock: lock the document, write it, give its lock back. */
  method WriteUnlogged(journal: Journal, plan: Plan<Target, Bytes>) returns (r: EditAnswer)
    requires journal.disk.Valid() && journal.disk.held == {Operation} && plan.path.Doc? && ReadActive(journal.disk.files) == Idle
    modifies journal.disk
    ensures journal.disk.Valid() && journal.disk.held == {Operation}
    ensures var c := old(journal.disk.files);
            && (journal.disk.files == c || journal.disk.files == c[plan.path := Whole(plan.contents)])
            && (r.Edited? ==> Satisfied(plan, c) && journal.disk.files == c[plan.path := Whole(plan.contents)])
            && (r.EditConflict? ==> !Satisfied(plan, c) && journal.disk.files == c)
    ensures !r.EditRejected?
    ensures old(journal.Sane()) ==> journal.Sane()
    ensures !old(journal.disk.alive) ==> journal.disk.files == old(journal.disk.files)
    ensures journal.disk.failed >= old(journal.disk.failed) + if !r.EditBusy? then 0 else if journal.disk.files == old(journal.disk.files) then 1 else 2
    ensures old(journal.disk.Calm()) ==> journal.disk.Calm() && journal.disk.failed == old(journal.disk.failed)
  {
    hide ReadActive, StoreOf, O.Restorable, CacheSound, Satisfied, Journal.Sane;
    ghost var c := journal.disk.files;
    var locked := journal.disk.Acquire({Of(plan.path)});
    if !locked {
      return EditBusy;
    }
    SaneMeans(journal);
    var written := AtomicWriteFile(journal.disk, plan, true);
    SaneMeans(journal);
    if O.Restorable(StoreOf(c)) {
      EditRestores(c, plan.path.path, Whole(plan.contents));
    }
    r := if written.Written? then Edited else if written.Conflict? then EditConflict else EditBusy;
    var released := journal.disk.Release({Of(plan.path)});
  }

  lemma SaneMeans(journal: Journal)
    ensures journal.Sane() <==> O.Restorable(StoreOf(journal.disk.files)) && CacheSound(journal.cache)
  {
  }

  /** A direct edit made while nothing is active keeps the journal in order. */
  lemma EditRestores(c: Files, path: string, cell: Cell<Bytes>)
    requires O.Restorable(StoreOf(c)) && ReadActive(c) == Idle
    ensures O.Restorable(StoreOf(c[Doc(path) := cell]))
  {
    hide ArchiveReadable, Archived, ReadSequence, ReadActive, DocsOf;
    var c' := c[Doc(path) := cell];
    forall t: Target | !t.Doc? ensures SameAt(c, c', t) {}
    OnlyDocsDiffer(c, c');
    O.EditIsRestorable(StoreOf(c), DocsOf(c'));
  }

  /** Why this edit is refused of the texts on disk, if it is. */
  function EditRefusal(s: S.Schema, texts: map<string, string>, abs: string, edit: S.Edit): Option<S.Reason> {
    if abs !in texts then Some(S.DocumentNotFound) else M.Refusal(s, texts[abs], edit.pointer, edit.newValue)
  }

  /** Edit one document in place: on success it holds exactly the edited text, and nothing else has moved. */
  method EditDirect(journal: Journal, s: S.Schema, resolve: string -> string, edit: S.Edit, now: Timestamp)
    returns (r: EditAnswer, ghost mid: Files)
    requires journal.disk.Valid() && journal.disk.held == {} && now.Instant?
    modifies journal.disk, journal`cache
    ensures journal.disk.Valid() && journal.disk.held == {}
    ensures mid == old(journal.disk.files) || RecoveryPoint(old(journal.disk.files), now, mid)
    ensures var abs := resolve(edit.documentPath);
            || journal.disk.files == mid
            || (abs in TextsOf(mid) && S.EditText(s, TextsOf(mid)[abs], edit.pointer, edit.newValue).Ok?
                && journal.disk.files == mid[Doc(abs) := DocCell(Tagged(s, S.EditText(s, TextsOf(mid)[abs], edit.pointer, edit.newValue).value))])
    ensures r.Edited? ==>
              var abs := resolve(edit.documentPath);
              && abs in TextsOf(mid) && S.EditText(s, TextsOf(mid)[abs], edit.pointer, edit.newValue).Ok?
              && journal.disk.files == mid[Doc(abs) := DocCell(Tagged(s, S.EditText(s, TextsOf(mid)[abs], edit.pointer, edit.newValue).value))]
    ensures r.EditRejected? ==> journal.disk.files == mid
    ensures old(journal.Sane()) ==> journal.Sane()
    // what edited means to a reader of the document
    ensures r.Edited? && S.Lawful(s) ==>
              var abs := resolve(edit.documentPath);
              && abs in TextsOf(mid) && abs in TextsOf(journal.disk.files)
              && M.Sets(s, TextsOf(mid)[abs], [M.Assignment(edit.pointer, edit.newValue)], TextsOf(journal.disk.files)[abs])
    // why it is refused, and what must have gone wrong otherwise
    ensures r.EditRejected? ==> EditRefusal(s, TextsOf(mid), resolve(edit.documentPath), edit) == Some(r.reason)
    ensures r.Edited? || r.EditConflict? ==> EditRefusal(s, TextsOf(mid), resolve(edit.documentPath), edit).None?
    ensures !r.EditBusy? ==> RecoveryDone(old(journal.disk.files), now, mid) && ReadActive(mid) == Idle
    ensures Textual(s, mid) ==> !r.EditConflict?
    ensures old(journal.Sane()) && r.EditBusy? ==> journal.disk.failed > old(journal.disk.failed)
    ensures r.EditBusy? && journal.disk.files != mid ==> journal.disk.failed >= old(journal.disk.failed) + 2
    ensures journal.disk.failed >= old(journal.disk.failed)
    ensures old(journal.disk.Calm()) ==> journal.disk.Calm() && journal.disk.failed == old(journal.disk.failed)
  {
    hide RecoveryPoint, ReadActive, TextsOf, S.ApplyPointerEdit, P.Recoverable, P.Settled, CacheSound, Textual, O.Restorable;
    hide StoreOf, RecoveryDone;
    var recovered := journal.RecoverIncompleteApplies(now);
    mid := journal.disk.files;
    if !Finishes(recovered) {
      return EditBusy, mid;
    }
    var texts := TextsOf(journal.disk.files);
    var abs := resolve(edit.documentPath);
    var loaded := S.Load(s, texts, abs);
    if loaded.Rejected? {
      return EditRejected(loaded.reason), mid;
    }
    M.EditRefused(s, loaded.value, edit.pointer, edit.newValue);
    var mutated := S.ApplyPointerEdit(s, s.parse(loaded.value).value, edit.pointer, edit.newValue);
    if mutated.Rejected? {
      return EditRejected(mutated.reason), mid;
    }
    if Textual(s, mid) {
      OnDisk(s, mid, abs);
    }
    ghost var inner;
    r, inner := WriteCanonicalDocument(journal, abs, Tagged(s, s.serialize(mutated.value)), Some(HashText(Tagged(s, loaded.value))), false, now);
    if r.Edited? && S.Lawful(s) {
      M.EditSets(s, loaded.value, edit.pointer, edit.newValue);
      TextOn(journal.disk.files, abs, Tagged(s, s.serialize(mutated.value)));
    }
  }

  lemma OwnOfOne(resolve: string -> string, edit: S.Edit, abs: string)
    ensures S.Own(resolve, [edit], abs) == if resolve(edit.documentPath) == abs then [edit] else []
  {
    assert [edit][..0] == [];
  }

  lemma EditOnce(s: S.Schema, text: string, edit: S.Edit)
    ensures S.EditTexts(s, text, [edit]) == S.EditText(s, text, edit.pointer, edit.newValue)
  {
    assert [edit][..0] == [];
  }

  lemma TwoPathsDiffer(plans: seq<S.DocumentPlan>)
    requires forall i, j | 0 <= i < j < |plans| :: plans[i].path != plans[j].path
    ensures |plans| > 1 ==> plans[0].path != plans[1].path
  {
  }

  /** Why a proposal of this edit is refused: its pointer is looked at before its value is. */
  function ProposalRefusal(s: S.Schema, texts: map<string, string>, abs: string, edit: S.Edit): S.Reason {
    if abs in texts && s.parse(texts[abs]).Some? && !GetAt(s.parse(texts[abs]).value, edit.pointer).Found? then S.PointerInvalid
    else EditRefusal(s, texts, abs, edit).GetOr(S.ValidationFailed)
  }

  lemma OneProposalRefused(s: S.Schema, resolve: string -> string, texts: map<string, string>, edit: S.Edit)
    requires S.ProposeAll(s, resolve, texts, [edit]).Rejected?
    ensures S.ProposeAll(s, resolve, texts, [edit]) == S.Rejected(ProposalRefusal(s, texts, resolve(edit.documentPath), edit))
  {
    hide GetAt, SetAt, Valid;
    assert [edit][..0] == [];
    var abs := resolve(edit.documentPath);
    if abs in texts && s.parse(texts[abs]).Some? {
      M.EditRefused(s, texts[abs], edit.pointer, edit.newValue);
      SetSucceedsIffGet(s.parse(texts[abs]).value, edit.pointer, edit.newValue);
    }
  }

  /**
   One edit can be proposed exactly when a direct edit would be accepted, and then the proposal plans
   that document alone, from the text on disk to the text the direct edit would write.
   */
  lemma OneEditIsDirect(s: S.Schema, resolve: string -> string, texts: map<string, string>, edit: S.Edit)
    requires S.Lawful(s)
    ensures var abs := resolve(edit.documentPath);
            S.ProposeAll(s, resolve, texts, [edit]).Ok? <==>
              S.Load(s, texts, abs).Ok? && S.EditText(s, texts[abs], edit.pointer, edit.newValue).Ok?
    ensures S.ProposeAll(s, resolve, texts, [edit]).Ok? ==>
              var abs := resolve(edit.documentPath);
              var planned := S.PlanProposal(s, resolve, texts, S.ProposalOf(s, S.ProposeAll(s, resolve, texts, [edit]).value));
              && abs in texts && planned.Ok? && |planned.value| == 1
              && planned.value[0].path == abs && planned.value[0].before == texts[abs]
              && S.EditText(s, texts[abs], edit.pointer, edit.newValue) == S.Ok(planned.value[0].after)
              && M.Sets(s, texts[abs], [M.Assignment(edit.pointer, edit.newValue)], planned.value[0].after)
    ensures S.ProposeAll(s, resolve, texts, [edit]).Rejected? ==>
              S.ProposeAll(s, resolve, texts, [edit]) == S.Rejected(ProposalRefusal(s, texts, resolve(edit.documentPath), edit))
  {
    hide S.Lawful, S.ProposeAll, S.PlanProposal, S.EditTexts, S.EditText, S.Own, S.ProposalOf, M.Sets, ProposalRefusal, M.Refusal;
    var abs := resolve(edit.documentPath);
    forall path ensures S.Own(resolve, [edit], path) == if abs == path then [edit] else [] {
      OwnOfOne(resolve, edit, path);
    }
    S.ProposeSucceedsIff(s, resolve, texts, [edit]);
    if abs in texts {
      EditOnce(s, texts[abs], edit);
    }
    if S.ProposeAll(s, resolve, texts, [edit]).Rejected? {
      OneProposalRefused(s, resolve, texts, edit);
    }
    if S.ProposeAll(s, resolve, texts, [edit]).Ok? {
      M.EditSets(s, texts[abs], edit.pointer, edit.newValue);
      S.ProposeThenApply(s, resolve, texts, [edit]);
      var plans := S.PlanProposal(s, resolve, texts, S.ProposalOf(s, S.ProposeAll(s, resolve, texts, [edit]).value)).value;
      assert S.Own(resolve, [edit], abs) != [];
      TwoPathsDiffer(plans);
      forall i | 0 <= i < |plans| ensures plans[i].path == abs {
        assert S.Own(resolve, [edit], plans[i].path) != [];
      }
      var k :| 0 <= k < |plans| && plans[k].path == abs;
    }
  }
}
