/**
 The project migration: a proposal is approved, journaled, carried out as two new files, and the journal
 marked completed. A crash may fall anywhere; recovery finishes what the journal says.
 */
module ProjectMigration {
  import opened Common
  import opened DurableDisk
  import opened AtomicWrite

  datatype Slot = Scene | ManifestFile | EvidenceFile | JournalFile | ProposalFile

  datatype Manifest = Manifest(sceneId: string, contents: string)

  /** Digests of serialized values, taken to be injective. */
  datatype ManifestDigest = ManifestDigest(manifest: Manifest)
  datatype ProposalDigest = ProposalDigest(source: Digest<Bytes>, target: Manifest)

  datatype Proposal = Proposal(
    source: Digest<Bytes>, target: Manifest, targetDigest: ManifestDigest, digest: ProposalDigest)

  datatype Evidence = Evidence(source: Digest<Bytes>, targetDigest: ManifestDigest, digest: ProposalDigest)

  datatype Phase = Prepared | Completed

  datatype Bytes =
    | SceneText(text: string)
    | ManifestText(manifest: Manifest)
    | EvidenceText(evidence: Evidence)
    | JournalText(phase: Phase, proposal: Proposal)
    | ProposalText(proposal: Proposal)
    | OtherText(raw: string)

  type Files = map<Slot, Cell<Bytes>>

  /** The schema's part: the scene id a text parses to, and the manifest a legacy scene migrates to. */
  datatype Schema = Schema(sceneId: string -> Option<string>, build: string -> Option<Manifest>)

  /** The manifest built for a scene is the manifest of that scene. */
  ghost predicate Lawful(s: Schema) {
    forall text :: s.build(text).Some? ==> s.sceneId(text) == Some(s.build(text).value.sceneId)
  }

  // ---- parsing -----------------------------------------------------------------------------

  function ProposalFor(source: Digest<Bytes>, target: Manifest): Proposal {
    Proposal(source, target, ManifestDigest(target), ProposalDigest(source, target))
  }

  predicate Genuine(p: Proposal) { p == ProposalFor(p.source, p.target) }

  datatype JournalRead = Absent | Invalid | Valid(phase: Phase, proposal: Proposal)

  function ReadJournal(c: Files): JournalRead {
    if JournalFile !in c then Absent
    else match c[JournalFile]
      case Whole(JournalText(phase, p)) => if Genuine(p) then Valid(phase, p) else Invalid
      case _ => Invalid
  }

  function ReadProposal(c: Files): Option<Proposal> {
    if ProposalFile !in c then None
    else match c[ProposalFile]
      case Whole(ProposalText(p)) => if Genuine(p) then Some(p) else None
      case _ => None
  }

  function EvidenceFor(p: Proposal): Evidence { Evidence(p.source, p.targetDigest, p.digest) }

  predicate RecoveryPending(c: Files) { ReadJournal(c) != Absent && !(ReadJournal(c).Valid? && ReadJournal(c).phase == Completed) }

  // ---- inspection --------------------------------------------------------------------------

  datatype Failure =
    | Malformed | ProposalRequired | ApprovalRequired | ApprovalMismatch | SourceChanged | MutationConflict | RecoveryInvalid | WriteFailed

  datatype Inspection = Legacy(text: string) | Native(text: string, manifest: Manifest) | NotInspectable(why: Failure)

  function Inspect(s: Schema, c: Files): Inspection {
    if Scene !in c then NotInspectable(Malformed)
    else match c[Scene]
      case Whole(SceneText(text)) =>
        if s.sceneId(text).None? then NotInspectable(Malformed)
        else if ManifestFile !in c then Legacy(text)
        else
          (match c[ManifestFile]
           case Whole(ManifestText(m)) => if s.sceneId(text) == Some(m.sceneId) then Native(text, m) else NotInspectable(Malformed)
           case _ => NotInspectable(Malformed))
      case _ => NotInspectable(Malformed)
  }

  function BuildProposal(s: Schema, text: string): Option<Proposal> {
    match s.build(text)
    case Some(m) => Some(ProposalFor(ContentHash(Whole(SceneText(text))), m))
    case None => None
  }

  // ---- where a migration stands ------------------------------------------------------------

  function ManifestCell(p: Proposal): Cell<Bytes> { Whole(ManifestText(p.target)) }
  function EvidenceCell(p: Proposal): Cell<Bytes> { Whole(EvidenceText(EvidenceFor(p))) }
  function JournalCell(phase: Phase, p: Proposal): Cell<Bytes> { Whole(JournalText(phase, p)) }

  predicate AbsentOr(c: Files, t: Slot, cell: Cell<Bytes>) { t in c ==> c[t] == cell }

  /** Nothing on disk contradicts the proposal. */
  predicate Ready(p: Proposal, c: Files) {
    && Genuine(p)
    && Scene in c && ContentHash(c[Scene]) == p.source
    && AbsentOr(c, ManifestFile, ManifestCell(p)) && AbsentOr(c, EvidenceFile, EvidenceCell(p))
  }

  /** The migration is journaled, and a completed journal has both its files. */
  predicate Underway(p: Proposal, c: Files) {
    && Ready(p, c) && ReadJournal(c).Valid? && ReadJournal(c).proposal == p
    && (ReadJournal(c).phase == Completed ==> ManifestFile in c && EvidenceFile in c)
  }

  /** The one state a migration ends in. */
  function Final(p: Proposal, c: Files): Files {
    c[ManifestFile := ManifestCell(p)][EvidenceFile := EvidenceCell(p)][JournalFile := JournalCell(Completed, p)]
  }

  function Journaled(p: Proposal, c: Files): Files { c[JournalFile := JournalCell(Prepared, p)] }

  /** Part of the way from `c` to the end; the journal says completed only at the end. */
  ghost predicate Towards(p: Proposal, c: Files, c': Files) {
    && (forall t :: SameAt(c, c', t) || SameAt(Final(p, c), c', t))
    && (!SameAt(c, c', JournalFile) ==> c' == Final(p, c))
  }

  /** The files still to be written. */
  function Missing(p: Proposal, c: Files): seq<Plan<Slot, Bytes>> {
    (if ManifestFile !in c then [Plan(ManifestFile, ManifestText(p.target), None, true)] else [])
    + (if EvidenceFile !in c then [Plan(EvidenceFile, EvidenceText(EvidenceFor(p)), None, true)] else [])
  }

  lemma MissingFits(p: Proposal, c: Files)
    ensures Distinct(Missing(p, c)) && AllSatisfied(Missing(p, c), c)
  {
  }

  lemma MissingPlans(p: Proposal, c: Files, c': Files)
    requires Ready(p, c) && ReadJournal(c).Valid? && Between(c, Missing(p, c), c')
    ensures Towards(p, c, c') && SameAt(c, c', JournalFile)
    ensures c' == Overlay(c, Missing(p, c)) ==> c'[JournalFile := JournalCell(Completed, p)] == Final(p, c)
  {
    var plans := Missing(p, c);
    forall t ensures SameAt(c, c', t) || SameAt(Final(p, c), c', t) {
      assert SameAt(c, c', t) || HoldsPlan(plans, c', t);
    }
    assert SameAt(c, c', JournalFile) || HoldsPlan(plans, c', JournalFile);
    if c' == Overlay(c, plans) {
      var done := c'[JournalFile := JournalCell(Completed, p)];
      forall t ensures SameAt(done, Final(p, c), t) {
        OverlayAt(c, plans, t);
        assert ManifestFile !in c ==> plans[0].path == ManifestFile;
        assert EvidenceFile !in c ==> plans[|plans| - 1].path == EvidenceFile;
      }
      SameEverywhere(done, Final(p, c));
    }
  }

  /** From anywhere on the way the migration is still underway, and its end is the same. */
  lemma TowardsKeeps(p: Proposal, c: Files, c': Files)
    requires Underway(p, c) && Towards(p, c, c')
    ensures Underway(p, c') && Final(p, c') == Final(p, c)
  {
    forall t ensures SameAt(Final(p, c'), Final(p, c), t) {
      assert SameAt(c, c', t) || SameAt(Final(p, c), c', t);
    }
    SameEverywhere(Final(p, c'), Final(p, c));
    assert SameAt(c, c', Scene) || SameAt(Final(p, c), c', Scene);
    assert SameAt(c, c', ManifestFile) || SameAt(Final(p, c), c', ManifestFile);
    assert SameAt(c, c', EvidenceFile) || SameAt(Final(p, c), c', EvidenceFile);
  }

  datatype Result = Committed(evidence: Evidence, recovered: bool) | Refused(why: Failure)

  /** What recovery refuses before it writes anything. */
  function RecoveryRefusal(c: Files, expected: Option<ProposalDigest>): Option<Failure> {
    match ReadJournal(c)
    case Absent => Some(ProposalRequired)
    case Invalid => Some(RecoveryInvalid)
    case Valid(_, p) =>
      if expected.Some? && p.digest != expected.value then Some(ApprovalMismatch)
      else if Scene !in c then Some(Malformed)
      else if ContentHash(c[Scene]) != p.source then Some(SourceChanged)
      else if ManifestFile in c && c[ManifestFile] != ManifestCell(p) then Some(MutationConflict)
      else if EvidenceFile in c && c[EvidenceFile] != EvidenceCell(p) then Some(RecoveryInvalid)
      else None
  }

  /** What recovery answers when no step fails: the refusal, or the verdict on the finished project. */
  function RecoveryAnswer(s: Schema, c: Files, expected: Option<ProposalDigest>): Result {
    match RecoveryRefusal(c, expected)
    case Some(why) => Refused(why)
    case None =>
      var journal := ReadJournal(c);
      match Inspect(s, Final(journal.proposal, c))
      case NotInspectable(why) => Refused(why)
      case _ => Committed(EvidenceFor(journal.proposal), journal.phase == Prepared)
  }

  method RecoverLocked(s: Schema, disk: Disk<Slot, Bytes>, expected: Option<ProposalDigest>) returns (r: Result)
    requires disk.Valid() && disk.held == {Operation}
    modifies disk
    ensures disk.Valid() && disk.held == old(disk.held) && StillOpen(old(disk.denied), disk.denied)
    ensures var c := old(disk.files);
            disk.files == c || (RecoveryRefusal(c, expected).None? && Towards(ReadJournal(c).proposal, c, disk.files))
    ensures r == RecoveryAnswer(s, old(disk.files), expected) || (r == Refused(WriteFailed) && disk.failed > old(disk.failed))
    ensures r.Committed? || (disk.failed == old(disk.failed) && RecoveryRefusal(old(disk.files), expected).None?) ==>
              && RecoveryRefusal(old(disk.files), expected).None?
              && disk.files == Final(ReadJournal(old(disk.files)).proposal, old(disk.files))
    ensures !old(disk.alive) ==> disk.files == old(disk.files)
    ensures disk.failed >= old(disk.failed)
    ensures old(disk.Calm()) ==> disk.Calm() && disk.failed == old(disk.failed)
  {
    ghost var c := disk.files;
    var refusal := RecoveryRefusal(disk.files, expected);
    if refusal.Some? {
      return Refused(refusal.value);
    }
    var journal := ReadJournal(disk.files);
    var p := journal.proposal;
    var plans := Missing(p, disk.files);
    var written := AtomicWriteAll(disk, plans, false);
    MissingFits(p, c);
    MissingPlans(p, c, disk.files);
    if !written.Written? {
      return Refused(WriteFailed);
    }
    ghost var mid := disk.files;
    var plan := Plan(JournalFile, JournalText(Completed, p), None, false);
    written := AtomicWriteFile(disk, plan, false);
    if !written.Written? {
      return Refused(WriteFailed);
    }
    var inspected := Inspect(s, disk.files);
    r := if inspected.NotInspectable? then Refused(inspected.why) else Committed(EvidenceFor(p), journal.phase == Prepared);
  }

  // ---- commit ------------------------------------------------------------------------------

  /** Where a commit may stop: untouched, journaled, or on the way to the end. */
  ghost predicate CommitPoint(c: Files, approved: ProposalDigest, c': Files) {
    || c' == c
    || (ReadProposal(c).Some? && ReadProposal(c).value.digest == approved &&
        var p := ReadProposal(c).value;
        if JournalFile in c then RecoveryRefusal(c, Some(approved)).None? && Towards(p, c, c')
        else Proposed(p, c) && (c' == Journaled(p, c) || (Ready(p, c) && Towards(p, Journaled(p, c), c'))))
  }

  /** The scene still is the one the proposal was made from, and no manifest is there yet. */
  predicate Proposed(p: Proposal, c: Files) {
    Genuine(p) && Scene in c && ContentHash(c[Scene]) == p.source && ManifestFile !in c
  }

  lemma SameDigestSameProposal(p: Proposal, q: Proposal)
    requires Genuine(p) && Genuine(q) && p.digest == q.digest
    ensures p == q
  {
  }

  lemma JournaledReads(p: Proposal, c: Files)
    requires Proposed(p, c)
    ensures ReadJournal(Journaled(p, c)) == Valid(Prepared, p)
    ensures RecoveryRefusal(Journaled(p, c), Some(p.digest)).None? ==> Ready(p, c)
    ensures Final(p, Journaled(p, c)) == Final(p, c)
  {
  }

  /** What a commit answers when no step fails. */
  function CommitAnswer(s: Schema, c: Files, approved: ProposalDigest): Result {
    var proposal, inspected := ReadProposal(c), Inspect(s, c);
    if proposal.None? then Refused(ProposalRequired)
    else if proposal.value.digest != approved then Refused(ApprovalMismatch)
    else
      match inspected
      case NotInspectable(why) => Refused(why)
      case Native(_, _) => if JournalFile in c then RecoveryAnswer(s, c, Some(approved)) else Refused(MutationConflict)
      case Legacy(text) =>
        if BuildProposal(s, text).None? || BuildProposal(s, text).value.digest != approved then Refused(SourceChanged)
        else RecoveryAnswer(s, if JournalFile in c then c else Journaled(proposal.value, c), Some(approved))
  }

  lemma AnswersCommitted(s: Schema, c: Files, approved: ProposalDigest)
    ensures RecoveryAnswer(s, c, Some(approved)).Committed? ==>
              && RecoveryRefusal(c, Some(approved)).None?
              && RecoveryAnswer(s, c, Some(approved)).evidence == EvidenceFor(ReadJournal(c).proposal)
    ensures RecoveryRefusal(c, Some(approved)).None? && !Inspect(s, Final(ReadJournal(c).proposal, c)).NotInspectable? ==>
              RecoveryAnswer(s, c, Some(approved)).Committed?
  {
  }

  method CommitLocked(s: Schema, disk: Disk<Slot, Bytes>, approved: ProposalDigest) returns (r: Result)
    requires disk.Valid() && disk.held == {Operation}
    modifies disk
    ensures disk.Valid() && disk.held == old(disk.held) && StillOpen(old(disk.denied), disk.denied)
    ensures CommitPoint(old(disk.files), approved, disk.files)
    ensures r.Committed? ==>
              && ReadProposal(old(disk.files)).Some? && ReadProposal(old(disk.files)).value.digest == approved
              && disk.files == Final(ReadProposal(old(disk.files)).value, old(disk.files))
              && r.evidence == EvidenceFor(ReadProposal(old(disk.files)).value)
    ensures r == CommitAnswer(s, old(disk.files), approved) || (r == Refused(WriteFailed) && disk.failed > old(disk.failed))
    ensures !old(disk.alive) ==> disk.files == old(disk.files)
    ensures disk.failed >= old(disk.failed)
    ensures old(disk.Calm()) ==> disk.Calm() && disk.failed == old(disk.failed)
    ensures disk.failed == old(disk.failed) && Lawful(s) && Reviewed(s, old(disk.files), approved) ==> r.Committed?
  {
    hide Towards, Final, RecoveryRefusal, RecoveryAnswer, Lawful, FirstConflict;
    ghost var c := disk.files;
    var proposal := ReadProposal(disk.files);
    if proposal.None? {
      return Refused(ProposalRequired);
    }
    var p := proposal.value;
    if p.digest != approved {
      return Refused(ApprovalMismatch);
    }
    var inspected := Inspect(s, disk.files);
    if inspected.NotInspectable? {
      return Refused(inspected.why);
    }
    if inspected.Native? {
      if JournalFile !in disk.files {
        return Refused(MutationConflict);
      }
    } else {
      var rebuilt := BuildProposal(s, inspected.text);
      if rebuilt.None? || rebuilt.value.digest != p.digest {
        return Refused(SourceChanged);
      }
      SameDigestSameProposal(rebuilt.value, p);
      if JournalFile !in disk.files {
        var plan := Plan(JournalFile, JournalText(Prepared, p), None, true);
        var written := AtomicWriteFile(disk, plan, false);
        if !written.Written? {
          return Refused(WriteFailed);
        }
        JournaledReads(p, c);
      }
    }
    ghost var mid := disk.files;
    if RecoveryRefusal(mid, Some(approved)).None? {
      AgreedProposal(mid, approved, p);
    }
    AnswersCommitted(s, mid, approved);
    if Lawful(s) && Reviewed(s, c, approved) {
      ReviewedRecovers(s, c, approved, mid);
    }
    r := RecoverLocked(s, disk, Some(approved));
  }

  /** A journal that passes the digest check is the journal of the proposal approved. */
  lemma AgreedProposal(c: Files, approved: ProposalDigest, p: Proposal)
    requires RecoveryRefusal(c, Some(approved)).None? && Genuine(p) && p.digest == approved
    ensures ReadJournal(c).Valid? && ReadJournal(c).proposal == p
  {
    SameDigestSameProposal(ReadJournal(c).proposal, p);
  }

  /** A legacy project whose own proposal has been approved, with nothing in its way. */
  predicate Reviewed(s: Schema, c: Files, approved: ProposalDigest) {
    && ReadProposal(c).Some? && ReadProposal(c).value.digest == approved
    && Inspect(s, c).Legacy? && BuildProposal(s, Inspect(s, c).text) == ReadProposal(c)
    && AbsentOr(c, EvidenceFile, EvidenceCell(ReadProposal(c).value))
    && (JournalFile in c ==> ReadJournal(c).Valid? && ReadJournal(c).proposal == ReadProposal(c).value)
  }

  lemma ReviewedRecovers(s: Schema, c: Files, approved: ProposalDigest, mid: Files)
    requires Lawful(s) && Reviewed(s, c, approved)
    requires mid == if JournalFile in c then c else Journaled(ReadProposal(c).value, c)
    ensures RecoveryRefusal(mid, Some(approved)).None?
    ensures !Inspect(s, Final(ReadProposal(c).value, mid)).NotInspectable?
    ensures Final(ReadProposal(c).value, mid) == Final(ReadProposal(c).value, c)
  {
  }

  /** A proposal built for a scene that stands alone, written and approved, is committed and leaves the native project it proposes. */
  lemma NewProposalCommits(s: Schema, c: Files, text: string)
    requires Lawful(s) && s.build(text).Some?
    requires Scene in c && c[Scene] == Whole(SceneText(text)) && ManifestFile !in c && EvidenceFile !in c && JournalFile !in c
    requires ProposalFile in c && c[ProposalFile] == Whole(ProposalText(BuildProposal(s, text).value))
    ensures var p := BuildProposal(s, text).value;
            && Reviewed(s, c, p.digest) && Unstarted(p, c)
            && CommitAnswer(s, c, p.digest) == Committed(EvidenceFor(p), true)
            && Inspect(s, Final(p, c)) == Native(text, s.build(text).value)
  {
    var p := BuildProposal(s, text).value;
    JournaledReads(p, c);
  }

  /** Recovery refuses for what is on disk, never for a failed write; each reason tells what it found. */
  lemma RefusalsTell(c: Files, expected: Option<ProposalDigest>)
    ensures match RecoveryRefusal(c, expected)
            case Some(ProposalRequired) => JournalFile !in c
            case Some(ApprovalMismatch) => ReadJournal(c).Valid? && expected.Some? && expected.value != ReadJournal(c).proposal.digest
            case Some(Malformed) => Scene !in c
            case Some(SourceChanged) => Scene in c && ReadJournal(c).Valid? && ContentHash(c[Scene]) != ReadJournal(c).proposal.source
            case Some(MutationConflict) => ManifestFile in c && ReadJournal(c).Valid? && c[ManifestFile] != ManifestCell(ReadJournal(c).proposal)
            case Some(RecoveryInvalid) =>
              ReadJournal(c).Invalid? || (EvidenceFile in c && ReadJournal(c).Valid? && c[EvidenceFile] != EvidenceCell(ReadJournal(c).proposal))
            case Some(_) => false
            case None => ReadJournal(c).Valid? && Ready(ReadJournal(c).proposal, c)
  {
  }

  // ---- the operation lock ------------------------------------------------------------------

  ghost predicate RecoverPoint(c: Files, c': Files) {
    c' == c || (RecoveryRefusal(c, None).None? && Towards(ReadJournal(c).proposal, c, c'))
  }

  /** One project root; `pendingCleanup` says the last operation's lock could not be released cleanly. */
  class Migrations {
    const disk: Disk<Slot, Bytes>
    const schema: Schema
    var pendingCleanup: bool

    constructor (disk: Disk<Slot, Bytes>, schema: Schema)
      ensures this.disk == disk && this.schema == schema && !pendingCleanup
    {
      this.disk := disk;
      this.schema := schema;
      this.pendingCleanup := false;
    }

    /** Clean up after the last operation, then take the lock. */
    method Enter() returns (ok: bool)
      requires disk.held == {}
      modifies this`pendingCleanup, disk`held, disk`denied, disk`schedule, disk`alive, disk`failed
      ensures ok ==> !pendingCleanup
      ensures !ok && pendingCleanup ==> old(pendingCleanup)
      ensures disk.held == if ok then {Operation} else {}
      ensures ok ==> disk.denied == old(disk.denied)
      ensures !old(disk.alive) ==> !disk.alive
      ensures disk.failed == old(disk.failed) + if ok then 0 else 1
      ensures old(disk.Calm()) ==> ok && disk.Calm()
    {
      if pendingCleanup {
        ok := disk.Step();
        if !ok {
          return;
        }
        pendingCleanup := false;
      }
      ok := disk.Acquire({Operation});
    }

    method Leave(result: Result) returns (r: Result)
      requires !pendingCleanup && disk.held == {Operation}
      modifies this`pendingCleanup, disk`held, disk`schedule, disk`alive, disk`failed
      ensures disk.held == {}
      ensures r == if pendingCleanup then Refused(WriteFailed) else result
      ensures disk.failed == old(disk.failed) + if pendingCleanup then 1 else 0
      ensures old(disk.Calm()) ==> !pendingCleanup && disk.Calm()
    {
      var released := disk.Release({Operation});
      pendingCleanup := !released;
      r := if released then result else Refused(WriteFailed);
    }

    method Commit(approved: bool, digest: ProposalDigest) returns (r: Result)
      requires disk.Valid() && disk.held == {}
      modifies this`pendingCleanup, disk
      ensures disk.Valid() && disk.held == {}
      ensures CommitPoint(old(disk.files), digest, disk.files)
      ensures !approved ==> r == Refused(ApprovalRequired) && disk.files == old(disk.files)
      ensures r.Committed? ==>
                && ReadProposal(old(disk.files)).Some? && ReadProposal(old(disk.files)).value.digest == digest
                && disk.files == Final(ReadProposal(old(disk.files)).value, old(disk.files))
      ensures approved ==>
                || r == CommitAnswer(schema, old(disk.files), digest)
                || (disk.failed > old(disk.failed) && (r == Refused(WriteFailed) || r == Refused(MutationConflict)))
      ensures approved && disk.failed == old(disk.failed) && Lawful(schema) && Reviewed(schema, old(disk.files), digest) ==> r.Committed?
      ensures approved && Operation !in old(disk.denied) && Operation in disk.denied ==> r == Refused(MutationConflict)
      ensures approved && pendingCleanup ==> disk.failed > old(disk.failed)
      ensures disk.failed >= old(disk.failed)
      ensures old(disk.Calm()) ==> disk.Calm() && disk.failed == old(disk.failed)
    {
      hide CommitPoint, Final, Reviewed, Lawful, CommitAnswer;
      if !approved {
        StaysPut(disk.files, digest);
        return Refused(ApprovalRequired);
      }
      StaysPut(disk.files, digest);
      var entered := Enter();
      if !entered {
        return Refused(MutationConflict);
      }
      r := CommitLocked(schema, disk, digest);
      r := Leave(r);
    }

    method Recover() returns (r: Result)
      requires disk.Valid() && disk.held == {}
      modifies this`pendingCleanup, disk
      ensures disk.Valid() && disk.held == {}
      ensures RecoverPoint(old(disk.files), disk.files)
      ensures r.Committed? ==> ReadJournal(old(disk.files)).Valid? && disk.files == Final(ReadJournal(old(disk.files)).proposal, old(disk.files))
      ensures disk.failed == old(disk.failed) && RecoveryRefusal(old(disk.files), None).None? ==>
                disk.files == Final(ReadJournal(old(disk.files)).proposal, old(disk.files))
      ensures || r == RecoveryAnswer(schema, old(disk.files), None)
              || (disk.failed > old(disk.failed) && (r == Refused(WriteFailed) || r == Refused(MutationConflict)))
      ensures Operation !in old(disk.denied) && Operation in disk.denied ==> r == Refused(MutationConflict)
      ensures pendingCleanup ==> disk.failed > old(disk.failed)
      ensures disk.failed >= old(disk.failed)
      ensures old(disk.Calm()) ==> disk.Calm() && disk.failed == old(disk.failed)
    {
      hide Towards, Final, RecoveryAnswer;
      var entered := Enter();
      if !entered {
        return Refused(MutationConflict);
      }
      r := RecoverLocked(schema, disk, None);
      r := Leave(r);
    }
  }

  lemma StaysPut(c: Files, digest: ProposalDigest)
    ensures CommitPoint(c, digest, c)
  {
  }

  // ---- whole runs --------------------------------------------------------------------------

  datatype Call = Commit(approved: ProposalDigest) | Recover

  ghost predicate Step(c: Files, call: Call, c': Files) {
    match call
    case Commit(approved) => CommitPoint(c, approved, c')
    case Recover => RecoverPoint(c, c')
  }

  /** Not begun: a legacy project with its own proposal on disk. */
  predicate Unstarted(p: Proposal, c: Files) {
    ReadProposal(c) == Some(p) && JournalFile !in c && Proposed(p, c) && Ready(p, c)
  }

  /** Begun from `c0`: underway, towards the end that `c0` determines. */
  predicate Begun(p: Proposal, c0: Files, c: Files) {
    Underway(p, c) && Final(p, c) == Final(p, c0) && ReadProposal(c) == Some(p)
  }

  lemma TowardsKeepsProposal(p: Proposal, c: Files, c': Files)
    requires Towards(p, c, c')
    ensures ReadProposal(c') == ReadProposal(c)
  {
    assert SameAt(c, c', ProposalFile) || SameAt(Final(p, c), c', ProposalFile);
  }

  lemma BegunTowards(p: Proposal, c0: Files, c: Files, c': Files)
    requires Begun(p, c0, c) && Towards(p, c, c')
    ensures Begun(p, c0, c')
  {
    hide Underway, Final, Towards, ReadProposal;
    TowardsKeeps(p, c, c');
    TowardsKeepsProposal(p, c, c');
  }

  lemma JournaledBegins(p: Proposal, c0: Files)
    requires Unstarted(p, c0)
    ensures Begun(p, c0, Journaled(p, c0))
  {
    JournaledReads(p, c0);
  }

  lemma StepBegins(p: Proposal, c0: Files, c: Files, call: Call, c': Files)
    requires Unstarted(p, c0) && (c == c0 || Begun(p, c0, c)) && Step(c, call, c')
    ensures c' == c0 || Begun(p, c0, c')
  {
    hide Final, Towards, Ready;
    if c' != c {
      if c == c0 {
        JournaledBegins(p, c0);
        if c' != Journaled(p, c0) {
          BegunTowards(p, c0, Journaled(p, c0), c');
        }
      } else {
        BegunTowards(p, c0, c, c');
      }
    }
  }

  /**
   Any number of commits and recoveries, each of which may stop anywhere, leave the project untouched
   or underway towards the one end that its first state determines.
   */
  lemma {:induction false} MigrationsConverge(p: Proposal, states: seq<Files>, calls: seq<Call>, k: nat)
    requires |states| == |calls| + 1 && k < |states| && Unstarted(p, states[0])
    requires forall i | 0 <= i < |calls| :: Step(states[i], calls[i], states[i + 1])
    ensures states[k] == states[0] || Begun(p, states[0], states[k])
  {
    hide Step, Begun, Unstarted;
    if k > 0 {
      MigrationsConverge(p, states, calls, k - 1);
      StepBegins(p, states[0], states[k - 1], calls[k - 1], states[k]);
    }
  }

  /** Once begun: recovery never refuses, a completed journal means both files are in place, and finishing changes nothing more. */
  lemma BegunFinishes(p: Proposal, c0: Files, c: Files)
    requires Unstarted(p, c0) && Begun(p, c0, c)
    ensures RecoveryRefusal(c, None).None? && ReadJournal(c).proposal == p
    ensures !RecoveryPending(c) <==> c == Final(p, c0)
    ensures RecoveryRefusal(Final(p, c), None).None? && Final(p, Final(p, c)) == Final(p, c)
    ensures Scene in c && c[Scene] == c0[Scene]
  {
    if !RecoveryPending(c) {
      assert c == Final(p, c);
    }
    assert Scene in Final(p, c) && Final(p, c)[Scene] == Final(p, c0)[Scene];
  }
}
