/**
 The desktop review session: at most one proposal under review. Staging a prepared proposal awaits the
 document's bytes, so other calls may run between its parts; a revision fence decides whether it may
 still install what it prepared.
 */
module ReviewSession {
  import opened Common

  datatype Phase = Idle | Reviewing | Applied | Rejected | Pending

  datatype Diagnostic = RecoveryFirst | ActiveProposal | NoProposal | Superseded | Operation(code: string)

  datatype Proposal = Proposal(text: string)

  /** A staging in progress: what it would install, and the revision it started from. */
  datatype Ticket = Ticket(started: nat, proposal: Proposal)

  datatype ApplyAnswer =
    | ApplyOk(transactionId: string, recoveryPending: bool)
    | ApplyRefused(code: string)
    | ApplyIndeterminate(transactionId: string, code: string)

  datatype Resolution = Unresolved(code: string) | StillPending | Missing | Settled(completed: bool)

  // ---- the calls as they change the session ------------------------------------------------

  /** What the session holds, but for the stagings underway. */
  datatype View = View(
    root: string, phase: Phase, proposal: Option<Proposal>, pendingRoot: Option<string>, transactionId: Option<string>,
    recoveryPending: bool, history: seq<string>, started: bool, diagnostics: Option<Diagnostic>)
  {
    predicate UnderReview() { phase == Reviewing && proposal.Some? }

    /** The root an apply of what is under review belongs to. */
    function ApplyRoot(): string { pendingRoot.GetOr(root) }

    /** The project root an undo would address: the newest applied one; none once this session's applies are used up. */
    function UndoRoot(): Option<string> {
      if history != [] then Some(history[|history| - 1]) else if started then None else Some(root)
    }

    function Cleared(next: Phase): View {
      this.(phase := next, proposal := None, pendingRoot := None, transactionId := None, recoveryPending := false, diagnostics := None)
    }

    function Telling(why: Diagnostic): View { this.(diagnostics := Some(why)) }

    function Opened(p: Proposal, at: string): View {
      Cleared(Reviewing).(proposal := Some(p), pendingRoot := Some(at))
    }

    /** The apply under review has gone through. */
    function Landed(): View { this.(phase := Applied, history := history + [ApplyRoot()], started := true) }
  }

  datatype Call =
    | Propose(at: string, proposed: Option<Proposal>, conflicts: bool)
    | Install(prepared: Proposal)
    | Refuse(why: Diagnostic)
    | Accept(answer: ApplyAnswer)
    | Reject
    | Refresh(resolution: Resolution)
    | Undo(undone: bool)
    | Redo(redone: bool)

  function After(v: View, call: Call): View {
    match call
    case Propose(at, proposed, conflicts) =>
      if v.recoveryPending then v.Telling(RecoveryFirst)
      else if v.UnderReview() then (if conflicts then v.Cleared(Idle).Telling(Operation("content-hash-conflict")) else v.Telling(ActiveProposal))
      else if proposed.None? then v.Cleared(Idle).Telling(Operation("propose"))
      else v.Opened(proposed.value, at)
    case Install(prepared) => v.Opened(prepared, v.root)
    case Refuse(why) => v.Telling(why)
    case Accept(answer) =>
      if v.recoveryPending then v.Telling(RecoveryFirst)
      else if !v.UnderReview() then v.Telling(NoProposal)
      else (match answer
            case ApplyIndeterminate(id, code) =>
              v.(phase := Pending, recoveryPending := true, transactionId := Some(id)).Telling(Operation(code))
            case ApplyRefused(code) => v.Telling(Operation(code))
            case ApplyOk(id, pending) => v.Landed().(recoveryPending := pending, transactionId := Some(id), diagnostics := None))
    case Reject => if v.recoveryPending then v.Telling(RecoveryFirst) else v.Cleared(Rejected)
    case Refresh(resolution) =>
      if !v.recoveryPending || v.transactionId.None? then v
      else (match resolution
            case Unresolved(code) => v.Telling(Operation(code))
            case StillPending => v.Telling(RecoveryFirst)
            case Missing => v.Telling(Operation("journal-not-found"))
            case Settled(false) =>
              v.(phase := Reviewing, recoveryPending := false, transactionId := None).Telling(Operation("journal-conflict"))
            case Settled(true) =>
              (if v.phase == Pending then v.Landed() else v).(recoveryPending := false, transactionId := None, diagnostics := None))
    case Undo(undone) =>
      if v.UnderReview() || v.UndoRoot().None? || !undone then v
      else v.(history := if v.history == [] then [] else v.history[..|v.history| - 1]).Cleared(Idle)
    case Redo(redone) => if v.UnderReview() || !redone then v else v.Cleared(Idle)
  }

  /** Why a staging may not begin. */
  function BeginRefusal(v: View, admissible: bool): Option<Diagnostic> {
    if v.recoveryPending then Some(RecoveryFirst)
    else if v.UnderReview() then Some(ActiveProposal)
    else if !admissible then Some(Operation("invalid-proposal"))
    else None
  }

  // ---- whole sessions ----------------------------------------------------------------------

  /** The calls of one session; a staging installs only where no review and no recovery is open. */
  ghost predicate Run(states: seq<View>, calls: seq<Call>) {
    && |states| == |calls| + 1
    && states[0] == View(states[0].root, Idle, None, None, None, false, [], false, None)
    && (forall i | 0 <= i < |calls| :: states[i + 1] == After(states[i], calls[i]))
    && (forall i | 0 <= i < |calls| && calls[i].Install? :: states[i].phase != Reviewing && !states[i].recoveryPending)
  }

  /** The root this call opens a review at. */
  function OpensAt(v: View, call: Call): Option<string> {
    match call
    case Propose(at, proposed, _) => if !v.recoveryPending && !v.UnderReview() && proposed.Some? then Some(at) else None
    case Install(_) => Some(v.root)
    case _ => None
  }

  /** The root the last review was opened at. */
  function LastOpened(states: seq<View>, calls: seq<Call>, k: nat): string
    requires k <= |calls| < |states|
  {
    if k == 0 then states[0].root
    else OpensAt(states[k - 1], calls[k - 1]).GetOr(LastOpened(states, calls, k - 1))
  }

  /** An apply goes through here: accepted with success, or found completed after it was left pending. */
  predicate Lands(v: View, call: Call) {
    || (call.Accept? && call.answer.ApplyOk? && v.phase == Reviewing && !v.recoveryPending)
    || (call.Refresh? && call.resolution.Settled? && call.resolution.completed && v.phase == Pending)
  }

  predicate Undoes(v: View, call: Call) {
    call.Undo? && call.undone && v.phase != Reviewing && v.UndoRoot().Some?
  }

  /** The roots of the applies gone through and not undone, each where its review was opened. */
  function Standing(states: seq<View>, calls: seq<Call>, k: nat): seq<string>
    requires k <= |calls| < |states|
  {
    if k == 0 then []
    else
      var before := Standing(states, calls, k - 1);
      Stands(before, states[k - 1], calls[k - 1], LastOpened(states, calls, k - 1))
  }

  function Stands(before: seq<string>, v: View, call: Call, at: string): seq<string> {
    if Lands(v, call) then before + [at]
    else if Undoes(v, call) && before != [] then before[..|before| - 1]
    else before
  }

  predicate Coherent(v: View) {
    && (v.phase == Pending ==> v.recoveryPending)
    && (v.recoveryPending ==> v.transactionId.Some? && v.proposal.Some? && v.phase != Reviewing)
    && (v.phase == Reviewing ==> v.proposal.Some?)
  }

  /** The review was opened at `at`, and `standing` are the roots undo can go back to. */
  predicate Rooted(v: View, at: string, standing: seq<string>) {
    && (v.phase == Reviewing || v.recoveryPending ==> v.pendingRoot == Some(at))
    && v.history == standing && (standing != [] ==> v.started)
  }

  lemma CallKeepsRoots(v: View, call: Call, at: string, standing: seq<string>)
    requires Coherent(v) && Rooted(v, at, standing)
    requires call.Install? ==> v.phase != Reviewing && !v.recoveryPending
    ensures Coherent(After(v, call)) && After(v, call).root == v.root
    ensures Rooted(After(v, call), OpensAt(v, call).GetOr(at), Stands(standing, v, call, at))
    ensures v.started ==> After(v, call).started
  {
    hide View.UndoRoot;
    match call
    case Propose(_, _, _) =>
    case Install(_) =>
    case Refuse(_) =>
    case Accept(_) =>
    case Reject =>
    case Refresh(_) =>
    case Undo(_) =>
    case Redo(_) =>
  }

  /**
   Whatever the calls, a review keeps the root it was opened at until it is decided, also while its apply
   is pending, and the history is the roots of the standing applies.
   */
  lemma {:induction false} RootsAreKept(states: seq<View>, calls: seq<Call>, k: nat)
    requires Run(states, calls) && k <= |calls|
    ensures Coherent(states[k]) && states[k].root == states[0].root
    ensures Rooted(states[k], LastOpened(states, calls, k), Standing(states, calls, k))
  {
    hide After, Stands, OpensAt, Coherent, Rooted;
    if k > 0 {
      RootsAreKept(states, calls, k - 1);
      CallKeepsRoots(states[k - 1], calls[k - 1], LastOpened(states, calls, k - 1), Standing(states, calls, k - 1));
      assert states[k] == After(states[k - 1], calls[k - 1]);
    } else {
      NewIsRooted(states[0]);
    }
  }

  lemma NewIsRooted(v: View)
    requires v == View(v.root, Idle, None, None, None, false, [], false, None)
    ensures Coherent(v) && Rooted(v, v.root, [])
  {
  }

  /** When an apply goes through, directly or by a recovery that completes, undo addresses the root it was proposed at. */
  lemma LandedIsUndoneFirst(states: seq<View>, calls: seq<Call>, k: nat)
    requires Run(states, calls) && k < |calls| && Lands(states[k], calls[k])
    ensures states[k + 1].UndoRoot() == Some(LastOpened(states, calls, k))
    ensures states[k + 1].history == states[k].history + [LastOpened(states, calls, k)]
  {
    RootsAreKept(states, calls, k);
    RootsAreKept(states, calls, k + 1);
  }

  /** An undo that goes through where applies stand addresses the newest of them and leaves the others. */
  lemma UndoTakesNewest(states: seq<View>, calls: seq<Call>, k: nat)
    requires Run(states, calls) && k < |calls| && Undoes(states[k], calls[k]) && Standing(states, calls, k) != []
    ensures var standing := Standing(states, calls, k);
            && states[k].UndoRoot() == Some(standing[|standing| - 1])
            && Standing(states, calls, k + 1) == standing[..|standing| - 1]
    ensures states[k + 1].started
  {
    hide After, Coherent;
    RootsAreKept(states, calls, k);
    CallKeepsRoots(states[k], calls[k], LastOpened(states, calls, k), Standing(states, calls, k));
    assert states[k + 1] == After(states[k], calls[k]);
  }

  /** With nothing left standing, a session that has applied undoes nothing more. */
  lemma NothingToUndo(states: seq<View>, calls: seq<Call>, k: nat)
    requires Run(states, calls) && k <= |calls| && states[k].started && Standing(states, calls, k) == []
    ensures states[k].UndoRoot() == None && forall call :: !Undoes(states[k], call)
  {
    RootsAreKept(states, calls, k);
  }

  /** Undos one after the other address the standing applies newest first, and no more of them go through than there are. */
  lemma {:induction false} UndosGoBack(states: seq<View>, calls: seq<Call>, k: nat, n: nat)
    requires Run(states, calls) && k + n <= |calls| && Standing(states, calls, k) != []
    requires forall i | k <= i < k + n :: Undoes(states[i], calls[i])
    ensures var standing := Standing(states, calls, k);
            && n <= |standing| && Standing(states, calls, k + n) == standing[..|standing| - n]
            && forall i | k <= i < k + n :: states[i].UndoRoot() == Some(standing[|standing| - 1 - (i - k)])
    ensures states[k + n].started
  {
    hide Undoes, Standing, View.UndoRoot, After;
    var standing := Standing(states, calls, k);
    if n > 0 {
      UndosGoBack(states, calls, k, n - 1);
      if n - 1 == |standing| {
        NothingToUndo(states, calls, k + n - 1);
        assert false;
      }
      UndoTakesNewest(states, calls, k + n - 1);
    } else {
      StandingStarted(states, calls, k);
    }
  }

  lemma StandingStarted(states: seq<View>, calls: seq<Call>, k: nat)
    requires Run(states, calls) && k <= |calls| && Standing(states, calls, k) != []
    ensures states[k].started
  {
    RootsAreKept(states, calls, k);
  }

  // ---- the session -------------------------------------------------------------------------

  class Session {
    const root: string
    var revision: nat
    var phase: Phase
    var proposal: Option<Proposal>
    var pendingRoot: Option<string>
    var transactionId: Option<string>
    var recoveryPending: bool
    var history: seq<string>
    var historyStarted: bool
    var diagnostics: Option<Diagnostic>
    /** The stagings that have begun and not yet ended. */
    var staging: map<nat, Ticket>
    var nextTicket: nat

    function Now(): View
      reads this
    {
      View(root, phase, proposal, pendingRoot, transactionId, recoveryPending, history, historyStarted, diagnostics)
    }

    ghost predicate Consistent()
      reads this
    {
      && (phase == Pending ==> recoveryPending)
      && (recoveryPending ==> transactionId.Some? && proposal.Some?)
      && (phase == Reviewing ==> proposal.Some? && !recoveryPending)
    }

    /** A staging that began at this revision would overwrite nothing: no review and no recovery is open. */
    ghost predicate Fenced()
      reads this
    {
      forall id | id in staging :: id < nextTicket && staging[id].started <= revision
                                   && (staging[id].started == revision ==> phase != Reviewing && !recoveryPending)
    }

    ghost predicate Valid()
      reads this
    {
      Consistent() && Fenced()
    }

    constructor (root: string)
      ensures Valid() && this.root == root && staging == map[]
      ensures Now() == View(root, Idle, None, None, None, false, [], false, None)
    {
      this.root := root;
      this.revision, this.phase := 0, Idle;
      this.proposal, this.pendingRoot, this.transactionId := None, None, None;
      this.recoveryPending, this.history, this.historyStarted := false, [], false;
      this.diagnostics, this.staging, this.nextTicket := None, map[], 0;
    }

    /** This staging can no longer install anything. */
    predicate Doomed(id: nat)
      reads this
    {
      id in staging ==> staging[id].started < revision
    }

    method Clear(next: Phase)
      requires Fenced()
      modifies this`revision, this`phase, this`proposal, this`pendingRoot, this`transactionId, this`recoveryPending, this`diagnostics
      ensures Fenced() && revision == old(revision) + 1 && phase == next
      ensures Now() == old(Now()).Cleared(next)
    {
      revision := revision + 1;
      phase := next;
      proposal := None;
      pendingRoot := None;
      transactionId := None;
      recoveryPending := false;
      diagnostics := None;
    }

    /** `proposed` is what the shared propose service answers for the edit, `conflict` whether the bytes have changed. */
    method ProposeEdit(at: string, proposed: Option<Proposal>, checksHash: bool, conflict: bool)
      requires Valid()
      modifies this
      ensures Valid() && staging == old(staging) && nextTicket == old(nextTicket) && history == old(history)
      ensures revision >= old(revision) && Now() == After(old(Now()), Propose(at, proposed, checksHash && conflict))
      ensures old(recoveryPending) ==> revision == old(revision) && proposal == old(proposal) && phase == old(phase) && diagnostics == Some(RecoveryFirst)
      ensures !old(recoveryPending) && old(phase) == Reviewing ==>
                if checksHash && conflict then phase == Idle && proposal == None
                else revision == old(revision) && proposal == old(proposal) && phase == Reviewing && diagnostics == Some(ActiveProposal)
      ensures !old(recoveryPending) && old(phase) != Reviewing ==>
                proposal == proposed && phase == (if proposed.Some? then Reviewing else Idle)
                && pendingRoot == (if proposed.Some? then Some(at) else None)
    {
      if recoveryPending {
        diagnostics := Some(RecoveryFirst);
        return;
      }
      if phase == Reviewing && proposal.Some? {
        if checksHash && conflict {
          Clear(Idle);
          diagnostics := Some(Operation("content-hash-conflict"));
        } else {
          diagnostics := Some(ActiveProposal);
        }
        return;
      }
      if proposed.None? {
        Clear(Idle);
        diagnostics := Some(Operation("propose"));
        return;
      }
      Clear(Reviewing);
      proposal, pendingRoot := proposed, Some(at);
    }

    // ---- staging a prepared proposal ---------------------------------------------------------

    /** Up to the first await; `admissible` says the proposal is well formed and contained. */
    method StageBegin(prepared: Proposal, admissible: bool) returns (id: Option<nat>)
      requires Valid()
      modifies this`diagnostics, this`staging, this`nextTicket
      ensures Valid()
      ensures id.None? ==> staging == old(staging)
      ensures Now() == match BeginRefusal(old(Now()), admissible) case Some(why) => After(old(Now()), Refuse(why)) case None => old(Now())
      ensures id.Some? <==> !old(recoveryPending) && old(phase) != Reviewing && admissible
      ensures id.Some? ==>
                && id.value !in old(staging) && staging == old(staging)[id.value := Ticket(revision, prepared)]
    {
      if recoveryPending {
        diagnostics := Some(RecoveryFirst);
        return None;
      }
      if phase == Reviewing && proposal.Some? {
        diagnostics := Some(ActiveProposal);
        return None;
      }
      if !admissible {
        diagnostics := Some(Operation("invalid-proposal"));
        return None;
      }
      id := Some(nextTicket);
      staging := staging[nextTicket := Ticket(revision, prepared)];
      nextTicket := nextTicket + 1;
    }

    /** Whatever review came in between the two reads outlives a refusal. */
    method StageRefuse(id: nat, why: Diagnostic)
      requires Valid() && id in staging
      modifies this`diagnostics, this`staging
      ensures Valid() && staging == old(staging) - {id}
      ensures Now() == if old(staging)[id].started == revision then After(old(Now()), Refuse(why)) else old(Now())
    {
      if staging[id].started == revision {
        diagnostics := Some(why);
      }
      staging := staging - {id};
    }

    /** Once the bytes are read: the first check, before the file is closed. */
    method StageCheck(id: nat, aborted: bool, steady: bool) returns (passed: bool)
      requires Valid() && id in staging
      modifies this`diagnostics, this`staging
      ensures Valid()
      ensures passed <==> !aborted && steady && old(staging)[id].started == revision
      ensures staging == if passed then old(staging) else old(staging) - {id}
      ensures Now() == if passed || old(staging)[id].started != revision then old(Now())
                       else After(old(Now()), Refuse(if aborted then Superseded else Operation("content-hash-conflict")))
    {
      if aborted || revision != staging[id].started || recoveryPending {
        StageRefuse(id, Superseded);
        return false;
      }
      if !steady {
        StageRefuse(id, Operation("content-hash-conflict"));
        return false;
      }
      passed := true;
    }

    /** Once the file is closed: the second check, and the installation. */
    method StageInstall(id: nat, aborted: bool) returns (installed: bool)
      requires Valid() && id in staging
      modifies this
      ensures Valid() && staging == old(staging) - {id} && history == old(history)
      ensures installed <==> !aborted && old(staging)[id].started == old(revision)
      ensures installed ==>
                && proposal == Some(old(staging)[id].proposal) && phase == Reviewing && revision > old(revision)
                // it replaced no review and no recovery, and no other staging begun so far can follow it
                && old(phase) != Reviewing && !old(recoveryPending)
                && forall other | other in staging :: Doomed(other)
      ensures Now() == if installed then After(old(Now()), Install(old(staging)[id].proposal))
                       else if old(staging)[id].started == revision then After(old(Now()), Refuse(Superseded)) else old(Now())
      ensures installed ==> pendingRoot == Some(root)
      ensures !installed ==> revision == old(revision)
      ensures old(Doomed(id)) ==> !installed
    {
      if aborted || revision != staging[id].started {
        StageRefuse(id, Superseded);
        return false;
      }
      var prepared := staging[id].proposal;
      staging := staging - {id};
      Clear(Reviewing);
      proposal, pendingRoot := Some(prepared), Some(root);
      installed := true;
    }

    // ---- deciding ------------------------------------------------------------------------------

    method Accept(answer: ApplyAnswer)
      requires Valid()
      modifies this
      ensures Valid() && staging == old(staging) && nextTicket == old(nextTicket) && revision == old(revision)
      ensures Now() == After(old(Now()), Call.Accept(answer)) && pendingRoot == old(pendingRoot)
      ensures old(recoveryPending) || old(phase) != Reviewing ==>
                phase == old(phase) && proposal == old(proposal) && recoveryPending == old(recoveryPending)
                && transactionId == old(transactionId) && history == old(history)
      ensures old(phase) == Reviewing ==>
                && proposal == old(proposal)
                && (answer.ApplyOk? ==> phase == Applied && recoveryPending == answer.recoveryPending && transactionId == Some(answer.transactionId)
                                        && history == old(history) + [old(pendingRoot).GetOr(root)])
                && (answer.ApplyRefused? ==> phase == Reviewing && !recoveryPending && history == old(history))
                && (answer.ApplyIndeterminate? ==> phase == Pending && recoveryPending && transactionId == Some(answer.transactionId)
                                                   && history == old(history))
    {
      if recoveryPending {
        diagnostics := Some(RecoveryFirst);
        return;
      }
      if phase != Reviewing || proposal.None? {
        diagnostics := Some(NoProposal);
        return;
      }
      match answer
      case ApplyIndeterminate(id, code) =>
        phase, recoveryPending, transactionId := Pending, true, Some(id);
        diagnostics := Some(Operation(code));
      case ApplyRefused(code) =>
        diagnostics := Some(Operation(code));
      case ApplyOk(id, pending) =>
        phase := Applied;
        history, historyStarted := history + [pendingRoot.GetOr(root)], true;
        recoveryPending, transactionId := pending, Some(id);
        diagnostics := None;
    }

    method Reject()
      requires Valid()
      modifies this
      ensures Valid() && staging == old(staging) && nextTicket == old(nextTicket) && history == old(history)
      ensures revision >= old(revision) && Now() == After(old(Now()), Call.Reject)
      ensures if old(recoveryPending) then phase == old(phase) && proposal == old(proposal) && recoveryPending
              else phase == Rejected && proposal == None
    {
      if recoveryPending {
        diagnostics := Some(RecoveryFirst);
        return;
      }
      Clear(Rejected);
    }

    /** Ask the journal how the pending transaction ended. */
    method RefreshRecovery(resolution: Resolution)
      requires Valid()
      modifies this
      ensures Valid() && staging == old(staging) && nextTicket == old(nextTicket) && revision == old(revision) && proposal == old(proposal)
      ensures Now() == After(old(Now()), Refresh(resolution)) && pendingRoot == old(pendingRoot)
      ensures !old(recoveryPending) || !resolution.Settled? ==>
                phase == old(phase) && recoveryPending == old(recoveryPending) && transactionId == old(transactionId) && history == old(history)
      ensures old(recoveryPending) && resolution.Settled? ==>
                && !recoveryPending && transactionId == None
                && phase == (if !resolution.completed then Reviewing else if old(phase) == Pending then Applied else old(phase))
                && history == (if resolution.completed && old(phase) == Pending then old(history) + [old(pendingRoot).GetOr(root)] else old(history))
    {
      if !recoveryPending || transactionId.None? {
        return;
      }
      match resolution
      case Unresolved(code) => diagnostics := Some(Operation(code));
      case StillPending => diagnostics := Some(RecoveryFirst);
      case Missing => diagnostics := Some(Operation("journal-not-found"));
      case Settled(completed) =>
        if !completed {
          phase, recoveryPending, transactionId := Reviewing, false, None;
          diagnostics := Some(Operation("journal-conflict"));
        } else {
          if phase == Pending {
            phase := Applied;
            history, historyStarted := history + [pendingRoot.GetOr(root)], true;
          }
          recoveryPending, transactionId, diagnostics := false, None, None;
        }
    }

    function UndoRoot(): Option<string>
      reads this
    {
      Now().UndoRoot()
    }

    /** `undone` is the journal's answer, asked only when there is a root to ask about. */
    method Undo(undone: bool) returns (ok: bool)
      requires Valid()
      modifies this
      ensures Valid() && staging == old(staging) && nextTicket == old(nextTicket) && revision >= old(revision)
      ensures Now() == After(old(Now()), Call.Undo(undone))
      ensures ok <==> old(phase) != Reviewing && old(UndoRoot()).Some? && undone
      ensures old(history) == [] && old(historyStarted) ==> !ok
      ensures old(phase) != Reviewing && undone && (old(history) != [] || !old(historyStarted)) ==> ok
      ensures ok ==> phase == Idle && proposal == None && history == (if old(history) == [] then [] else old(history)[..|old(history)| - 1])
      ensures !ok ==> phase == old(phase) && proposal == old(proposal) && revision == old(revision) && history == old(history)
    {
      if phase == Reviewing && proposal.Some? {
        return false;
      }
      if UndoRoot().None? || !undone {
        return false;
      }
      if history != [] {
        history := history[..|history| - 1];
      }
      Clear(Idle);
      ok := true;
    }

    method Redo(redone: bool) returns (ok: bool)
      requires Valid()
      modifies this
      ensures Valid() && staging == old(staging) && nextTicket == old(nextTicket) && revision >= old(revision) && history == old(history)
      ensures Now() == After(old(Now()), Call.Redo(redone))
      ensures ok <==> old(phase) != Reviewing && redone
      ensures ok ==> phase == Idle && proposal == None
      ensures !ok ==> phase == old(phase) && proposal == old(proposal) && revision == old(revision)
    {
      if phase == Reviewing && proposal.Some? {
        return false;
      }
      if !redone {
        return false;
      }
      Clear(Idle);
      ok := true;
    }
  }
}
