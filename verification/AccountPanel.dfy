/**
 The account panel's bookkeeping of sessions: which it has issued, which one it shows, and which it
 failed to revoke, and its operations run one at a time through the operation queue.
 */
module AccountPanel {
  import opened Common
  import Q = OperationQueue

  /** A principal object; two of them may name the same session. */
  datatype Principal = Principal(id: nat, sessionId: string)

  datatype SignIn = PortThrew | PortRefused(reason: string) | Granted(principal: Principal)

  datatype SignOut = Revoked | Gone | Failed(reason: string)

  /** What showing a principal comes to: its balance, a refusal, or an exception. */
  datatype View = Shown | Withheld(reason: string) | Throws

  datatype Snapshot = Anonymous | Authenticated(principal: Principal) | Refused(reason: string)

  predicate DistinctSessions(tracked: seq<Principal>) {
    forall i, j | 0 <= i < j < |tracked| :: tracked[i].sessionId != tracked[j].sessionId
  }

  /** The principals of other sessions, in order. */
  function WithoutSession(tracked: seq<Principal>, sessionId: string): (r: seq<Principal>)
    ensures forall p :: p in r <==> p in tracked && p.sessionId != sessionId
    ensures DistinctSessions(tracked) ==> DistinctSessions(r)
  {
    if tracked == [] then []
    else
      var rest := WithoutSession(tracked[1..], sessionId);
      assert forall p | p in rest :: p in tracked[1..];
      assert DistinctSessions(tracked) ==> DistinctSessions(tracked[1..]);
      assert DistinctSessions(tracked) ==> forall p | p in tracked[1..] :: p.sessionId != tracked[0].sessionId;
      if tracked[0].sessionId == sessionId then rest else [tracked[0]] + rest
  }

  class Panel {
    var tracked: seq<Principal>
    var unrevoked: map<Principal, string>
    var held: Option<Principal>
    var shown: Snapshot

    /** What every step keeps: sessions are apart, and only tracked ones are held or have failures. */
    ghost predicate Bound()
      reads this
    {
      DistinctSessions(tracked) && (forall p | p in unrevoked :: p in tracked) && (held.Some? ==> held.value in tracked)
    }

    ghost predicate Valid()
      reads this
    {
      Bound() && (Settled() ==> Alone())
    }

    /** Every tracked session but the held one has a recorded failed revocation. */
    ghost predicate Settled()
      reads this
    {
      forall p | p in tracked :: held == Some(p) || p in unrevoked
    }

    /** An authenticated snapshot shows the held session, and no other is tracked. */
    ghost predicate Alone()
      reads this
    {
      shown.Authenticated? ==> held == Some(shown.principal) && forall p | p in tracked :: p == shown.principal
    }

    constructor (clockValid: bool)
      ensures Valid() && Settled() && tracked == [] && held == None && shown == AnonymousView(clockValid)
    {
      tracked, unrevoked, held := [], map[], None;
      shown := AnonymousView(clockValid);
    }

    /** The same session under a fresh principal replaces the old one and its failure. */
    method Track(principal: Principal)
      requires Bound()
      modifies this`tracked, this`unrevoked, this`held
      ensures Bound()
      ensures forall p :: p in tracked <==> p == principal || (p in old(tracked) && p.sessionId != principal.sessionId)
      ensures forall p :: p in unrevoked <==> p in old(unrevoked) && p.sessionId != principal.sessionId
      ensures forall p | p in unrevoked :: unrevoked[p] == old(unrevoked)[p]
      ensures held == if old(held).Some? && old(held).value.sessionId == principal.sessionId then None else old(held)
    {
      unrevoked := map p | p in unrevoked && p.sessionId != principal.sessionId :: unrevoked[p];
      if held.Some? && held.value.sessionId == principal.sessionId {
        held := None;
      }
      tracked := WithoutSession(tracked, principal.sessionId) + [principal];
    }

    /** Ask the port to end one session: it is gone, or the failure is remembered. */
    method Revoke(principal: Principal, answer: SignOut) returns (failure: Option<string>)
      requires principal in tracked && Bound()
      modifies this`tracked, this`unrevoked, this`held
      ensures Bound() && (failure.Some? <==> answer.Failed?)
      ensures forall p :: p in tracked <==> p in old(tracked) && (p != principal || answer.Failed?)
      ensures forall p :: p in unrevoked <==> if p == principal then answer.Failed? else p in old(unrevoked)
      ensures forall p | p in unrevoked :: unrevoked[p] == if p == principal then answer.reason else old(unrevoked)[p]
      ensures failure.Some? ==> failure.value == answer.reason
      ensures held == old(held) || (held == None && old(held) == Some(principal) && !answer.Failed?)
    {
      if answer.Failed? {
        unrevoked := unrevoked[principal := answer.reason];
        return Some(answer.reason);
      }
      OneOfItsSession(tracked, principal);
      tracked := WithoutSession(tracked, principal.sessionId);
      unrevoked := unrevoked - {principal};
      if held == Some(principal) {
        held := None;
      }
      failure := None;
    }

    /** One of the sessions to be ended could not be, for this reason. */
    ghost static predicate FailureOf(sessions: seq<Principal>, retained: Option<Principal>, answers: Principal -> SignOut, reason: string) {
      exists p :: p in sessions && Some(p) != retained && answers(p) == Failed(reason)
    }

    /** Try to end every tracked session but `retained`. */
    method RevokeAllExcept(retained: Option<Principal>, answers: Principal -> SignOut) returns (failure: Option<string>)
      requires Bound()
      modifies this`tracked, this`unrevoked, this`held
      ensures Bound()
      ensures forall p :: p in tracked <==> p in old(tracked) && (Some(p) == retained || answers(p).Failed?)
      ensures forall p | p in tracked && Some(p) != retained :: p in unrevoked && unrevoked[p] == answers(p).reason
      ensures failure.Some? ==> FailureOf(old(tracked), retained, answers, failure.value)
      ensures forall p | p in unrevoked && Some(p) == retained :: p in old(unrevoked)
      ensures failure.None? <==> forall p | p in old(tracked) && Some(p) != retained :: !answers(p).Failed?
    {
      var all := tracked;
      DistinctElements(all);
      hide Bound, DistinctSessions;
      failure := None;
      for i := 0 to |all|
        invariant Bound()
        invariant forall k | 0 <= k < |all| :: all[k] in tracked <==> k >= i || Some(all[k]) == retained || answers(all[k]).Failed?
        invariant forall p | p in tracked :: p in all
        invariant forall k | 0 <= k < i && all[k] in tracked && Some(all[k]) != retained ::
                    all[k] in unrevoked && unrevoked[all[k]] == answers(all[k]).reason
        invariant forall p | p in unrevoked && Some(p) == retained :: p in old(unrevoked)
        invariant if failure.Some? then FailureOf(all, retained, answers, failure.value)
                  else forall k | 0 <= k < i && Some(all[k]) != retained :: !answers(all[k]).Failed?
      {
        var principal := all[i];
        if Some(principal) != retained {
          var result := Revoke(principal, answers(principal));
          if result.Some? {
            failure := result;
          }
        }
      }
    }

    function ViewOf(principal: Principal, view: View): Snapshot {
      match view
      case Withheld(reason) => Refused(reason)
      case _ => Authenticated(principal)
    }

    static function AnonymousView(clockValid: bool): Snapshot { if clockValid then Anonymous else Refused("clock-invalid") }

    /** Sign in: the new session is tracked and shown, every other one revoked. */
    method SubmitCredentials(answer: SignIn, view: View, answers: Principal -> SignOut) returns (threw: bool)
      requires Valid()
      modifies this
      ensures Valid()
      ensures threw <==> answer.Granted? && view.Throws?
      ensures answer.Granted? && !threw ==>
                && Settled() && held == Some(answer.principal) && answer.principal in tracked
                && (shown.Authenticated? ==> forall p | p in tracked :: p == answer.principal)
                && (shown == Authenticated(answer.principal) <==>
                      view.Shown? && forall p | p in old(tracked) && p.sessionId != answer.principal.sessionId && p != answer.principal :: !answers(p).Failed?)
      ensures !answer.Granted? ==> tracked == old(tracked) && unrevoked == old(unrevoked) && held == old(held)
      ensures answer.PortThrew? ==> shown == Refused("identity-port-failed")
      ensures answer.PortRefused? ==> shown == Refused(answer.reason)
      ensures answer.Granted? && !threw && shown != ViewOf(answer.principal, view) ==>
                shown.Refused? && FailureOf(tracked, Some(answer.principal), answers, shown.reason)
      ensures Settled() <==> if answer.Granted? then !threw else old(Settled())
      ensures threw ==> shown == old(shown) && answer.principal !in unrevoked && held != Some(answer.principal)
      ensures threw ==> forall p :: p in tracked <==> p == answer.principal || (p in old(tracked) && p.sessionId != answer.principal.sessionId)
    {
      threw := false;
      match answer {
        case PortThrew => shown := Refused("identity-port-failed");
        case PortRefused(reason) => shown := Refused(reason);
        case Granted(principal) =>
          Track(principal);
          if view.Throws? {
            return true;
          }
          var next := ViewOf(principal, view);
          var failure := RevokeAllExcept(Some(principal), answers);
          held := Some(principal);
          shown := if failure.Some? then Refused(failure.value) else next;
      }
    }

    /** A failed revocation outranks the balance. */
    method Refresh(view: View, clockValid: bool) returns (threw: bool)
      requires Valid()
      modifies this`shown
      ensures Valid() && (Settled() <==> old(Settled()))
      ensures unrevoked != map[] ==> exists p :: p in unrevoked && shown == Refused(unrevoked[p])
      ensures threw <==> unrevoked == map[] && held.Some? && view.Throws?
      ensures threw ==> shown == old(shown)
      ensures shown.Authenticated? && !threw ==> unrevoked == map[] && held == Some(shown.principal)
      ensures unrevoked == map[] && held.Some? && !threw ==> shown == ViewOf(held.value, view)
      ensures unrevoked == map[] && held.None? ==> shown == AnonymousView(clockValid)
    {
      threw := false;
      if unrevoked != map[] {
        var p :| p in unrevoked;
        shown := Refused(unrevoked[p]);
        return;
      }
      if held.None? {
        shown := AnonymousView(clockValid);
        return;
      }
      if view.Throws? {
        return true;
      }
      shown := ViewOf(held.value, view);
    }

    /** Sign out of everything; whatever could not be revoked is still tracked, with its failure. */
    method SignOutAll(answers: Principal -> SignOut, clockValid: bool) returns (ok: bool)
      requires Valid()
      modifies this
      ensures Valid() && Settled()
      ensures ok <==> tracked == []
      ensures ok <==> forall p | p in old(tracked) :: !answers(p).Failed?
      ensures ok ==> held == None && unrevoked == map[] && shown == AnonymousView(clockValid)
      ensures !ok ==> shown.Refused? && FailureOf(tracked, None, answers, shown.reason)
      ensures forall p | p in tracked :: p in unrevoked && answers(p) == Failed(unrevoked[p])
    {
      var failure := RevokeAllExcept(None, answers);
      ok := failure.None?;
      if ok {
        EmptyOrSomebody(tracked);
        shown := AnonymousView(clockValid);
      } else {
        shown := Refused(failure.value);
      }
    }
  }

  /** A sign-in is granted and showing it throws: its session is tracked, but neither held nor recorded as failed. */
  method ThrowingViewLosesSession(principal: Principal, answers: Principal -> SignOut)
    returns (tracked: seq<Principal>, held: Option<Principal>, unrevoked: map<Principal, string>)
    ensures principal in tracked && held == None && unrevoked == map[]
  {
    var panel := new Panel(true);
    var threw := panel.SubmitCredentials(Granted(principal), Throws, answers);
    tracked, held, unrevoked := panel.tracked, panel.held, panel.unrevoked;
    assert panel.Bound();
  }

  // ---- the panel behind its queue ----------------------------------------------------------

  datatype Operation =
    | SigningIn(answer: SignIn, view: View, answers: Principal -> SignOut)
    | Refreshing(view: View, clockValid: bool)
    | SigningOut(answers: Principal -> SignOut, clockValid: bool)

  /** Whether every tracked session is accounted for after an operation, given whether it was before. */
  predicate SettledBy(operation: Operation, before: bool) {
    match operation
    case SigningIn(answer, view, _) => if answer.Granted? then !view.Throws? else before
    case Refreshing(_, _) => before
    case SigningOut(_, _) => true
  }

  /** The same, read off the operations that have ended. */
  predicate SettledAfter(run: seq<Operation>) {
    run == [] || SettledBy(run[|run| - 1], SettledAfter(run[..|run| - 1]))
  }

  lemma SettledNext(run: seq<Operation>, operation: Operation)
    ensures SettledAfter(run + [operation]) == SettledBy(operation, SettledAfter(run))
  {
    assert (run + [operation])[..|run|] == run;
  }

  class QueuedPanel {
    const queue: Q.Queue
    const panel: Panel
    /** What was admitted, in order. */
    var admitted: seq<Operation>

    /** The operations that have ended. */
    ghost function Ended(): seq<Operation>
      reads this, queue
      requires queue.Valid() && |admitted| == |queue.chain|
    {
      admitted[..|queue.chain| - queue.admitted]
    }

    /** The operations that have ended are the first ones admitted, and they alone decide the bookkeeping. */
    ghost predicate Valid()
      reads this, queue, panel
    {
      && queue.Valid() && panel.Valid() && |admitted| == |queue.chain|
      && (panel.Settled() <==> SettledAfter(Ended()))
    }

    constructor (clockValid: bool)
      ensures Valid() && fresh(queue) && fresh(panel) && admitted == []
    {
      queue := new Q.Queue();
      panel := new Panel(clockValid);
      admitted := [];
    }

    /** Submitted at any time, whether or not an operation is running. */
    method Submit(operation: Operation) returns (ticket: Option<nat>)
      requires Valid()
      modifies this, queue
      ensures Valid() && Ended() == old(Ended())
      ensures ticket.Some? <==> old(queue.admitted) < Q.MAX_QUEUED + 1
      ensures admitted == if ticket.Some? then old(admitted) + [operation] else old(admitted)
    {
      ticket := queue.Submit();
      if ticket.Some? {
        admitted := admitted + [operation];
        assert Ended() == old(Ended());
      }
    }

    /** Begin an operation whose predecessor has ended: it is the next one in order. */
    method Begin(ticket: nat)
      requires Valid() && queue.MayStart(ticket)
      modifies queue`chain
      ensures Valid() && queue.chain == old(queue.chain)[ticket := Q.Running] && ticket == |Ended()| && Ended() == old(Ended())
    {
      queue.Start(ticket);
    }

    /** What an operation does to the panel. */
    method Execute(operation: Operation) returns (threw: bool)
      requires panel.Valid()
      modifies panel
      ensures panel.Valid() && (panel.Settled() <==> SettledBy(operation, old(panel.Settled())))
    {
      match operation
      case SigningIn(answer, view, answers) => threw := panel.SubmitCredentials(answer, view, answers);
      case Refreshing(view, clockValid) => threw := panel.Refresh(view, clockValid);
      case SigningOut(answers, clockValid) =>
        var ok := panel.SignOutAll(answers, clockValid);
        threw := false;
    }

    /** The running operation ends, by returning or by throwing; no other has touched the panel meanwhile. */
    method End(ticket: nat) returns (threw: bool)
      requires Valid() && ticket < |queue.chain| && queue.chain[ticket].Running?
      modifies queue, panel
      ensures Valid() && Ended() == old(Ended()) + [admitted[ticket]] && queue.chain[ticket] == Q.Done(threw)
      ensures ticket + 1 < |queue.chain| ==> queue.MayStart(ticket + 1)
    {
      ghost var ended := Ended();
      threw := Execute(admitted[ticket]);
      SettledNext(ended, admitted[ticket]);
      queue.Finish(ticket, threw);
      assert Ended() == ended + [admitted[ticket]];
    }
  }

  lemma EmptyOrSomebody(tracked: seq<Principal>)
    ensures tracked == [] || exists p :: p in tracked
  {
    if tracked != [] {
      assert tracked[0] in tracked;
    }
  }

  lemma DistinctElements(all: seq<Principal>)
    requires DistinctSessions(all)
    ensures forall i, j | 0 <= i < j < |all| :: all[i] != all[j]
  {
  }

  lemma OneOfItsSession(tracked: seq<Principal>, principal: Principal)
    requires DistinctSessions(tracked) && principal in tracked
    ensures forall p | p in tracked :: p.sessionId == principal.sessionId <==> p == principal
    ensures forall p :: p in WithoutSession(tracked, principal.sessionId) <==> p in tracked && p != principal
  {
  }
}
