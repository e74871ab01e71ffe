/** The queue behind a panel: operations are admitted up to a bound, and each runs alone once its predecessor has ended. */
module OperationQueue {
  import opened Common

  const MAX_QUEUED := 8

  datatype Stage = Waiting | Running | Done(threw: bool)

  /**
   Every operation waits on the promise of the one admitted before it. `chain` holds the operations
   admitted so far, in order; the tail is its last.
   */
  class Queue {
    var chain: seq<Stage>
    var admitted: nat

    /** Finished operations come first; of the rest only the first may be running. */
    ghost predicate Valid()
      reads this
    {
      && admitted <= |chain| && admitted <= MAX_QUEUED + 1
      && (forall i | 0 <= i < |chain| - admitted :: chain[i].Done?)
      && (forall i | |chain| - admitted <= i < |chain| :: !chain[i].Done?)
      && (forall i | |chain| - admitted < i < |chain| :: chain[i].Waiting?)
    }

    constructor ()
      ensures Valid() && chain == [] && admitted == 0
    {
      chain, admitted := [], 0;
    }

    /** Refused when one operation is executing and eight are waiting. */
    method Submit() returns (ticket: Option<nat>)
      requires Valid()
      modifies this
      ensures Valid()
      ensures ticket.Some? <==> old(admitted) < MAX_QUEUED + 1
      ensures chain == (if ticket.Some? then old(chain) + [Waiting] else old(chain))
      ensures ticket.Some? ==> ticket.value == |old(chain)|
      ensures admitted == if ticket.Some? then old(admitted) + 1 else old(admitted)
    {
      if admitted >= MAX_QUEUED + 1 {
        return None;
      }
      admitted := admitted + 1;
      chain := chain + [Waiting];
      ticket := Some(|chain| - 1);
    }

    /** The promise an operation waits on is resolved when the operation before it has ended, however it ended. */
    predicate MayStart(ticket: nat)
      reads this
    {
      ticket < |chain| && chain[ticket].Waiting? && (ticket == 0 || chain[ticket - 1].Done?)
    }

    method Start(ticket: nat)
      requires Valid() && MayStart(ticket)
      modifies this`chain
      ensures Valid() && chain == old(chain)[ticket := Running]
      // in admission order, and alone
      ensures forall i | 0 <= i < |chain| && i != ticket :: if i < ticket then chain[i].Done? else chain[i].Waiting?
    {
      assert ticket == |chain| - admitted by {
        assert ticket == 0 || chain[ticket - 1].Done?;
      }
      chain := chain[ticket := Running];
    }

    /** Ended, by returning or by throwing: the next one may start. */
    method Finish(ticket: nat, threw: bool)
      requires Valid() && ticket < |chain| && chain[ticket].Running?
      modifies this
      ensures Valid() && chain == old(chain)[ticket := Done(threw)] && admitted == old(admitted) - 1
      ensures ticket + 1 < |chain| ==> MayStart(ticket + 1)
    {
      assert ticket == |chain| - admitted;
      admitted := admitted - 1;
      chain := chain[ticket := Done(threw)];
    }
  }
}
