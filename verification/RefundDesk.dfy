/** The refund route as one request at a time sees it: the stored refunds of an
    original order, updated in place. */
module RefundDesk {
  import opened Common
  import OrderGuard
  import opened RefundRules
  import opened RefundResolve
  import opened RefundProtocol

  datatype Response =
    | MissingUuid
    | Duplicate(amountTotal: int)
    | Forbidden
    | Rejected(reason: Reason)
    | Refunded(amountTotal: int)

  class Desk {
    const orig: Original
    var history: seq<Refund>
    var others: map<string, int>   // total by uuid of every order that is no refund of this original

    constructor (orig: Original, others: map<string, int>)
      ensures this.orig == orig && history == [] && this.others == others && Valid()
    {
      this.orig := orig;
      this.others := others;
      history := [];
    }

    ghost predicate Valid()
      reads this
    {
      Safe(orig, history)
    }

    /** A known uuid, of whatever order, answers with that order and changes nothing; then
        the lifecycle guard on the original may forbid the refund; otherwise it is stored
        exactly when it is acceptable, with the payload's worth. */
    method OrderRefund(uuid: string, state: OrderGuard.Stored, mode: OrderGuard.Mode, s: Session,
        payload: seq<PayloadLine>)
      returns (resp: Response)
      requires Valid()
      modifies this`history
      ensures Valid()
      ensures resp.MissingUuid? <==> uuid == ""
      ensures resp.Duplicate? <==> uuid != "" && (uuid in others || HasUuid(old(history), uuid))
      ensures resp.Duplicate? ==>
                || (uuid in others && others[uuid] == resp.amountTotal)
                || (exists i :: 0 <= i < |old(history)| && old(history)[i].uuid == uuid
                                && old(history)[i].amountTotal == resp.amountTotal)
      ensures resp.Forbidden? <==> uuid != "" && uuid !in others && !HasUuid(old(history), uuid)
                                   && OrderGuard.Evaluate(state, OrderGuard.RefundOp, mode).blocked
      ensures resp.Refunded? <==> uuid != "" && uuid !in others && !HasUuid(old(history), uuid)
                                  && !OrderGuard.Evaluate(state, OrderGuard.RefundOp, mode).blocked
                                  && Acceptable(orig, old(history), s, payload)
      ensures resp.Refunded? ==>
                && resp.amountTotal == -ToMinor(Worth(orig, payload), orig.decimals)
                && exists plan :: Resolve(orig, old(history), s, payload) == Success(plan)
                               && history == old(history) + [Stored(uuid, plan)]
      ensures !resp.Refunded? ==> history == old(history)
    {
      hide Resolve, Acceptable, Safe, OrderGuard.Evaluate, ToMinor, Worth;
      if uuid == "" { return MissingUuid; }
      if uuid in others { return Duplicate(others[uuid]); }
      for i := 0 to |history|
        invariant forall j :: 0 <= j < i ==> history[j].uuid != uuid
      {
        if history[i].uuid == uuid { return Duplicate(history[i].amountTotal); }
      }
      if OrderGuard.Evaluate(state, OrderGuard.RefundOp, mode).blocked { return Forbidden; }
      ResolveAccepts(orig, history, s, payload);
      var resolved := ResolveRefundLines(orig, history, s, payload);
      if resolved.Failure? { return Rejected(resolved.error); }
      CoversItself(history);
      CommitIsSafe(orig, history, history, Client(uuid, s, payload, Entered), resolved.value);
      history := history + [Stored(uuid, resolved.value)];
      resp := Refunded(resolved.value.total);
    }
  }
}
