/** The guard that maps live operations on an order to lifecycle events, and how live runs
    relate to the lifecycle. */
module OrderGuard {
  import opened Common
  import opened OrderFsm
  import Tender

  /** The stored order state; `OtherState` is any text the guard does not know. */
  datatype Stored = SDraft | SPaid | SDone | SInvoiced | SCancel | OtherState
  datatype Op = Pay | PayPart | RefundOp | CancelOp | CloseOp | Comp | Modify | AddLineOp | Fire | OtherOp
  datatype Mode = Off | Observe | Enforce | OtherMode

  datatype Why = Fine | UnknownState | UnknownOperation | Forbidden
  datatype Verdict = Verdict(ok: bool, event: Option<Event>, why: Why)
  datatype Evaluation = Evaluation(blocked: bool, violation: bool, verdict: Option<Verdict>, audited: bool)

  function StateOf(s: Stored): Option<State> {
    match s
    case SDraft => Some(Open)
    case SPaid => Some(Paid)
    case SDone => Some(Closed)
    case SInvoiced => Some(Closed)
    case SCancel => Some(Cancelled)
    case OtherState => None
  }

  function EventOf(op: Op): Option<Event> {
    match op
    case Pay => Some(PayFull)
    case PayPart => Some(PayPartial)
    case RefundOp => Some(Refund)
    case CancelOp => Some(Cancel)
    case CloseOp => Some(Close)
    case Comp => Some(AddLine)
    case Modify => Some(AddLine)
    case AddLineOp => Some(AddLine)
    case Fire => Some(Send)
    case OtherOp => None
  }

  function CheckOperation(s: Stored, op: Op): Verdict {
    if StateOf(s).None? then Verdict(true, None, UnknownState)
    else if EventOf(op).None? then Verdict(true, None, UnknownOperation)
    else if Next(StateOf(s).value, EventOf(op).value).Some? then Verdict(true, EventOf(op), Fine)
    else Verdict(false, EventOf(op), Forbidden)
  }

  function Evaluate(s: Stored, op: Op, mode: Mode): Evaluation {
    if mode == Off then Evaluation(false, false, None, false)
    else
      var v := CheckOperation(s, op);
      if v.ok then Evaluation(false, false, Some(v), false)
      else Evaluation(mode == Enforce, true, Some(v), true)
  }

  /** Only an open order takes tenders, lines, comps and fires, or is cancelled; only a paid
      one is closed; only a paid or closed one is refunded. The guard blocks exactly the
      rest, in enforce mode alone, and what it does not know it lets through. */
  lemma BlocksExactlyWhen(s: Stored, op: Op, mode: Mode)
    ensures Evaluate(s, op, mode).blocked <==>
      mode == Enforce && s != OtherState && op != OtherOp &&
      !(if op == CloseOp then s == SPaid
        else if op == RefundOp then s == SPaid || s == SDone || s == SInvoiced
        else s == SDraft)
    ensures Evaluate(s, op, mode).audited <==> Evaluate(s, op, mode).violation
    ensures mode != Off ==> (Evaluate(s, op, mode).violation <==> Evaluate(s, op, Enforce).blocked)
  {
  }

  /** Which operations stand for each event, and which stored states for each state. */
  lemma MapsMean(op: Op, s: Stored)
    ensures EventOf(op) == Some(PayFull) <==> op == Pay
    ensures EventOf(op) == Some(PayPartial) <==> op == PayPart
    ensures EventOf(op) == Some(Refund) <==> op == RefundOp
    ensures EventOf(op) == Some(Cancel) <==> op == CancelOp
    ensures EventOf(op) == Some(Close) <==> op == CloseOp
    ensures EventOf(op) == Some(Send) <==> op == Fire
    ensures EventOf(op) == Some(AddLine) <==> op == AddLineOp || op == Comp || op == Modify
    ensures EventOf(op) == None <==> op == OtherOp
    ensures StateOf(s) == Some(Open) <==> s == SDraft
    ensures StateOf(s) == Some(Paid) <==> s == SPaid
    ensures StateOf(s) == Some(Closed) <==> s == SDone || s == SInvoiced
    ensures StateOf(s) == Some(Cancelled) <==> s == SCancel
    ensures StateOf(s) == None <==> s == OtherState
  {
  }

  /** The verdict that goes with an evaluation: none when the guard is off; else whether the
      lifecycle allows the event, or why it was not asked. */
  lemma VerdictsMean(s: Stored, op: Op, mode: Mode)
    ensures Evaluate(s, op, mode).verdict.None? <==> mode == Off
    ensures mode != Off ==> var v := Evaluate(s, op, mode).verdict.value;
      && (v.why == UnknownState <==> s == OtherState)
      && (v.why == UnknownOperation <==> s != OtherState && op == OtherOp)
      && (v.why == Forbidden <==> !v.ok)
      && (v.event == if v.why == UnknownState || v.why == UnknownOperation then None else EventOf(op))
      && (!v.ok <==> Evaluate(s, op, mode).violation)
  {
  }

  // ---- live runs -----------------------------------------------------------------------------

  /** How an operation ends once the guard let it pass: the guard runs before the endpoint
      knows. A tender can take part of the bill, and any endpoint can still refuse. */
  datatype Ending = Completed | PartPaid | RefusedLater
  datatype Attempt = Attempt(op: Op, ending: Ending)

  /** A pay that the guard let pass and that did not settle the order. */
  predicate LeavesOpen(a: Attempt) { a.op == Pay && a.ending != Completed }

  /** What an attempt does to the stored state. A fire leaves the order a draft, and a
      refund is a new order that leaves the original as it was. */
  function Effect(s: Stored, a: Attempt): Stored {
    if a.ending == RefusedLater || LeavesOpen(a) then s
    else match a.op
      case Pay => SPaid
      case CancelOp => SCancel
      case CloseOp => SDone
      case _ => s
  }

  /** The stored state after a run of attempts in enforce mode, from an open order. */
  function StateAfter(attempts: seq<Attempt>): Stored {
    if attempts == [] then SDraft
    else
      var s, a := StateAfter(attempts[..|attempts| - 1]), attempts[|attempts| - 1];
      if Evaluate(s, a.op, Enforce).blocked then s else Effect(s, a)
  }

  /** The attempts with a known operation that the guard let pass. */
  function Passed(attempts: seq<Attempt>): seq<Attempt> {
    if attempts == [] then []
    else
      var front, a := attempts[..|attempts| - 1], attempts[|attempts| - 1];
      if Evaluate(StateAfter(front), a.op, Enforce).blocked || a.op == OtherOp
      then Passed(front)
      else Passed(front) + [a]
  }

  lemma {:induction false} StatesKnown(attempts: seq<Attempt>)
    ensures StateAfter(attempts) in {SDraft, SPaid, SDone, SCancel}
  {
    if attempts != [] { StatesKnown(attempts[..|attempts| - 1]); }
  }

  lemma PassesNothing(attempts: seq<Attempt>)
    requires attempts != []
    requires var front, a := attempts[..|attempts| - 1], attempts[|attempts| - 1];
      Evaluate(StateAfter(front), a.op, Enforce).blocked || a.op == OtherOp
    ensures var front := attempts[..|attempts| - 1];
      Passed(attempts) == Passed(front) && StateAfter(attempts) == StateAfter(front)
  {
  }

  lemma PassesOne(attempts: seq<Attempt>)
    requires attempts != []
    requires var front, a := attempts[..|attempts| - 1], attempts[|attempts| - 1];
      !Evaluate(StateAfter(front), a.op, Enforce).blocked && a.op != OtherOp
    ensures var front, a := attempts[..|attempts| - 1], attempts[|attempts| - 1];
      Passed(attempts) == Passed(front) + [a] && StateAfter(attempts) == Effect(StateAfter(front), a)
  {
  }

  lemma FoldLast(log: seq<Event>, e: Event, start: State)
    ensures Fold(log + [e], start) == match Fold(log, start) case None => None case Some(s) => Next(s, e)
  {
    assert (log + [e])[..|log|] == log;
  }

  // ---- the log as it really happened -----------------------------------------------------------

  /** What an attempt amounted to: a part tender is a partial payment, a refused call is
      nothing, and fires are left aside. */
  function Amounted(a: Attempt): Option<Event> {
    if a.ending == RefusedLater || a.op == Fire then None
    else if LeavesOpen(a) then Some(PayPartial)
    else EventOf(a.op)
  }

  function Happened(ops: seq<Attempt>): seq<Event> {
    if ops == [] then []
    else
      var front, a := Happened(ops[..|ops| - 1]), ops[|ops| - 1];
      if Amounted(a).None? then front else front + [Amounted(a).value]
  }

  lemma HappenedLast(ops: seq<Attempt>, a: Attempt)
    ensures Happened(ops + [a]) == if Amounted(a).None? then Happened(ops) else Happened(ops) + [Amounted(a).value]
  {
    assert (ops + [a])[..|ops|] == ops;
  }

  predicate IsRefund(a: Attempt) { a.op == RefundOp && a.ending != RefusedLater }

  /** One attempt that passes, other than a completed refund, moves both states alike. */
  lemma LiveStep(s: Stored, a: Attempt)
    requires s != OtherState && a.op != OtherOp && !IsRefund(a) && !Evaluate(s, a.op, Enforce).blocked
    ensures StateOf(Effect(s, a)) == if Amounted(a).None? then StateOf(s) else Next(StateOf(s).value, Amounted(a).value)
  {
  }

  /** As long as nothing was refunded, what the attempts that passed amounted to is an
      accepted lifecycle log that ends in the state the stored state stands for. */
  lemma {:induction false} LiveRunsFollowLifecycle(attempts: seq<Attempt>)
    requires forall i :: 0 <= i < |Passed(attempts)| && Passed(attempts)[i].op == RefundOp ==>
      Passed(attempts)[i].ending == RefusedLater
    ensures Fold(Happened(Passed(attempts)), Open) == StateOf(StateAfter(attempts))
  {
    hide Row, Evaluate, Effect, Happened, Amounted, Passed, StateAfter;
    if attempts == [] {
      StartsOpen();
    } else {
      var front, a := attempts[..|attempts| - 1], attempts[|attempts| - 1];
      StatesKnown(front);
      if Evaluate(StateAfter(front), a.op, Enforce).blocked || a.op == OtherOp {
        PassesNothing(attempts);
        LiveRunsFollowLifecycle(front);
      } else {
        PassesOne(attempts);
        assert Passed(attempts)[|Passed(front)|] == a;
        assert forall i :: 0 <= i < |Passed(front)| ==> Passed(front)[i] == Passed(attempts)[i];
        LiveRunsFollowLifecycle(front);
        LiveStep(StateAfter(front), a);
        HappenedLast(Passed(front), a);
        if Amounted(a).Some? { FoldLast(Happened(Passed(front)), Amounted(a).value, Open); }
      }
    }
  }

  lemma StartsOpen()
    ensures Fold(Happened(Passed([])), Open) == StateOf(StateAfter([]))
  {
  }

  // ---- the log as the guard reads it -------------------------------------------------------------

  /** The events the guard checked, whatever came of them. */
  function Checked(ops: seq<Attempt>): seq<Event> {
    if ops == [] then []
    else
      var front, a := Checked(ops[..|ops| - 1]), ops[|ops| - 1];
      if EventOf(a.op).None? then front else front + [EventOf(a.op).value]
  }

  lemma CheckedLast(ops: seq<Attempt>, a: Attempt)
    ensures Checked(ops + [a]) == if EventOf(a.op).None? then Checked(ops) else Checked(ops) + [EventOf(a.op).value]
  {
    assert (ops + [a])[..|ops|] == ops;
  }

  predicate AddsLine(op: Op) { op == AddLineOp || op == Comp || op == Modify }

  /** What may still follow an attempt: after a refund, a cancel, or a pay that left the order
      open, nothing; after a fire no other fire and no line; after a close no other close. */
  predicate MayFollow(a: Attempt, b: Attempt) {
    && a.op != RefundOp && a.op != CancelOp && !LeavesOpen(a)
    && (a.op == Fire ==> b.op != Fire && !AddsLine(b.op))
    && (a.op == CloseOp ==> b.op != CloseOp)
  }

  ghost predicate Fits(ops: seq<Attempt>) {
    forall i, j :: 0 <= i < j < |ops| ==> MayFollow(ops[i], ops[j])
  }

  /** What the log so far rules out. */
  datatype Marks = Marks(refunded: bool, cancelled: bool, leftOpen: bool, fired: bool, closed: bool)

  function MarksOf(ops: seq<Attempt>): Marks {
    if ops == [] then Marks(false, false, false, false, false) else Mark(MarksOf(ops[..|ops| - 1]), ops[|ops| - 1])
  }

  function Mark(m: Marks, a: Attempt): Marks {
    Marks(m.refunded || a.op == RefundOp, m.cancelled || a.op == CancelOp, m.leftOpen || LeavesOpen(a),
          m.fired || a.op == Fire, m.closed || a.op == CloseOp)
  }

  predicate Admits(m: Marks, a: Attempt) {
    && !m.refunded && !m.cancelled && !m.leftOpen
    && (m.fired ==> a.op != Fire && !AddsLine(a.op))
    && (m.closed ==> a.op != CloseOp)
  }

  lemma {:induction false} MarksMean(ops: seq<Attempt>, b: Attempt)
    ensures Admits(MarksOf(ops), b) <==> forall i :: 0 <= i < |ops| ==> MayFollow(ops[i], b)
  {
    if ops != [] {
      var n := |ops| - 1;
      MarksMean(ops[..n], b);
      assert forall i :: 0 <= i < n ==> ops[..n][i] == ops[i];
    }
  }

  lemma FitsLast(ops: seq<Attempt>, b: Attempt)
    ensures Fits(ops + [b]) <==> Fits(ops) && Admits(MarksOf(ops), b)
  {
    MarksMean(ops, b);
    hide MayFollow, MarksOf, Admits;
    var all := ops + [b];
    assert all[|ops|] == b;
    if Fits(all) {
      assert forall i, j :: 0 <= i < j < |ops| ==> all[i] == ops[i] && all[j] == ops[j];
      assert forall i :: 0 <= i < |ops| ==> all[i] == ops[i];
    }
  }

  /** The lifecycle state the guard's reading is in. */
  function Reached(m: Marks, s: Stored): State {
    if m.refunded then Refunded
    else if m.cancelled then Cancelled
    else if s == SDraft then (if m.leftOpen then Paid else if m.fired then Sent else Open)
    else if s == SPaid && m.closed then Closed
    else if StateOf(s).Some? then StateOf(s).value else Open
  }

  /** The marks a stored state can go with. */
  ghost predicate Fitting(m: Marks, s: Stored) {
    && s in {SDraft, SPaid, SDone, SCancel}
    && (m.refunded || m.closed ==> s == SPaid || s == SDone)
    && (m.cancelled ==> s == SDraft || s == SCancel)
    && (m.leftOpen ==> s == SDraft)
    && (s == SDone ==> m.closed) && (s == SCancel ==> m.cancelled)
  }

  lemma CheckedStep(m: Marks, s: Stored, a: Attempt)
    requires Fitting(m, s) && a.op != OtherOp && !Evaluate(s, a.op, Enforce).blocked
    ensures Next(Reached(m, s), EventOf(a.op).value)
         == if Admits(m, a) then Some(Reached(Mark(m, a), Effect(s, a))) else None
    ensures Admits(m, a) ==> Fitting(Mark(m, a), Effect(s, a))
  {
  }

  lemma MarksLast(ops: seq<Attempt>, a: Attempt)
    ensures MarksOf(ops + [a]) == Mark(MarksOf(ops), a)
  {
    assert (ops + [a])[..|ops|] == ops;
  }

  lemma {:induction false} CheckedState(attempts: seq<Attempt>)
    ensures var ops := Passed(attempts); var s := StateAfter(attempts);
      && (Fits(ops) ==> Fitting(MarksOf(ops), s))
      && Fold(Checked(ops), Open) == if Fits(ops) then Some(Reached(MarksOf(ops), s)) else None
  {
    hide Row, Evaluate, Effect, Checked, Fits, Fitting, Reached, Passed, StateAfter, MarksOf, Mark, Admits;
    if attempts == [] {
      CheckedNothing();
    } else {
      var front, a := attempts[..|attempts| - 1], attempts[|attempts| - 1];
      CheckedState(front);
      if Evaluate(StateAfter(front), a.op, Enforce).blocked || a.op == OtherOp {
        PassesNothing(attempts);
      } else {
        PassesOne(attempts);
        var ops := Passed(front);
        FitsLast(ops, a);
        CheckedLast(ops, a);
        MarksLast(ops, a);
        KnownHasEvent(a.op);
        FoldLast(Checked(ops), EventOf(a.op).value, Open);
        if Fits(ops) { CheckedStep(MarksOf(ops), StateAfter(front), a); }
      }
    }
  }

  lemma KnownHasEvent(op: Op)
    requires op != OtherOp
    ensures EventOf(op).Some?
  {
  }

  lemma CheckedNothing()
    ensures Passed([]) == [] && Fits([]) && Fitting(MarksOf([]), StateAfter([]))
    ensures Fold(Checked([]), Open) == Some(Reached(MarksOf([]), StateAfter([])))
  {
  }

  /** The guard checks each operation against the stored state only. The events it checked
      form an accepted log exactly when the attempts fit: nothing follows a refund, a cancel
      or a pay that left the order open, no fire or line follows a fire, and no close a close. */
  lemma LiteralLogAcceptedExactlyWhen(attempts: seq<Attempt>)
    ensures Fold(Checked(Passed(attempts)), Open).Some? <==> Fits(Passed(attempts))
  {
    CheckedState(attempts);
  }

  /** Two tenders that share a bill both pass the guard, which checked two full payments. What
      happened was a partial and a full one. */
  lemma SecondTenderIsNotAccepted()
    ensures var both := [Attempt(Pay, PartPaid), Attempt(Pay, Completed)];
      && Passed(both) == both && StateAfter(both) == SPaid
      && Checked(both) == [PayFull, PayFull] && Fold(Checked(both), Open) == None
      && Happened(both) == [PayPartial, PayFull] && Fold(Happened(both), Open) == Some(Paid)
  {
    hide Row, Checked, Happened, Fold, Passed, StateAfter, Evaluate;
    var a, b := Attempt(Pay, PartPaid), Attempt(Pay, Completed);
    TwoPasses(a, b);
    TenderLogs(a, b);
    TenderMoves();
  }

  lemma TenderLogs(a: Attempt, b: Attempt)
    requires a == Attempt(Pay, PartPaid) && b == Attempt(Pay, Completed)
    ensures Checked([a, b]) == [PayFull, PayFull] && Happened([a, b]) == [PayPartial, PayFull]
  {
    assert [a, b][..1] == [a] && [a][..0] == [];
    assert Checked([a]) == [PayFull] && Happened([a]) == [PayPartial];
  }

  lemma TenderMoves()
    ensures Fold([PayFull, PayFull], Open) == None && Fold([PayPartial, PayFull], Open) == Some(Paid)
  {
    assert Next(Open, PayFull) == Some(Paid) && Next(Paid, PayFull) == None && Next(Open, PayPartial) == Some(Open);
    hide Row, Next, Fold;
    FoldLast([], PayFull, Open);
    FoldLast([], PayPartial, Open);
    FoldLast([PayFull], PayFull, Open);
    FoldLast([PayPartial], PayFull, Open);
    FoldNothing(Open);
    assert [] + [PayFull] == [PayFull] && [] + [PayPartial] == [PayPartial];
    assert [PayFull] + [PayFull] == [PayFull, PayFull] && [PayPartial] + [PayFull] == [PayPartial, PayFull];
  }

  lemma FoldNothing(s: State)
    ensures Fold([], s) == Some(s)
  {
  }

  lemma TwoPasses(a: Attempt, b: Attempt)
    requires a.op == Pay && b.op == Pay && LeavesOpen(a) && b.ending == Completed
    ensures Passed([a, b]) == [a, b] && StateAfter([a, b]) == SPaid
  {
    hide Row, Evaluate;
    BlocksExactlyWhen(SDraft, Pay, Enforce);
    assert [a, b][..1] == [a] && [a][..0] == [];
    assert Passed([a]) == [a] && StateAfter([a]) == SDraft;
  }

  /** The second round of an ordinary table is another such log: fire, add, fire. */
  lemma SecondRoundIsNotAccepted()
    ensures var round := [Attempt(Fire, Completed), Attempt(AddLineOp, Completed), Attempt(Fire, Completed)];
      Passed(round) == round && Fold(Checked(round), Open) == None
  {
    hide Row, Evaluate, Fold, Checked;
    var f, l := Attempt(Fire, Completed), Attempt(AddLineOp, Completed);
    var round := [f, l, f];
    assert round[..2] == [f, l] && [f, l][..1] == [f] && [f][..0] == [];
    BlocksExactlyWhen(SDraft, Fire, Enforce);
    BlocksExactlyWhen(SDraft, AddLineOp, Enforce);
    assert Passed([f]) == [f] && StateAfter([f]) == SDraft;
    assert Passed([f, l]) == [f, l] && StateAfter([f, l]) == SDraft;
    assert !MayFollow(round[0], round[1]);
    LiteralLogAcceptedExactlyWhen(round);
  }

  // ---- what the pay route makes of it ------------------------------------------------------------

  /** How the pay route ends a call that passed the guard. */
  function EndingOf(a: Tender.Answer): Ending {
    match a
    case Final => Completed
    case Partial(_) => PartPaid
    case _ => RefusedLater
  }

  function StoredOf(o: Tender.Order): Stored { if o.status.Paid? then SPaid else SDraft }

  /** The stored state of a paid order is what its ending says: a call on an open order that
      is no repeat settles it, takes part of it, or leaves it open. */
  lemma PayRouteEnds(o: Tender.Order, r: Tender.Request)
    requires o.status.Draft? && !Tender.Seen(o.payments, Tender.KeyOf(r))
    ensures var (after, answer) := Tender.PayOn(o, r);
      && StoredOf(after) == Effect(StoredOf(o), Attempt(Pay, EndingOf(answer)))
      && (|after.payments| > |o.payments| <==> EndingOf(answer) != RefusedLater)
  {
    hide Tender.Seen, Tender.Sum;
  }
}
