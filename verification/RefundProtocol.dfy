/** Any number of clients refunding one original order. Each request looks its uuid
    up, takes the per-original lock, reads the committed refunds, resolves, writes and
    commits; it can abort at any point, and steps of different clients interleave
    freely. A stored refund may also leave its settled states. */
module RefundProtocol {
  import opened Common
  import opened Rounding
  import opened RefundRules
  import opened RefundResolve

  datatype Phase =
    | Entered
    | Waiting
    | Locked
    | Read(snap: seq<Refund>)
    | Checked(snap: seq<Refund>, plan: Plan)
    | Written(snap: seq<Refund>, plan: Plan)
    | Finished

  datatype Client = Client(uuid: string, session: Session, payload: seq<PayloadLine>, phase: Phase)

  datatype State = State(history: seq<Refund>, holder: Option<nat>, clients: seq<Client>)

  datatype Step =
    | LookUp(c: nat)
    | Lock(c: nat)
    | ReadCommitted(c: nat)
    | Check(c: nat)
    | Write(c: nat)
    | Commit(c: nat)
    | Abort(c: nat)
    | Unsettle(r: nat)

  predicate HasUuid(history: seq<Refund>, uuid: string) {
    exists i :: 0 <= i < |history| && history[i].uuid == uuid
  }

  predicate InTransaction(p: Phase) {
    p.Locked? || p.Read? || p.Checked? || p.Written?
  }

  function Move(s: State, c: nat, p: Phase): State
    requires c < |s.clients|
  {
    s.(clients := s.clients[c := s.clients[c].(phase := p)])
  }

  /** End of transaction: the advisory lock goes with it. */
  function Finish(s: State, c: nat): State
    requires c < |s.clients|
  {
    Move(s, c, Finished).(holder := if s.holder == Some(c) then None else s.holder)
  }

  function Stored(uuid: string, plan: Plan): Refund {
    Refund(uuid, plan.lines, plan.total, true)
  }

  /** One step; a step that is not enabled leaves the state alone. */
  function Apply(orig: Original, s: State, step: Step): State {
    if step.Unsettle? then
      if step.r < |s.history| then s.(history := s.history[step.r := s.history[step.r].(settled := false)]) else s
    else if step.c < |s.clients| then ApplyClient(orig, s, step, step.c)
    else s
  }

  function ApplyClient(orig: Original, s: State, step: Step, c: nat): State
    requires !step.Unsettle? && c < |s.clients|
  {
    var me := s.clients[c];
    match step
    case LookUp(_) =>
      if !me.phase.Entered? then s
      else if HasUuid(s.history, me.uuid) then Finish(s, c)
      else Move(s, c, Waiting)
    case Lock(_) =>
      if me.phase.Waiting? && s.holder.None? then Move(s, c, Locked).(holder := Some(c)) else s
    case ReadCommitted(_) =>
      if me.phase.Locked? then Move(s, c, Read(s.history)) else s
    case Check(_) =>
      if !me.phase.Read? then s
      else
        var resolved := Resolve(orig, me.phase.snap, me.session, me.payload);
        if resolved.Failure? then Finish(s, c) else Move(s, c, Checked(me.phase.snap, resolved.value))
    case Write(_) =>
      if !me.phase.Checked? then s
      else if HasUuid(s.history, me.uuid) then Finish(s, c)   // unique(uuid) violated
      else Move(s, c, Written(me.phase.snap, me.phase.plan))
    case Commit(_) =>
      if !me.phase.Written? then s
      else Finish(s, c).(history := s.history + [Stored(me.uuid, me.phase.plan)])
    case Abort(_) =>
      if me.phase.Finished? then s else Finish(s, c)
  }

  function Run(orig: Original, s: State, steps: seq<Step>): State {
    if steps == [] then s else Apply(orig, Run(orig, s, steps[..|steps| - 1]), steps[|steps| - 1])
  }

  ghost predicate Initial(s: State) {
    s.history == [] && s.holder.None? && forall i :: 0 <= i < |s.clients| ==> s.clients[i].phase.Entered?
  }

  // ---- the invariant -----------------------------------------------------------

  ghost predicate Ledger(orig: Original, history: seq<Refund>) {
    && (forall i :: 0 <= i < |history| ==> FaithfulPlan(orig, history[i].lines, history[i].amountTotal))
    && (forall i, j :: 0 <= i < j < |history| ==> history[i].uuid != history[j].uuid)
  }

  ghost predicate MoneySafe(orig: Original, history: seq<Refund>) {
    && 0 <= AlreadyMinor(history)
    && (AlreadyMinor(history) > 0 ==> AlreadyMinor(history) <= ToMinor(orig.amountPaid, orig.decimals))
  }

  /** The true quantity refunded on a line is never more than 1.5 units past sold. */
  ghost predicate QuantitySafe(orig: Original, history: seq<Refund>, lid: int) {
    && 0.0 <= AlreadyQty(history, lid)
    && (AlreadyQty(history, lid) > 0.0 ==>
          lid in orig.lines
          && Scaled(AlreadyQty(history, lid), orig.qtyDigits) <= Scaled(orig.lines[lid].qty, orig.qtyDigits) + 1.5)
  }

  ghost predicate Safe(orig: Original, history: seq<Refund>) {
    Ledger(orig, history) && MoneySafe(orig, history) && forall lid :: QuantitySafe(orig, history, lid)
  }

  /** An older reading that counts at least as much as the present history. */
  ghost predicate Covers(snap: seq<Refund>, history: seq<Refund>) {
    && AlreadyMinor(history) <= AlreadyMinor(snap)
    && forall lid :: AlreadyQty(history, lid) <= AlreadyQty(snap, lid)
  }

  lemma CoversItself(history: seq<Refund>)
    ensures Covers(history, history)
  {
  }

  ghost predicate ClientOk(orig: Original, s: State, c: nat)
    requires c < |s.clients|
  {
    var me := s.clients[c];
    && (InTransaction(me.phase) ==> s.holder == Some(c))
    && (me.phase.Read? || me.phase.Checked? || me.phase.Written? ==> Covers(me.phase.snap, s.history))
    && (me.phase.Checked? || me.phase.Written? ==>
          Resolve(orig, me.phase.snap, me.session, me.payload) == Success(me.phase.plan))
    && (me.phase.Written? ==> !HasUuid(s.history, me.uuid))
  }

  ghost predicate Inv(orig: Original, s: State) {
    && Safe(orig, s.history)
    && (s.holder.Some? ==> s.holder.value < |s.clients| && InTransaction(s.clients[s.holder.value].phase))
    && forall c :: 0 <= c < |s.clients| ==> ClientOk(orig, s, c)
  }

  // ---- effect of the two history updates -----------------------------------------

  /** Only settled refunds count. */
  lemma AppendUnsettled(history: seq<Refund>, r: Refund, lid: int)
    requires !r.settled
    ensures AlreadyMinor(history + [r]) == AlreadyMinor(history)
    ensures AlreadyQty(history + [r], lid) == AlreadyQty(history, lid)
  {
    assert (history + [r])[..|history|] == history;
  }

  lemma AppendTotals(history: seq<Refund>, r: Refund, lid: int)
    requires r.settled
    ensures AlreadyMinor(history + [r]) == AlreadyMinor(history) - r.amountTotal
    ensures AlreadyQty(history + [r], lid) == AlreadyQty(history, lid) + LineQty(r.lines, lid)
  {
    assert (history + [r])[..|history|] == history;
  }

  lemma {:induction false} LineQtyNonNegative(orig: Original, lines: seq<RefundLine>, lid: int)
    requires forall i :: 0 <= i < |lines| ==> Faithful(orig, lines[i])
    ensures LineQty(lines, lid) >= 0.0
  {
    if lines != [] { LineQtyNonNegative(orig, lines[..|lines| - 1], lid); }
  }

  lemma {:induction false} UnsettleTotals(orig: Original, history: seq<Refund>, r: nat, lid: int)
    requires Ledger(orig, history) && r < |history|
    ensures var after := history[r := history[r].(settled := false)];
            && 0 <= AlreadyMinor(after) <= AlreadyMinor(history)
            && 0.0 <= AlreadyQty(after, lid) <= AlreadyQty(history, lid)
  {
    hide Faithful, ToMinor;
    var n := |history| - 1;
    var after := history[r := history[r].(settled := false)];
    forall i | 0 <= i < |history| ensures LineQty(history[i].lines, lid) >= 0.0 {
      LineQtyNonNegative(orig, history[i].lines, lid);
    }
    TotalsNonNegative(history[..n], lid);
    if r < n {
      UnsettleTotals(orig, history[..n], r, lid);
      assert after[..n] == history[..n][r := history[r].(settled := false)];
    } else {
      assert after[..n] == history[..n];
    }
  }

  lemma {:induction false} TotalsNonNegative(history: seq<Refund>, lid: int)
    requires forall i :: 0 <= i < |history| ==> history[i].amountTotal < 0 && LineQty(history[i].lines, lid) >= 0.0
    ensures AlreadyMinor(history) >= 0 && AlreadyQty(history, lid) >= 0.0
  {
    if history != [] { TotalsNonNegative(history[..|history| - 1], lid); }
  }

  /** The quantity a plan takes from a line is what its payload asked for there. */
  lemma PlanQuantity(orig: Original, snap: seq<Refund>, s: Session, payload: seq<PayloadLine>, lid: int)
    requires Resolve(orig, snap, s, payload).Success?
    ensures AllReadable(orig, payload)
    ensures LineQty(Resolve(orig, snap, s, payload).value.lines, lid) == Asked(orig, payload, lid)
    ensures Asked(orig, payload, lid) > 0.0 ==> Mentions(orig, payload, lid) && lid in orig.lines
  {
    hide RebuildLine, CheckLine, ToMinor;
    CollectMeans(orig, payload);
    AskedNonNegative(orig, payload, lid);
    var rs := Collect(orig, payload).value;
    PlanQuantityPrefix(orig, snap, rs, |rs.order|, lid);
    assert rs.order[..|rs.order|] == rs.order;
  }

  lemma {:induction false} PlanQuantityPrefix(orig: Original, snap: seq<Refund>, rs: Requests, n: nat, lid: int)
    requires Known(orig, rs) && n <= |rs.order|
    requires Rebuild(orig, snap, rs, n).Success?
    ensures LineQty(Rebuild(orig, snap, rs, n).value, lid) == if lid in rs.order[..n] then rs.qty[lid] else 0.0
  {
    hide LineQty, RebuildLine, CheckLine, Rebuild;
    if n == 0 {
      RebuiltNothing(orig, snap, rs);
    } else {
      var l := rs.order[n - 1];
      RebuiltLast(orig, snap, rs, n);
      PlanQuantityPrefix(orig, snap, rs, n - 1, lid);
      RebuiltNames(orig.lines[l], l, rs.qty[l]);
      LineQtyAppend(Rebuild(orig, snap, rs, n - 1).value, RebuildLine(orig.lines[l], l, rs.qty[l]), lid);
      assert rs.order[..n] == rs.order[..n - 1] + [l];
    }
  }

  lemma RebuiltNothing(orig: Original, snap: seq<Refund>, rs: Requests)
    requires Known(orig, rs)
    ensures Rebuild(orig, snap, rs, 0) == Success([]) && forall lid :: LineQty([], lid) == 0.0
  {
  }

  lemma RebuiltLast(orig: Original, snap: seq<Refund>, rs: Requests, n: nat)
    requires Known(orig, rs) && 0 < n <= |rs.order| && Rebuild(orig, snap, rs, n).Success?
    ensures Rebuild(orig, snap, rs, n - 1).Success?
    ensures var l := rs.order[n - 1];
      Rebuild(orig, snap, rs, n).value
      == Rebuild(orig, snap, rs, n - 1).value + [RebuildLine(orig.lines[l], l, rs.qty[l])]
  {
    hide CheckLine, RebuildLine;
  }

  lemma RebuiltNames(ol: OrigLine, lid: int, q: real)
    ensures RebuildLine(ol, lid, q).source == lid && RebuildLine(ol, lid, q).qty == -q
  {
  }

  lemma LineQtyAppend(lines: seq<RefundLine>, rl: RefundLine, lid: int)
    ensures LineQty(lines + [rl], lid) == LineQty(lines, lid) + (if rl.source == lid then -rl.qty else 0.0)
  {
    assert (lines + [rl])[..|lines|] == lines;
  }

  lemma ScaledMonotone(a: real, b: real, digits: nat)
    requires a <= b
    ensures Scaled(a, digits) <= Scaled(b, digits)
  {
  }

  /** Storing a plan that was resolved against a covering snapshot keeps both ceilings. */
  lemma CommitIsSafe(orig: Original, history: seq<Refund>, snap: seq<Refund>, me: Client, plan: Plan)
    requires Safe(orig, history) && Covers(snap, history) && !HasUuid(history, me.uuid)
    requires Resolve(orig, snap, me.session, me.payload) == Success(plan)
    ensures Safe(orig, history + [Stored(me.uuid, plan)])
  {
    hide FaithfulPlan, Acceptable, Scaled, ToMinor, QtyToUnits, Resolve;
    var r := Stored(me.uuid, plan);
    ResolvedIsFaithful(orig, snap, me.session, me.payload);
    AcceptedMoney(orig, snap, me, plan);
    AppendTotals(history, r, 0);
    forall lid ensures QuantitySafe(orig, history + [r], lid) {
      assert QuantitySafe(orig, history, lid);
      AppendTotals(history, r, lid);
      PlanQuantity(orig, snap, me.session, me.payload, lid);
      AskedNonNegative(orig, me.payload, lid);
      if AlreadyQty(history + [r], lid) > 0.0 && Asked(orig, me.payload, lid) > 0.0 {
        AcceptedLine(orig, snap, me, lid);
        var bound := AlreadyQty(snap, lid) + Asked(orig, me.payload, lid);
        ScaledMonotone(AlreadyQty(history + [r], lid), bound, orig.qtyDigits);
      }
    }
  }

  lemma AcceptedMoney(orig: Original, snap: seq<Refund>, me: Client, plan: Plan)
    requires Resolve(orig, snap, me.session, me.payload) == Success(plan)
    ensures 0 < -plan.total
    ensures AlreadyMinor(snap) - plan.total <= ToMinor(orig.amountPaid, orig.decimals)
  {
    hide Resolve;
    ResolveAccepts(orig, snap, me.session, me.payload);
  }

  lemma AcceptedLine(orig: Original, snap: seq<Refund>, me: Client, lid: int)
    requires Resolve(orig, snap, me.session, me.payload).Success?
    requires AllReadable(orig, me.payload)
    requires lid in orig.lines && Mentions(orig, me.payload, lid)
    ensures CheckLineQuantity(QtyToUnits(Asked(orig, me.payload, lid), orig.qtyDigits),
                              QtyToUnits(orig.lines[lid].qty, orig.qtyDigits),
                              QtyToUnits(AlreadyQty(snap, lid), orig.qtyDigits)).ok
    ensures Scaled(AlreadyQty(snap, lid) + Asked(orig, me.payload, lid), orig.qtyDigits)
            <= Scaled(orig.lines[lid].qty, orig.qtyDigits) + 1.5
  {
    hide Resolve;
    ResolveAccepts(orig, snap, me.session, me.payload);
    AcceptedQuantityBound(Asked(orig, me.payload, lid), orig.lines[lid].qty, AlreadyQty(snap, lid), orig.qtyDigits);
  }

  // ---- every run is safe ------------------------------------------------------------

  lemma UnsettleKeepsInv(orig: Original, s: State, r: nat)
    requires Inv(orig, s) && r < |s.history|
    ensures Inv(orig, Apply(orig, s, Unsettle(r)))
  {
    hide FaithfulPlan, Resolve, Scaled, ToMinor;
    var t := Apply(orig, s, Unsettle(r));
    UnsettleTotals(orig, s.history, r, 0);
    forall lid ensures QuantitySafe(orig, t.history, lid) && AlreadyQty(t.history, lid) <= AlreadyQty(s.history, lid) {
      UnsettleTotals(orig, s.history, r, lid);
      ScaledMonotone(AlreadyQty(t.history, lid), AlreadyQty(s.history, lid), orig.qtyDigits);
      assert QuantitySafe(orig, s.history, lid);
    }
    forall uuid ensures HasUuid(t.history, uuid) ==> HasUuid(s.history, uuid) {
      if HasUuid(t.history, uuid) {
        var i :| 0 <= i < |t.history| && t.history[i].uuid == uuid;
        assert s.history[i].uuid == uuid;
      }
    }
    assert forall c :: 0 <= c < |s.clients| ==> ClientOk(orig, s, c) ==> ClientOk(orig, t, c);
  }

  lemma ClientStepKeepsInv(orig: Original, s: State, step: Step, c: nat)
    requires Inv(orig, s) && !step.Unsettle? && c < |s.clients|
    ensures Inv(orig, ApplyClient(orig, s, step, c))
  {
    hide Safe, Resolve;
    var me, t := s.clients[c], ApplyClient(orig, s, step, c);
    assert ClientOk(orig, s, c);
    if step.Commit? && me.phase.Written? {
      CommitIsSafe(orig, s.history, me.phase.snap, me, me.phase.plan);
    }
    forall d | 0 <= d < |s.clients| ensures ClientOk(orig, t, d) {
      assert ClientOk(orig, s, d);
    }
  }

  lemma StepKeepsInv(orig: Original, s: State, step: Step)
    requires Inv(orig, s)
    ensures Inv(orig, Apply(orig, s, step))
  {
    hide Inv;
    if step.Unsettle? {
      if step.r < |s.history| { UnsettleKeepsInv(orig, s, step.r); }
    } else if step.c < |s.clients| {
      ClientStepKeepsInv(orig, s, step, step.c);
    }
  }

  lemma {:induction false} RunKeepsInv(orig: Original, s: State, steps: seq<Step>)
    requires Inv(orig, s)
    ensures Inv(orig, Run(orig, s, steps))
  {
    hide Inv, Apply;
    if steps != [] {
      RunKeepsInv(orig, s, steps[..|steps| - 1]);
      StepKeepsInv(orig, Run(orig, s, steps[..|steps| - 1]), steps[|steps| - 1]);
    }
  }

  /** Over every interleaving: refunded money never passes paid money, no line is
      over-refunded by more than the rounding slack, no uuid is stored twice, and
      every stored line is a faithful negative of a line of this original. */
  lemma EveryInterleavingIsSafe(orig: Original, s: State, steps: seq<Step>)
    requires Initial(s)
    ensures Safe(orig, Run(orig, s, steps).history)
  {
    RunKeepsInv(orig, s, steps);
  }

  // ---- quantities on the grid: no slack at all ---------------------------------------

  ghost predicate GridOriginal(orig: Original) {
    forall l :: l in orig.lines ==> OnGrid(orig.lines[l].qty, orig.qtyDigits)
  }

  ghost predicate GridPayload(orig: Original, payload: seq<PayloadLine>) {
    forall i :: 0 <= i < |payload| && payload[i].qty.Given? ==> OnGrid(payload[i].qty.v, orig.qtyDigits)
  }

  lemma GridSum(a: real, b: real, digits: nat)
    requires OnGrid(a, digits) && OnGrid(b, digits)
    ensures OnGrid(a + b, digits) && OnGrid(-a, digits)
  {
    ScaledAdds(a, b, digits);
    var m, n := Scaled(a, digits).Floor, Scaled(b, digits).Floor;
    assert Scaled(-a, digits) == -Scaled(a, digits);
    assert Scaled(a + b, digits) == (m + n) as real;
    assert Scaled(-a, digits) == (-m) as real;
  }

  lemma {:induction false} AskedOnGrid(orig: Original, payload: seq<PayloadLine>, lid: int)
    requires AllReadable(orig, payload) && GridOriginal(orig) && GridPayload(orig, payload)
    ensures OnGrid(Asked(orig, payload, lid), orig.qtyDigits)
  {
    hide OnGrid;
    var n := |payload| - 1;
    if payload == [] {
      assert OnGrid(0.0, orig.qtyDigits) by { GridZero(orig.qtyDigits); }
    } else {
      assert AllReadable(orig, payload[..n]) && GridPayload(orig, payload[..n]) by {
        assert forall i :: 0 <= i < n ==> payload[..n][i] == payload[i];
      }
      AskedOnGrid(orig, payload[..n], lid);
      var lq := ReadLine(orig, payload[n]).value;
      var raw := if payload[n].qty.Given? then payload[n].qty.v else orig.lines[lq.0].qty;
      GridSum(raw, raw, orig.qtyDigits);
      assert lq.1 == raw || lq.1 == -raw;
      GridSum(Asked(orig, payload[..n], lid), lq.1, orig.qtyDigits);
    }
  }

  lemma GridZero(digits: nat)
    ensures OnGrid(0.0, digits)
  {
    assert Scaled(0.0, digits) == 0.0;
  }

  ghost predicate UnitsSafe(orig: Original, history: seq<Refund>, lid: int) {
    && (forall i :: 0 <= i < |history| ==> OnGrid(LineQty(history[i].lines, lid), orig.qtyDigits))
    && (AlreadyQty(history, lid) > 0.0 ==>
          lid in orig.lines
          && QtyToUnits(AlreadyQty(history, lid), orig.qtyDigits) <= QtyToUnits(orig.lines[lid].qty, orig.qtyDigits))
  }

  lemma {:induction false} AlreadyOnGrid(orig: Original, history: seq<Refund>, lid: int)
    requires forall i :: 0 <= i < |history| ==> OnGrid(LineQty(history[i].lines, lid), orig.qtyDigits)
    ensures OnGrid(AlreadyQty(history, lid), orig.qtyDigits)
  {
    hide OnGrid;
    GridZero(orig.qtyDigits);
    if history != [] {
      var n := |history| - 1;
      AlreadyOnGrid(orig, history[..n], lid);
      GridSum(AlreadyQty(history[..n], lid), LineQty(history[n].lines, lid), orig.qtyDigits);
    }
  }

  lemma UnitsMonotone(a: real, b: real, digits: nat)
    requires a <= b
    ensures QtyToUnits(a, digits) <= QtyToUnits(b, digits)
  {
    ScaledMonotone(a, b, digits);
    RoundHalfEvenMonotone(Scaled(a, digits), Scaled(b, digits));
  }

  lemma CommitKeepsUnits(orig: Original, history: seq<Refund>, snap: seq<Refund>, me: Client, plan: Plan, lid: int)
    requires UnitsSafe(orig, history, lid) && Covers(snap, history) && GridOriginal(orig)
    requires GridPayload(orig, me.payload)
    requires Resolve(orig, snap, me.session, me.payload) == Success(plan)
    ensures UnitsSafe(orig, history + [Stored(me.uuid, plan)], lid)
  {
    hide Resolve, OnGrid, QtyToUnits, Scaled;
    var r := Stored(me.uuid, plan);
    AppendTotals(history, r, lid);
    PlanQuantity(orig, snap, me.session, me.payload, lid);
    AskedNonNegative(orig, me.payload, lid);
    AskedOnGrid(orig, me.payload, lid);
    AlreadyOnGrid(orig, history, lid);
    var asked := Asked(orig, me.payload, lid);
    if asked > 0.0 {
      AcceptedLine(orig, snap, me, lid);
      UnitsMonotone(AlreadyQty(history, lid), AlreadyQty(snap, lid), orig.qtyDigits);
      UnitsAddOnGrid(AlreadyQty(history, lid), asked, orig.qtyDigits);
    }
  }

  lemma UnitsAddOnGrid(a: real, b: real, digits: nat)
    requires OnGrid(a, digits) && OnGrid(b, digits)
    ensures QtyToUnits(a + b, digits) == QtyToUnits(a, digits) + QtyToUnits(b, digits)
  {
    GridSum(a, b, digits);
    ScaledAdds(a, b, digits);
    UnitsOfGridQuantity(a, digits);
    UnitsOfGridQuantity(b, digits);
    UnitsOfGridQuantity(a + b, digits);
  }

  lemma StepKeepsUnits(orig: Original, s: State, step: Step, lid: int)
    requires Inv(orig, s) && GridOriginal(orig) && UnitsSafe(orig, s.history, lid)
    requires forall c :: 0 <= c < |s.clients| ==> GridPayload(orig, s.clients[c].payload)
    ensures UnitsSafe(orig, Apply(orig, s, step).history, lid)
    ensures |Apply(orig, s, step).clients| == |s.clients|
    ensures forall c :: 0 <= c < |s.clients| ==> Apply(orig, s, step).clients[c].payload == s.clients[c].payload
  {
    hide Resolve, OnGrid, QtyToUnits, FaithfulPlan, GridPayload;
    if step.Unsettle? && step.r < |s.history| {
      var after := Apply(orig, s, step).history;
      UnsettleTotals(orig, s.history, step.r, lid);
      UnitsMonotone(AlreadyQty(after, lid), AlreadyQty(s.history, lid), orig.qtyDigits);
    } else if step.Commit? && step.c < |s.clients| && s.clients[step.c].phase.Written? {
      var me := s.clients[step.c];
      assert ClientOk(orig, s, step.c);
      CommitKeepsUnits(orig, s.history, me.phase.snap, me, me.phase.plan, lid);
    }
  }

  lemma {:induction false} RunKeepsUnits(orig: Original, s: State, steps: seq<Step>, lid: int)
    requires Initial(s) && GridOriginal(orig)
    requires forall c :: 0 <= c < |s.clients| ==> GridPayload(orig, s.clients[c].payload)
    ensures UnitsSafe(orig, Run(orig, s, steps).history, lid)
    ensures |Run(orig, s, steps).clients| == |s.clients|
    ensures forall c :: 0 <= c < |s.clients| ==> Run(orig, s, steps).clients[c].payload == s.clients[c].payload
  {
    hide Inv, Apply, GridPayload, OnGrid, QtyToUnits;
    if steps != [] {
      var front := steps[..|steps| - 1];
      RunKeepsUnits(orig, s, front, lid);
      assert Inv(orig, s) by { InitialInv(orig, s); }
      RunKeepsInv(orig, s, front);
      StepKeepsUnits(orig, Run(orig, s, front), steps[|steps| - 1], lid);
    }
  }

  lemma InitialInv(orig: Original, s: State)
    requires Initial(s)
    ensures Inv(orig, s)
  {
  }

  /** With every quantity on the unit grid, refunded units never pass sold units. */
  lemma GridRefundsNeverExceedSold(orig: Original, s: State, steps: seq<Step>, lid: int)
    requires Initial(s) && GridOriginal(orig) && lid in orig.lines && orig.lines[lid].qty >= 0.0
    requires forall c :: 0 <= c < |s.clients| ==> GridPayload(orig, s.clients[c].payload)
    ensures QtyToUnits(AlreadyQty(Run(orig, s, steps).history, lid), orig.qtyDigits)
            <= QtyToUnits(orig.lines[lid].qty, orig.qtyDigits)
  {
    hide Inv, Apply, GridPayload, QtyToUnits;
    RunKeepsUnits(orig, s, steps, lid);
    if AlreadyQty(Run(orig, s, steps).history, lid) <= 0.0 {
      UnitsMonotone(AlreadyQty(Run(orig, s, steps).history, lid), orig.lines[lid].qty, orig.qtyDigits);
    }
  }

  // ---- rounding drift of money --------------------------------------------------------

  function SettledCount(history: seq<Refund>): nat {
    if history == [] then 0
    else SettledCount(history[..|history| - 1]) + (if history[|history| - 1].settled then 1 else 0)
  }

  /** Unrounded money refunded so far. */
  function ExactRefunded(history: seq<Refund>): real {
    if history == [] then 0.0
    else ExactRefunded(history[..|history| - 1])
         + (if history[|history| - 1].settled then -Total(history[|history| - 1].lines) else 0.0)
  }

  /** Settled refunds are counted one by one, and their exact money added up. */
  lemma SettledLaws(front: seq<Refund>, r: Refund)
    ensures SettledCount([]) == 0 && ExactRefunded([]) == 0.0
    ensures SettledCount(front + [r]) == SettledCount(front) + (if r.settled then 1 else 0)
    ensures ExactRefunded(front + [r]) == ExactRefunded(front) - (if r.settled then Total(r.lines) else 0.0)
  {
    assert (front + [r])[..|front|] == front;
  }

  /** n refunds move the money by at most n/2 minor units from the exact amount. */
  lemma {:induction false} DriftIsHalfAUnitPerRefund(orig: Original, history: seq<Refund>)
    requires Ledger(orig, history)
    ensures var drift := AlreadyMinor(history) as real - Scaled(ExactRefunded(history), orig.decimals);
            -0.5 * SettledCount(history) as real <= drift <= 0.5 * SettledCount(history) as real
  {
    hide Faithful;
    if history != [] {
      var n := |history| - 1;
      DriftIsHalfAUnitPerRefund(orig, history[..n]);
      var exact := -Total(history[n].lines);
      ScaledAdds(ExactRefunded(history[..n]), exact, orig.decimals);
      assert FaithfulPlan(orig, history[n].lines, history[n].amountTotal);
    }
  }

  ghost predicate OnlyLine(lines: seq<RefundLine>, lid: int) {
    forall i :: 0 <= i < |lines| ==> lines[i].source == lid
  }

  lemma {:induction false} TotalOfOneLine(orig: Original, lines: seq<RefundLine>, lid: int)
    requires lid in orig.lines && OnlyLine(lines, lid)
    requires forall i :: 0 <= i < |lines| ==> Faithful(orig, lines[i])
    ensures -Total(lines) == Share(orig.lines[lid], orig.lines[lid].subtotalIncl, LineQty(lines, lid))
  {
    hide Share;
    var ol := orig.lines[lid];
    if lines == [] {
      assert Share(ol, ol.subtotalIncl, 0.0) == 0.0 by { ShareAdds(ol, ol.subtotalIncl, 0.0, 0.0); }
    } else {
      var n := |lines| - 1;
      TotalOfOneLine(orig, lines[..n], lid);
      assert Faithful(orig, lines[n]);
      ProportionalIsShare(ol, ol.subtotalIncl, -lines[n].qty, lines[n].subtotalIncl);
      ShareAdds(ol, ol.subtotalIncl, LineQty(lines[..n], lid), -lines[n].qty);
    }
  }

  /** Before rounding, the parts of a split line refund add up to the line's proportional
      amount. */
  lemma {:induction false} SplitRefundStaysProportional(orig: Original, history: seq<Refund>, lid: int)
    requires Ledger(orig, history) && lid in orig.lines
    requires forall i :: 0 <= i < |history| ==> OnlyLine(history[i].lines, lid)
    ensures ExactRefunded(history) == Share(orig.lines[lid], orig.lines[lid].subtotalIncl, AlreadyQty(history, lid))
  {
    hide Share, Faithful, ToMinor;
    var ol := orig.lines[lid];
    if history == [] {
      assert Share(ol, ol.subtotalIncl, 0.0) == 0.0 by { ShareAdds(ol, ol.subtotalIncl, 0.0, 0.0); }
    } else {
      var n := |history| - 1;
      SplitRefundStaysProportional(orig, history[..n], lid);
      assert FaithfulPlan(orig, history[n].lines, history[n].amountTotal);
      TotalOfOneLine(orig, history[n].lines, lid);
      ShareAdds(ol, ol.subtotalIncl, AlreadyQty(history[..n], lid), LineQty(history[n].lines, lid));
    }
  }

  /** Over every interleaving in which only one line is refunded, n settled refunds leave
      the money within n/2 minor units of the line's proportional amount. */
  lemma SplitRefundsStayClose(orig: Original, s: State, steps: seq<Step>, lid: int)
    requires Initial(s) && lid in orig.lines
    requires forall i :: 0 <= i < |Run(orig, s, steps).history| ==> OnlyLine(Run(orig, s, steps).history[i].lines, lid)
    ensures var history := Run(orig, s, steps).history; var ol := orig.lines[lid];
      var exact := Scaled(Share(ol, ol.subtotalIncl, AlreadyQty(history, lid)), orig.decimals);
      var off := AlreadyMinor(history) as real - exact;
      -0.5 * SettledCount(history) as real <= off <= 0.5 * SettledCount(history) as real
  {
    EveryInterleavingIsSafe(orig, s, steps);
    var history := Run(orig, s, steps).history;
    hide Run, Share, Scaled, QuantitySafe, MoneySafe, OnlyLine;
    DriftIsHalfAUnitPerRefund(orig, history);
    SplitRefundStaysProportional(orig, history, lid);
  }

  // ---- undisturbed -----------------------------------------------------------------------------

  function Alone(c: nat): seq<Step> { [LookUp(c), Lock(c), ReadCommitted(c), Check(c), Write(c), Commit(c)] }

  lemma RunLast(orig: Original, s: State, steps: seq<Step>, step: Step)
    ensures Run(orig, s, steps + [step]) == Apply(orig, Run(orig, s, steps), step)
  {
    assert (steps + [step])[..|steps|] == steps;
  }

  lemma RunNone(orig: Original, s: State)
    ensures Run(orig, s, []) == s
  {
  }

  lemma AloneReads(orig: Original, s: State, c: nat) returns (steps: seq<Step>)
    requires c < |s.clients| && s.clients[c].phase.Entered? && s.holder.None?
    requires !HasUuid(s.history, s.clients[c].uuid)
    ensures steps == [LookUp(c), Lock(c), ReadCommitted(c)]
    ensures Run(orig, s, steps) == Move(s, c, Read(s.history)).(holder := Some(c))
  {
    hide Run, HasUuid;
    RunNone(orig, s);
    RunLast(orig, s, [], LookUp(c));
    RunLast(orig, s, [LookUp(c)], Lock(c));
    RunLast(orig, s, [LookUp(c), Lock(c)], ReadCommitted(c));
    assert [] + [LookUp(c)] == [LookUp(c)] && [LookUp(c)] + [Lock(c)] == [LookUp(c), Lock(c)];
    steps := [LookUp(c), Lock(c)] + [ReadCommitted(c)];
    assert Run(orig, s, [LookUp(c)]) == Move(s, c, Waiting);
    assert Run(orig, s, [LookUp(c), Lock(c)]) == Move(s, c, Locked).(holder := Some(c));
  }

  /** A client that nobody disturbs stores its refund exactly when it is acceptable, and
      leaves the refunds as they were otherwise; either way the lock is free again. */
  lemma AloneStoresWhenAcceptable(orig: Original, s: State, c: nat)
    requires c < |s.clients| && s.clients[c].phase.Entered? && s.holder.None?
    requires !HasUuid(s.history, s.clients[c].uuid)
    ensures var me := s.clients[c]; var after := Run(orig, s, Alone(c));
      && after.holder.None? && after.clients == s.clients[c := me.(phase := Finished)]
      && if Acceptable(orig, s.history, me.session, me.payload)
         then |after.history| == |s.history| + 1 && after.history[..|s.history|] == s.history
              && after.history[|s.history|].uuid == me.uuid && after.history[|s.history|].settled
              && after.history[|s.history|].amountTotal == -ToMinor(Worth(orig, me.payload), orig.decimals)
         else after.history == s.history
  {
    hide Run, HasUuid, Resolve, Acceptable, ToMinor, Worth;
    var me := s.clients[c];
    ResolveAccepts(orig, s.history, me.session, me.payload);
    var steps := AloneReads(orig, s, c);
    RunLast(orig, s, steps, Check(c));
    RunLast(orig, s, steps + [Check(c)], Write(c));
    RunLast(orig, s, steps + [Check(c)] + [Write(c)], Commit(c));
    assert Alone(c) == steps + [Check(c)] + [Write(c)] + [Commit(c)];
    var resolved := Resolve(orig, s.history, me.session, me.payload);
    if resolved.Success? {
      assert Run(orig, s, steps + [Check(c)]) == Move(s, c, Checked(s.history, resolved.value)).(holder := Some(c));
      assert Run(orig, s, steps + [Check(c)] + [Write(c)])
        == Move(s, c, Written(s.history, resolved.value)).(holder := Some(c));
    } else {
      assert Run(orig, s, steps + [Check(c)]) == Move(s, c, Finished);
    }
  }
}
