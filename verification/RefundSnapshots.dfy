/** The refund protocol on a database whose transactions read one snapshot, taken by their
    first query. The per-original lock then orders the commits but refreshes no reading, so
    safety rests on which commits the database refuses. */
module RefundSnapshots {
  import opened Common
  import opened Rounding
  import opened RefundRules
  import opened RefundResolve
  import RefundProtocol

  datatype Phase =
    | Entered
    | Waiting(snap: seq<Refund>)
    | Locked(snap: seq<Refund>)
    | Checked(snap: seq<Refund>, plan: Plan)
    | Finished

  datatype Client = Client(uuid: string, session: Session, payload: seq<PayloadLine>, phase: Phase)

  datatype State = State(history: seq<Refund>, holder: Option<nat>, clients: seq<Client>)

  datatype Step = LookUp(c: nat) | Lock(c: nat) | Check(c: nat) | Commit(c: nat) | Abort(c: nat) | Unsettle(r: nat)

  function Move(s: State, c: nat, p: Phase): State
    requires c < |s.clients|
  {
    s.(clients := s.clients[c := s.clients[c].(phase := p)])
  }

  function Finish(s: State, c: nat): State
    requires c < |s.clients|
  {
    Move(s, c, Finished).(holder := if s.holder == Some(c) then None else s.holder)
  }

  /** A refund of this original was committed after the snapshot. */
  predicate Outdated(snap: seq<Refund>, history: seq<Refund>) { |history| > |snap| }

  type Refusal = (seq<Refund>, seq<Refund>, Plan) -> bool

  /** One step. A refused request starts over as a new client. */
  function Apply(refuses: Refusal, orig: Original, s: State, step: Step): State {
    if step.Unsettle? then
      if step.r < |s.history| then s.(history := s.history[step.r := s.history[step.r].(settled := false)]) else s
    else if step.c < |s.clients| then ApplyClient(refuses, orig, s, step, step.c)
    else s
  }

  function ApplyClient(refuses: Refusal, orig: Original, s: State, step: Step, c: nat): State
    requires !step.Unsettle? && c < |s.clients|
  {
    var me := s.clients[c];
    match step
    case LookUp(_) =>
      if !me.phase.Entered? then s
      else if RefundProtocol.HasUuid(s.history, me.uuid) then Finish(s, c)
      else Move(s, c, Waiting(s.history))
    case Lock(_) =>
      if me.phase.Waiting? && s.holder.None? then Move(s, c, Locked(me.phase.snap)).(holder := Some(c)) else s
    case Check(_) =>
      if !me.phase.Locked? then s
      else
        var resolved := Resolve(orig, me.phase.snap, me.session, me.payload);
        if resolved.Failure? then Finish(s, c) else Move(s, c, Checked(me.phase.snap, resolved.value))
    case Commit(_) =>
      if !me.phase.Checked? then s
      else if RefundProtocol.HasUuid(s.history, me.uuid) then Finish(s, c)   // unique(uuid) violated
      else if Outdated(me.phase.snap, s.history) && refuses(me.phase.snap, s.history, me.phase.plan) then Finish(s, c)
      else Finish(s, c).(history := s.history + [RefundProtocol.Stored(me.uuid, me.phase.plan)])
    case Abort(_) =>
      if me.phase.Finished? then s else Finish(s, c)
  }

  function Run(refuses: Refusal, orig: Original, s: State, steps: seq<Step>): State {
    if steps == [] then s else Apply(refuses, orig, Run(refuses, orig, s, steps[..|steps| - 1]), steps[|steps| - 1])
  }

  ghost predicate Initial(s: State) {
    s.history == [] && s.holder.None? && forall i :: 0 <= i < |s.clients| ==> s.clients[i].phase.Entered?
  }

  // ---- which refusals are needed --------------------------------------------------------------

  /** Storing the plan on top of the history passes the money or a quantity ceiling. */
  ghost predicate Breaks(orig: Original, history: seq<Refund>, plan: Plan) {
    var after := history + [RefundProtocol.Stored("", plan)];
    !RefundProtocol.MoneySafe(orig, after) || !forall lid :: RefundProtocol.QuantitySafe(orig, after, lid)
  }

  /** A client whose commit would break a ceiling on an outdated snapshot, unrefused. */
  ghost predicate Exposed(refuses: Refusal, orig: Original, s: State, c: nat) {
    && c < |s.clients| && s.clients[c].phase.Checked?
    && !RefundProtocol.HasUuid(s.history, s.clients[c].uuid)
    && var p := s.clients[c].phase;
       Outdated(p.snap, s.history) && Breaks(orig, s.history, p.plan) && !refuses(p.snap, s.history, p.plan)
  }

  ghost predicate NeverExposed(refuses: Refusal, orig: Original) {
    forall s: State, steps: seq<Step>, c: nat :: Initial(s) ==> !Exposed(refuses, orig, Run(refuses, orig, s, steps), c)
  }

  ghost predicate AlwaysSafe(refuses: Refusal, orig: Original) {
    forall s: State, steps: seq<Step> :: Initial(s) ==> RefundProtocol.Safe(orig, Run(refuses, orig, s, steps).history)
  }

  predicate HasSnap(p: Phase) { p.Waiting? || p.Locked? || p.Checked? }

  /** A snapshot is either outdated or counts at least what the history counts now. */
  ghost predicate ClientOk(orig: Original, history: seq<Refund>, me: Client) {
    && (HasSnap(me.phase) ==> Outdated(me.phase.snap, history) || RefundProtocol.Covers(me.phase.snap, history))
    && (me.phase.Checked? ==> Resolve(orig, me.phase.snap, me.session, me.payload) == Success(me.phase.plan))
  }

  ghost predicate Inv(orig: Original, s: State) {
    && RefundProtocol.Safe(orig, s.history)
    && forall c :: 0 <= c < |s.clients| ==>
         ClientOk(orig, s.history, s.clients[c])
         && (HasSnap(s.clients[c].phase) ==> |s.clients[c].phase.snap| <= |s.history|)
  }

  lemma UnsettleKeepsInv(orig: Original, s: State, r: nat)
    requires Inv(orig, s) && r < |s.history|
    ensures Inv(orig, s.(history := s.history[r := s.history[r].(settled := false)]))
  {
    var after := s.history[r := s.history[r].(settled := false)];
    UnsettledIsSafe(orig, s.history, r);
    hide RefundProtocol.Safe, Resolve;
    forall snap | RefundProtocol.Covers(snap, s.history) ensures RefundProtocol.Covers(snap, after) {
      UnsettledCovers(orig, s.history, r, snap);
    }
  }

  lemma UnsettledCovers(orig: Original, history: seq<Refund>, r: nat, snap: seq<Refund>)
    requires RefundProtocol.Safe(orig, history) && r < |history| && RefundProtocol.Covers(snap, history)
    ensures RefundProtocol.Covers(snap, history[r := history[r].(settled := false)])
  {
    RefundProtocol.UnsettleTotals(orig, history, r, 0);
    forall lid ensures AlreadyQty(history[r := history[r].(settled := false)], lid) <= AlreadyQty(snap, lid) {
      RefundProtocol.UnsettleTotals(orig, history, r, lid);
    }
  }

  lemma UnsettledIsSafe(orig: Original, history: seq<Refund>, r: nat)
    requires RefundProtocol.Safe(orig, history) && r < |history|
    ensures RefundProtocol.Safe(orig, history[r := history[r].(settled := false)])
  {
    hide FaithfulPlan;
    var lone := RefundProtocol.State(history, None, []);
    assert RefundProtocol.Inv(orig, lone);
    RefundProtocol.UnsettleKeepsInv(orig, lone, r);
  }

  lemma StoredCeilings(orig: Original, history: seq<Refund>, uuid: string, plan: Plan, lid: int)
    ensures var a, b := history + [RefundProtocol.Stored("", plan)], history + [RefundProtocol.Stored(uuid, plan)];
      && (RefundProtocol.MoneySafe(orig, a) <==> RefundProtocol.MoneySafe(orig, b))
      && (RefundProtocol.QuantitySafe(orig, a, lid) <==> RefundProtocol.QuantitySafe(orig, b, lid))
  {
    hide ToMinor, Scaled;
    RefundProtocol.AppendTotals(history, RefundProtocol.Stored("", plan), lid);
    RefundProtocol.AppendTotals(history, RefundProtocol.Stored(uuid, plan), lid);
  }

  lemma BreaksIsUnsafe(orig: Original, history: seq<Refund>, uuid: string, plan: Plan)
    requires Breaks(orig, history, plan)
    ensures !RefundProtocol.Safe(orig, history + [RefundProtocol.Stored(uuid, plan)])
  {
    hide RefundProtocol.MoneySafe, RefundProtocol.QuantitySafe, RefundProtocol.Ledger;
    forall lid: int
      ensures var a, b := history + [RefundProtocol.Stored("", plan)], history + [RefundProtocol.Stored(uuid, plan)];
        && (RefundProtocol.MoneySafe(orig, a) <==> RefundProtocol.MoneySafe(orig, b))
        && (RefundProtocol.QuantitySafe(orig, a, lid) <==> RefundProtocol.QuantitySafe(orig, b, lid))
    {
      StoredCeilings(orig, history, uuid, plan, lid);
    }
    StoredCeilings(orig, history, uuid, plan, 0);
  }

  /** A plan that was resolved against whatever snapshot, and breaks no ceiling, is safe. */
  lemma UnbrokenIsSafe(orig: Original, history: seq<Refund>, snap: seq<Refund>, me: Client, plan: Plan)
    requires RefundProtocol.Safe(orig, history) && !RefundProtocol.HasUuid(history, me.uuid)
    requires Resolve(orig, snap, me.session, me.payload) == Success(plan) && !Breaks(orig, history, plan)
    ensures RefundProtocol.Safe(orig, history + [RefundProtocol.Stored(me.uuid, plan)])
  {
    hide RefundProtocol.MoneySafe, RefundProtocol.QuantitySafe, Resolve, FaithfulPlan;
    ResolvedIsFaithful(orig, snap, me.session, me.payload);
    StoredCeilings(orig, history, me.uuid, plan, 0);
    forall lid ensures RefundProtocol.QuantitySafe(orig, history + [RefundProtocol.Stored(me.uuid, plan)], lid) {
      StoredCeilings(orig, history, me.uuid, plan, lid);
    }
  }

  lemma CommitKeepsSafe(refuses: Refusal, orig: Original, s: State, c: nat)
    requires Inv(orig, s) && c < |s.clients| && s.clients[c].phase.Checked?
    requires !RefundProtocol.HasUuid(s.history, s.clients[c].uuid) && !Exposed(refuses, orig, s, c)
    requires var p := s.clients[c].phase; !(Outdated(p.snap, s.history) && refuses(p.snap, s.history, p.plan))
    ensures RefundProtocol.Safe(orig, s.history + [RefundProtocol.Stored(s.clients[c].uuid, s.clients[c].phase.plan)])
  {
    hide RefundProtocol.Safe, Resolve, RefundProtocol.HasUuid, RefundProtocol.Covers, Breaks;
    var me := s.clients[c];
    assert ClientOk(orig, s.history, me);
    if Outdated(me.phase.snap, s.history) {
      UnbrokenIsSafe(orig, s.history, me.phase.snap, me, me.phase.plan);
    } else {
      var asked := RefundProtocol.Client(me.uuid, me.session, me.payload, RefundProtocol.Entered);
      RefundProtocol.CommitIsSafe(orig, s.history, me.phase.snap, asked, me.phase.plan);
    }
  }

  lemma ClientStepKeepsInv(refuses: Refusal, orig: Original, s: State, step: Step, c: nat)
    requires Inv(orig, s) && !step.Unsettle? && c < |s.clients| && !Exposed(refuses, orig, s, c)
    ensures Inv(orig, ApplyClient(refuses, orig, s, step, c))
  {
    hide RefundProtocol.Safe, Resolve, RefundProtocol.HasUuid, RefundProtocol.Covers, Exposed;
    var me := s.clients[c];
    assert ClientOk(orig, s.history, me);
    if step.Commit? && me.phase.Checked? && !RefundProtocol.HasUuid(s.history, me.uuid)
       && !(Outdated(me.phase.snap, s.history) && refuses(me.phase.snap, s.history, me.phase.plan)) {
      CommitKeepsSafe(refuses, orig, s, c);
    }
    RefundProtocol.CoversItself(s.history);
  }

  lemma {:induction false} RunKeepsInv(refuses: Refusal, orig: Original, s: State, steps: seq<Step>)
    requires NeverExposed(refuses, orig) && Initial(s)
    ensures Inv(orig, Run(refuses, orig, s, steps))
  {
    hide Inv, ApplyClient, Exposed, Initial;
    if steps == [] {
      InitialInv(orig, s);
    } else {
      RunKeepsInv(refuses, orig, s, steps[..|steps| - 1]);
      var before, step := Run(refuses, orig, s, steps[..|steps| - 1]), steps[|steps| - 1];
      if step.Unsettle? {
        if step.r < |before.history| { UnsettleKeepsInv(orig, before, step.r); }
      } else if step.c < |before.clients| {
        ClientStepKeepsInv(refuses, orig, before, step, step.c);
      }
    }
  }

  lemma InitialInv(orig: Original, s: State)
    requires Initial(s)
    ensures Inv(orig, s)
  {
    EmptyIsSafe(orig);
    hide RefundProtocol.Safe;
  }

  lemma EmptyIsSafe(orig: Original)
    ensures RefundProtocol.Safe(orig, [])
  {
  }

  /** Over every run the ceilings hold exactly when no run brings a client to commit a plan
      that breaks one on an outdated snapshot and is not refused. A plan checked against an
      up-to-date snapshot needs no refusal, and one that breaks nothing needs none either. */
  lemma SafeExactlyWhenNeverExposed(refuses: Refusal, orig: Original)
    ensures AlwaysSafe(refuses, orig) <==> NeverExposed(refuses, orig)
  {
    hide Run, RefundProtocol.Safe, Exposed, Initial;
    if NeverExposed(refuses, orig) {
      forall s: State, steps: seq<Step> | Initial(s)
        ensures RefundProtocol.Safe(orig, Run(refuses, orig, s, steps).history)
      {
        RunKeepsInv(refuses, orig, s, steps);
      }
    }
    forall s: State, steps: seq<Step>, c: nat | Initial(s) && Exposed(refuses, orig, Run(refuses, orig, s, steps), c)
      ensures !AlwaysSafe(refuses, orig)
    {
      ExposedCommits(refuses, orig, s, steps, c);
    }
  }

  lemma ExposedCommits(refuses: Refusal, orig: Original, s: State, steps: seq<Step>, c: nat)
    requires Exposed(refuses, orig, Run(refuses, orig, s, steps), c)
    ensures !RefundProtocol.Safe(orig, Run(refuses, orig, s, steps + [Commit(c)]).history)
  {
    hide Run, RefundProtocol.Safe, RefundProtocol.HasUuid, Breaks;
    var now := Run(refuses, orig, s, steps);
    Then(refuses, orig, s, steps, Commit(c));
    BreaksIsUnsafe(orig, now.history, now.clients[c].uuid, now.clients[c].phase.plan);
  }

  /** It is enough to refuse the outdated commits that break a ceiling. */
  lemma RefusingTheBreaksSuffices(refuses: Refusal, orig: Original)
    requires forall snap, history, plan :: Outdated(snap, history) && Breaks(orig, history, plan) ==>
        refuses(snap, history, plan)
    ensures AlwaysSafe(refuses, orig)
  {
    SafeExactlyWhenNeverExposed(refuses, orig);
    hide Run, Breaks, AlwaysSafe, Initial;
  }

  // ---- two refunds at once -------------------------------------------------------------------------

  function TwoClients(u: string, v: string, s: Session, p: seq<PayloadLine>, t: Session, q: seq<PayloadLine>): State {
    State([], None, [Client(u, s, p, Entered), Client(v, t, q, Entered)])
  }

  lemma Then(refuses: Refusal, orig: Original, s: State, steps: seq<Step>, step: Step)
    ensures Run(refuses, orig, s, steps + [step]) == Apply(refuses, orig, Run(refuses, orig, s, steps), step)
  {
    assert (steps + [step])[..|steps|] == steps;
  }

  lemma NoSteps(refuses: Refusal, orig: Original, s: State)
    ensures Run(refuses, orig, s, []) == s
  {
  }

  function BothLookedUp(s: State): State
    requires |s.clients| == 2
  {
    s.(clients := [s.clients[0].(phase := Waiting([])), s.clients[1].(phase := Waiting([]))])
  }

  lemma LookUpBoth(refuses: Refusal, orig: Original, s: State) returns (steps: seq<Step>)
    requires Initial(s) && |s.clients| == 2
    ensures Run(refuses, orig, s, steps) == BothLookedUp(s)
  {
    hide Run;
    NoSteps(refuses, orig, s);
    Then(refuses, orig, s, [], LookUp(0));
    Then(refuses, orig, s, [] + [LookUp(0)], LookUp(1));
    steps := [] + [LookUp(0)] + [LookUp(1)];
    assert Run(refuses, orig, s, steps).clients == BothLookedUp(s).clients;
  }

  /** Client `c` locks and checks against its snapshot. */
  lemma LockAndCheck(refuses: Refusal, orig: Original, s: State, before: seq<Step>, c: nat, plan: Plan)
      returns (steps: seq<Step>)
    requires var now := Run(refuses, orig, s, before);
      && now.holder.None? && c < |now.clients| && now.clients[c].phase == Waiting([])
      && Resolve(orig, [], now.clients[c].session, now.clients[c].payload) == Success(plan)
    ensures var now := Run(refuses, orig, s, before);
      Run(refuses, orig, s, steps)
      == now.(holder := Some(c), clients := now.clients[c := now.clients[c].(phase := Checked([], plan))])
  {
    hide Resolve, Run;
    var now := Run(refuses, orig, s, before);
    Then(refuses, orig, s, before, Lock(c));
    steps := before + [Lock(c)];
    assert Run(refuses, orig, s, steps)
      == now.(holder := Some(c), clients := now.clients[c := now.clients[c].(phase := Locked([]))]);
    Then(refuses, orig, s, steps, Check(c));
    steps := steps + [Check(c)];
  }

  /** Both look up, then each locks and checks in turn; the first commits in between. */
  lemma SecondIsChecked(refuses: Refusal, orig: Original, s: State, one: Plan, two: Plan) returns (steps: seq<Step>)
    requires Initial(s) && |s.clients| == 2
    requires Resolve(orig, [], s.clients[0].session, s.clients[0].payload) == Success(one)
    requires Resolve(orig, [], s.clients[1].session, s.clients[1].payload) == Success(two)
    ensures var t := Run(refuses, orig, s, steps);
      && t.history == [RefundProtocol.Stored(s.clients[0].uuid, one)] && |t.clients| == 2
      && t.clients[1] == s.clients[1].(phase := Checked([], two))
  {
    hide Resolve, Run;
    steps := LookUpBoth(refuses, orig, s);
    steps := LockAndCheck(refuses, orig, s, steps, 0, one);
    var now := Run(refuses, orig, s, steps);
    assert !RefundProtocol.HasUuid([], s.clients[0].uuid);
    Then(refuses, orig, s, steps, Commit(0));
    steps := steps + [Commit(0)];
    steps := LockAndCheck(refuses, orig, s, steps, 1, two);
  }

  /** Whenever two refunds each fit alone but not together, the database must refuse the
      second on the snapshot that misses the first: this is needed for every original. */
  lemma RefusalIsNeeded(refuses: Refusal, orig: Original, s: Session, p: seq<PayloadLine>, t: Session,
                        q: seq<PayloadLine>, one: Plan, two: Plan)
    requires AlwaysSafe(refuses, orig)
    requires Resolve(orig, [], s, p) == Success(one) && Resolve(orig, [], t, q) == Success(two)
    requires Breaks(orig, [RefundProtocol.Stored("u", one)], two)
    ensures refuses([], [RefundProtocol.Stored("u", one)], two)
  {
    hide Resolve, Run, Breaks, AlwaysSafe, RefundProtocol.Stored;
    var start := TwoClients("u", "v", s, p, t, q);
    var steps := SecondIsChecked(refuses, orig, start, one, two);
    SafeExactlyWhenNeverExposed(refuses, orig);
    assert !Exposed(refuses, orig, Run(refuses, orig, start, steps), 1);
    FreshUuid(one);
  }

  lemma FreshUuid(one: Plan)
    ensures !RefundProtocol.HasUuid([RefundProtocol.Stored("u", one)], "v")
  {
  }

  /** One unit of one product, paid with one unit of money. */
  function OneSold(): Original {
    Original(map[1 := OrigLine(1, 1.0, 1.0, 0.0, [], 1.0, 1.0)], 1.0, 0, 0, 0, 0)
  }

  function WholeLine(): seq<PayloadLine> { [PayloadLine(Given(1), Absent, Absent)] }

  lemma WholeShare(ol: OrigLine)
    requires ol.qty == 1.0
    ensures Share(ol, 1.0, 1.0) == 1.0
  {
    assert Ratio(ol, 1.0) == 1.0;
  }

  lemma WholeLineReads()
    ensures WholeLine() != [] && WholeLine()[..0] == [] && |WholeLine()| == 1
    ensures ReadLine(OneSold(), WholeLine()[0]) == Success((1, 1.0)) && AllReadable(OneSold(), WholeLine())
  {
  }

  lemma NothingAsked(orig: Original)
    ensures Asked(orig, [], 1) == 0.0 && Worth(orig, []) == 0.0
  {
  }

  lemma WholeLineAsks()
    ensures ReadLine(OneSold(), WholeLine()[0]) == Success((1, 1.0)) && AllReadable(OneSold(), WholeLine())
    ensures Asked(OneSold(), WholeLine(), 1) == 1.0
    ensures Worth(OneSold(), WholeLine()) == 1.0 && WholeLine() != []
  {
    hide ReadLine, WholeLine, Share, AllReadable;
    WholeLineReads();
    NothingAsked(OneSold());
    WholeShare(OneSold().lines[1]);
  }

  lemma WholeLineFits()
    requires AllReadable(OneSold(), WholeLine()) && Asked(OneSold(), WholeLine(), 1) == 1.0
    ensures LinesWithin(OneSold(), [], WholeLine()) && MoneyWithin(OneSold(), [], 1.0)
    ensures ToMinor(1.0, OneSold().decimals) == 1
  {
    OneUnit();
    assert AlreadyQty([], 1) == 0.0 && AlreadyMinor([]) == 0;
    hide ToMinor, QtyToUnits, Asked, AlreadyQty, AlreadyMinor, Mentions;
  }

  lemma WholeLineResolves()
    ensures var r := Resolve(OneSold(), [], Session(None, None), WholeLine()); r.Success? && r.value.total == -1
  {
    hide *;
    WholeLineAsks();
    WholeLineFits();
    assert Acceptable(OneSold(), [], Session(None, None), WholeLine()) by {
      AcceptableMeans(OneSold(), [], Session(None, None), WholeLine());
    }
    ResolveAccepts(OneSold(), [], Session(None, None), WholeLine());
  }

  lemma AcceptableMeans(orig: Original, history: seq<Refund>, s: Session, payload: seq<PayloadLine>)
    requires s == Session(None, None) && payload != [] && AllReadable(orig, payload)
    requires LinesWithin(orig, history, payload) && MoneyWithin(orig, history, Worth(orig, payload))
    ensures Acceptable(orig, history, s, payload)
  {
    hide AllReadable, LinesWithin, MoneyWithin, Worth;
  }

  lemma OneUnit()
    ensures ToMinor(1.0, 0) == 1 && QtyToUnits(1.0, 0) == 1 && QtyToUnits(0.0, 0) == 0
  {
    RoundHalfEvenOfInt(1);
    RoundHalfEvenOfInt(0);
    assert Pow10(0) == 1;
  }

  lemma TwoWholesBreak(plan: Plan)
    requires plan.total == -1
    ensures Breaks(OneSold(), [RefundProtocol.Stored("u", plan)], plan)
  {
    var first, second := RefundProtocol.Stored("u", plan), RefundProtocol.Stored("", plan);
    assert [] + [first] == [first];
    RefundProtocol.AppendTotals([], first, 1);
    RefundProtocol.AppendTotals([first], second, 1);
    OneUnit();
  }

  function Never(snap: seq<Refund>, history: seq<Refund>, plan: Plan): bool { false }

  /** A database that refuses nothing lets the one sold unit be refunded twice. */
  lemma NoRefusalIsUnsafe()
    ensures !AlwaysSafe(Never, OneSold())
  {
    hide Resolve, OneSold, WholeLine, AlwaysSafe, Breaks;
    WholeLineResolves();
    var plan := Resolve(OneSold(), [], Session(None, None), WholeLine()).value;
    TwoWholesBreak(plan);
    if AlwaysSafe(Never, OneSold()) {
      RefusalIsNeeded(Never, OneSold(), Session(None, None), WholeLine(), Session(None, None), WholeLine(), plan, plan);
    }
  }
}
