/** Customer account charges. Registers lock the customer, read the exposure, pass the
    credit gate and charge, while settlements, session closings and limit changes happen
    without the lock. Amounts are integers in the smallest unit of the currency. */
module Credit {
  import opened Common

  datatype Session = Session(open: bool, charged: int)

  /** What the gate reads for one charge. */
  datatype Position = Position(exposure: int, limit: int, active: bool, over: int)

  datatype Policy = HardBlock | ManagerApproval | OdooWarning
  datatype Charge = Charge(
    amount: int, session: nat, policy: Policy, manager: bool, managerError: bool, allowCredit: bool)
  datatype Verdict = Pass | Blocked | ManagerRefused | NeedsManager | Warned

  /** Charges of open sessions: not posted yet, but owed. */
  function InSession(sessions: seq<Session>): int {
    if sessions == [] then 0
    else
      var last := sessions[|sessions| - 1];
      InSession(sessions[..|sessions| - 1]) + (if last.open then last.charged else 0)
  }

  method SumInSession(sessions: seq<Session>) returns (sum: int)
    ensures sum == InSession(sessions)
  {
    sum := 0;
    for n := 0 to |sessions|
      invariant sum == InSession(sessions[..n])
    {
      assert sessions[..n + 1][..n] == sessions[..n];
      if sessions[n].open { sum := sum + sessions[n].charged; }
    }
    assert sessions[..|sessions|] == sessions;
  }

  /** The limit counts only if the company and the customer switched it on and it is positive. */
  function PositionOf(exposure: int, limit: int, enabled: bool, extra: int): (p: Position)
    ensures p.over >= 0
    ensures p.over > 0 <==> enabled && limit > 0 && exposure + extra > limit
  {
    var active := enabled && limit > 0;
    var over := exposure + extra - limit;
    Position(exposure, limit, active, if active && over > 0 then over else 0)
  }

  function Gate(p: Position, c: Charge): Verdict {
    if !p.active || p.over <= 0 then Pass
    else match c.policy
      case HardBlock => Blocked
      case ManagerApproval => if c.manager then Pass else if c.managerError then ManagerRefused else NeedsManager
      case OdooWarning => if c.allowCredit then Pass else Warned
  }

  lemma InSessionLaws(front: seq<Session>, s: Session)
    ensures InSession([]) == 0
    ensures InSession(front + [s]) == InSession(front) + (if s.open then s.charged else 0)
  {
    assert (front + [s])[..|front|] == front;
  }

  /** When each answer is given: a charge passes where no limit is active or it stays within;
      past an active limit the policy decides. */
  lemma GateAnswers(exposure: int, limit: int, enabled: bool, c: Charge)
    ensures var v := Gate(PositionOf(exposure, limit, enabled, c.amount), c);
      if !enabled || limit <= 0 || exposure + c.amount <= limit then v == Pass
      else if c.policy == HardBlock then v == Blocked
      else if c.policy == OdooWarning then v == (if c.allowCredit then Pass else Warned)
      else v == (if c.manager then Pass else if c.managerError then ManagerRefused else NeedsManager)
  {
  }

  lemma PositionMeans(exposure: int, limit: int, enabled: bool, extra: int)
    ensures var p := PositionOf(exposure, limit, enabled, extra);
      && p.exposure == exposure && p.limit == limit && (p.active <==> enabled && limit > 0)
      && p.over == if enabled && limit > 0 && exposure + extra > limit then exposure + extra - limit else 0
  {
  }

  // ---- the machine ------------------------------------------------------------------------

  datatype Phase =
    | Idle
    | Locked(c: Charge)
    | Read(c: Charge, seen: Position)
    | Charging(c: Charge, excess: int)   // passed the gate, not committed yet

  datatype State = State(
    posted: int, sessions: seq<Session>, limit: int, enabled: bool,
    registers: seq<Phase>, lock: Option<nat>,
    highest: int,      // the highest limit there ever was
    overridden: int)   // what committed charges took past the limit, or without one

  datatype Step =
    | Lock(i: nat, c: Charge)
    | Look(i: nat)
    | Decide(i: nat)
    | Commit(i: nat)
    | Abort(i: nat)
    | Settle(amount: nat)
    | CloseSession(n: nat)
    | SetLimit(limit: int, enabled: bool)

  function Exposure(s: State): int { s.posted + InSession(s.sessions) }

  function PhaseOf(s: State, i: nat): Phase { if i < |s.registers| then s.registers[i] else Idle }

  /** A charge committed without staying inside an active limit counts in full. */
  function Excess(p: Position, c: Charge): int {
    if p.active && p.over == 0 then 0 else c.amount
  }

  function Release(s: State, i: nat): State
    requires i < |s.registers|
  {
    s.(registers := s.registers[i := Idle], lock := None)
  }

  /** A step that is not enabled changes nothing. */
  function Apply(s: State, step: Step): State {
    match step
    case Lock(i, c) =>
      if i < |s.registers| && s.registers[i].Idle? && s.lock.None? && c.amount > 0 && c.session < |s.sessions|
      then s.(registers := s.registers[i := Locked(c)], lock := Some(i)) else s
    case Look(i) =>
      if PhaseOf(s, i).Locked?
      then
        var c := s.registers[i].c;
        s.(registers := s.registers[i := Read(c, PositionOf(Exposure(s), s.limit, s.enabled, c.amount))])
      else s
    case Decide(i) =>
      if PhaseOf(s, i).Read? then
        var Read(c, seen) := s.registers[i];
        if Gate(seen, c) == Pass then s.(registers := s.registers[i := Charging(c, Excess(seen, c))])
        else Release(s, i)
      else s
    case Commit(i) =>
      if PhaseOf(s, i).Charging? && s.registers[i].c.session < |s.sessions| then
        var Charging(c, excess) := s.registers[i];
        var session := s.sessions[c.session];
        Release(s, i).(sessions := s.sessions[c.session := session.(charged := session.charged + c.amount)],
                       overridden := s.overridden + excess)
      else s
    case Abort(i) =>
      if i < |s.registers| && !s.registers[i].Idle? then Release(s, i) else s
    case Settle(amount) => s.(posted := s.posted - amount)
    case CloseSession(n) =>
      if n < |s.sessions| && s.sessions[n].open
      then s.(posted := s.posted + s.sessions[n].charged, sessions := s.sessions[n := s.sessions[n].(open := false)])
      else s
    case SetLimit(limit, enabled) =>
      s.(limit := limit, enabled := enabled, highest := if limit > s.highest then limit else s.highest)
  }

  function Run(s: State, steps: seq<Step>): State {
    if steps == [] then s else Apply(Run(s, steps[..|steps| - 1]), steps[|steps| - 1])
  }

  // ---- safety --------------------------------------------------------------------------------

  function Max(a: int, b: int): int { if a >= b then a else b }

  ghost predicate Inv(s: State, start: int) {
    && s.limit <= s.highest && s.overridden >= 0
    && Exposure(s) <= Max(start, s.highest) + s.overridden
    && (forall i :: 0 <= i < |s.registers| && !s.registers[i].Idle? ==>
        s.lock == Some(i) && s.registers[i].c.amount > 0)
    && (forall i :: 0 <= i < |s.registers| ==>
         match s.registers[i]
         case Read(c, seen) =>
           && Exposure(s) <= seen.exposure && seen.limit <= s.highest
           && (seen.active ==> seen.over == Max(0, seen.exposure + c.amount - seen.limit))
         case Charging(c, excess) =>
           excess >= 0 && Exposure(s) + c.amount <= Max(start, s.highest) + s.overridden + excess
         case _ => true)
  }

  lemma {:induction false} SessionChanges(sessions: seq<Session>, n: nat, session: Session)
    requires n < |sessions|
    ensures InSession(sessions[n := session]) ==
      InSession(sessions) - (if sessions[n].open then sessions[n].charged else 0)
          + (if session.open then session.charged else 0)
  {
    var m := |sessions| - 1;
    if n < m {
      assert sessions[n := session][..m] == sessions[..m][n := session];
      SessionChanges(sessions[..m], n, session);
    } else {
      assert sessions[n := session][..m] == sessions[..m];
    }
  }

  /** Closing a session posts its charges: the exposure does not move. */
  lemma CloseKeepsExposure(s: State, n: nat)
    ensures Exposure(Apply(s, CloseSession(n))) == Exposure(s)
  {
    if n < |s.sessions| && s.sessions[n].open { SessionChanges(s.sessions, n, s.sessions[n].(open := false)); }
  }

  lemma CommitAddsAtMost(s: State, i: nat)
    requires i < |s.registers| && s.registers[i].Charging? && s.registers[i].c.amount > 0
    ensures Exposure(s) <= Exposure(Apply(s, Commit(i))) <= Exposure(s) + s.registers[i].c.amount
  {
    var c := s.registers[i].c;
    if c.session < |s.sessions| {
      var session := s.sessions[c.session];
      SessionChanges(s.sessions, c.session, session.(charged := session.charged + c.amount));
    }
  }

  lemma StepKeepsInv(s: State, step: Step, start: int)
    requires Inv(s, start)
    ensures Inv(Apply(s, step), start)
  {
    hide InSession;
    match step
    case Lock(i, c) =>
    case Look(i) =>
    case Decide(i) =>
    case Commit(i) => if PhaseOf(s, i).Charging? { CommitAddsAtMost(s, i); }
    case Abort(i) =>
    case Settle(amount) =>
    case CloseSession(n) => CloseKeepsExposure(s, n);
    case SetLimit(limit, enabled) =>
  }

  /** Whatever the registers, settlements, closings and limit changes do, the customer
      never owes more than the start value or the highest limit, whichever is larger,
      plus the charges that a policy let past the limit or that met no active limit. */
  lemma {:induction false} EveryRunStaysWithin(s: State, steps: seq<Step>)
    requires Inv(s, Exposure(s)) && s.overridden == 0
    ensures Inv(Run(s, steps), Exposure(s))
    ensures Exposure(Run(s, steps)) <= Max(Exposure(s), Run(s, steps).highest) + Run(s, steps).overridden
  {
    hide InSession;
    if steps != [] {
      EveryRunStaysWithin(s, steps[..|steps| - 1]);
      StepKeepsInv(Run(s, steps[..|steps| - 1]), steps[|steps| - 1], Exposure(s));
    }
  }

  // ---- hard limits ------------------------------------------------------------------------------

  /** Nothing can be charged past the limit: it is active, only rises, and every charge
      is under the blocking policy. */
  ghost predicate Hard(s: State) {
    && s.enabled && s.limit > 0 && s.limit == s.highest && s.overridden == 0
    && forall i :: 0 <= i < |s.registers| ==>
         match s.registers[i]
         case Idle => true
         case Locked(c) => c.policy == HardBlock
         case Read(c, seen) => c.policy == HardBlock && seen.active && seen.over >= 0
         case Charging(c, excess) => c.policy == HardBlock && excess == 0
  }

  ghost predicate HardStep(s: State, step: Step) {
    && (step.Lock? ==> step.c.policy == HardBlock)
    && (step.SetLimit? ==> step.enabled && step.limit >= s.limit)
  }

  ghost predicate HardRun(s: State, steps: seq<Step>) {
    steps == [] || (HardRun(s, steps[..|steps| - 1]) && HardStep(Run(s, steps[..|steps| - 1]), steps[|steps| - 1]))
  }

  lemma {:induction false} HardRunStaysHard(s: State, steps: seq<Step>)
    requires Hard(s) && HardRun(s, steps)
    ensures Hard(Run(s, steps))
  {
    if steps != [] { HardRunStaysHard(s, steps[..|steps| - 1]); }
  }

  /** With an active limit that only rises and the blocking policy everywhere, no
      interleaving lets the customer owe more than the start value or the limit. */
  lemma LimitIsNeverPassed(s: State, steps: seq<Step>)
    requires Inv(s, Exposure(s)) && Hard(s) && HardRun(s, steps)
    ensures Exposure(Run(s, steps)) <= Max(Exposure(s), Run(s, steps).limit)
  {
    EveryRunStaysWithin(s, steps);
    HardRunStaysHard(s, steps);
  }

  // ---- steps outside the gate -------------------------------------------------------------------

  /** A settlement lowers what is owed by its amount, a limit change takes effect at once and
      owes nothing more, and a charge without its session does not start. */
  lemma OutsideSteps(s: State, amount: nat, limit: int, enabled: bool, i: nat, c: Charge)
    ensures Exposure(Apply(s, Settle(amount))) == Exposure(s) - amount
    ensures var after := Apply(s, SetLimit(limit, enabled));
      && after.limit == limit && after.enabled == enabled && Exposure(after) == Exposure(s)
      && after.highest == (if limit > s.highest then limit else s.highest) && after.registers == s.registers
    ensures c.session >= |s.sessions| ==> Apply(s, Lock(i, c)) == s
  {
    hide InSession;
  }

  /** Closing a session posts what was charged in it, once, and leaves the others as they were. */
  lemma CloseMeans(s: State, n: nat)
    ensures var after := Apply(s, CloseSession(n));
      if n < |s.sessions| && s.sessions[n].open
      then && after.posted == s.posted + s.sessions[n].charged
           && after.sessions == s.sessions[n := Session(false, s.sessions[n].charged)]
      else after == s
  {
  }

  // ---- undisturbed -----------------------------------------------------------------------------

  function Alone(i: nat, c: Charge): seq<Step> { [Lock(i, c), Look(i), Decide(i), Commit(i)] }

  /** A register that nobody disturbs charges exactly what it asked for if the gate lets it
      pass, and nothing otherwise; either way the lock is free again. */
  lemma AloneChargesWhenPassed(s: State, i: nat, c: Charge)
    requires i < |s.registers| && s.registers[i].Idle? && s.lock.None?
    requires c.amount > 0 && c.session < |s.sessions|
    ensures var after := Run(s, Alone(i, c)); var charged := s.sessions[c.session].charged;
      && after.lock.None? && after.registers == s.registers && after.posted == s.posted
      && after.sessions ==
         if Gate(PositionOf(Exposure(s), s.limit, s.enabled, c.amount), c) == Pass
         then s.sessions[c.session := s.sessions[c.session].(charged := charged + c.amount)] else s.sessions
  {
    hide Run, Gate, PositionOf, InSession;
    var seen := PositionOf(Exposure(s), s.limit, s.enabled, c.amount);
    RunNone(s);
    RunLast(s, [], Lock(i, c));
    RunLast(s, [Lock(i, c)], Look(i));
    RunLast(s, [Lock(i, c), Look(i)], Decide(i));
    RunLast(s, [Lock(i, c), Look(i), Decide(i)], Commit(i));
    assert [] + [Lock(i, c)] == [Lock(i, c)] && [Lock(i, c)] + [Look(i)] == [Lock(i, c), Look(i)];
    assert [Lock(i, c), Look(i)] + [Decide(i)] == [Lock(i, c), Look(i), Decide(i)];
    assert [Lock(i, c), Look(i), Decide(i)] + [Commit(i)] == Alone(i, c);
    AloneSteps(s, i, c, seen);
  }

  lemma AloneSteps(s: State, i: nat, c: Charge, seen: Position)
    requires i < |s.registers| && s.registers[i].Idle? && s.lock.None?
    requires c.amount > 0 && c.session < |s.sessions|
    requires seen == PositionOf(Exposure(s), s.limit, s.enabled, c.amount)
    ensures var locked := s.(registers := s.registers[i := Locked(c)], lock := Some(i));
      var read := s.(registers := s.registers[i := Read(c, seen)], lock := Some(i));
      && Apply(s, Lock(i, c)) == locked && Apply(locked, Look(i)) == read
      && if Gate(seen, c) == Pass
         then
           var charging := s.(registers := s.registers[i := Charging(c, Excess(seen, c))], lock := Some(i));
           var session := s.sessions[c.session];
           && Apply(read, Decide(i)) == charging
           && Apply(charging, Commit(i)) ==
              s.(sessions := s.sessions[c.session := session.(charged := session.charged + c.amount)],
                 overridden := s.overridden + Excess(seen, c))
         else Apply(read, Decide(i)) == s && Apply(s, Commit(i)) == s
  {
    hide Gate, PositionOf, InSession, Excess;
    assert s.registers[i := Idle] == s.registers;
  }

  lemma RunLast(s: State, steps: seq<Step>, step: Step)
    ensures Run(s, steps + [step]) == Apply(Run(s, steps), step)
  {
    assert (steps + [step])[..|steps|] == steps;
  }

  lemma RunNone(s: State)
    ensures Run(s, []) == s
  {
  }
}
