/** Kitchen tickets: bumping forward, recalling one step back, and voiding an order. Each
    transition locks and re-reads its row, so it is one step. */
module KdsTicket {
  import opened Common

  datatype Stage = Fired | Accepted | Preparing | Ready | Served | Cancel
  datatype Ticket = Ticket(order: nat, state: Stage, stamps: map<Stage, int>)
  datatype Reply = Ok | Noop | Terminal | Illegal | Floor | NoTicket

  const FLOW: seq<Stage> := [Fired, Accepted, Preparing, Ready, Served]

  /** Position in the flow; a cancelled ticket comes after all of it. */
  function Rank(s: Stage): nat {
    match s case Fired => 0 case Accepted => 1 case Preparing => 2 case Ready => 3 case Served => 4 case Cancel => 5
  }

  predicate Stamped(s: Stage) { s != Fired && s != Cancel }

  predicate Live(t: Ticket) { t.state != Served && t.state != Cancel }

  /** Stamps the entered stage unless it was stamped before. */
  function Enter(t: Ticket, to: Stage, now: int): Ticket {
    t.(state := to, stamps := if Stamped(to) && to !in t.stamps then t.stamps[to := now] else t.stamps)
  }

  /** `to` is None for a text that names no stage. */
  function Bump(t: Ticket, to: Option<Stage>, now: int): (Ticket, Reply) {
    if to == Some(t.state) then (t, Noop)
    else if !Live(t) then (t, Terminal)
    else if to.Some? && (to.value == Cancel || Rank(to.value) > Rank(t.state)) then (Enter(t, to.value, now), Ok)
    else (t, Illegal)
  }

  function Recalled(t: Ticket): (Ticket, Reply) {
    if t.state == Cancel || Rank(t.state) == 0 then (t, Floor)
    else (t.(state := FLOW[Rank(t.state) - 1]), Ok)
  }

  function Voided(t: Ticket, order: nat): Ticket {
    if t.order == order && Live(t) then t.(state := Cancel) else t
  }

  function VoidAll(ts: seq<Ticket>, order: nat): seq<Ticket> {
    seq(|ts|, i requires 0 <= i < |ts| => Voided(ts[i], order))
  }

  class Board {
    var tickets: seq<Ticket>

    method SetState(i: nat, to: Option<Stage>, now: int) returns (r: Reply)
      modifies this
      ensures i >= |old(tickets)| ==> tickets == old(tickets) && r == NoTicket
      ensures i < |old(tickets)| ==>
        var (t, reply) := Bump(old(tickets)[i], to, now);
        tickets == old(tickets)[i := t] && r == reply
    {
      if i >= |tickets| { return NoTicket; }
      var t := tickets[i];
      assert tickets[i := t] == tickets;
      if to == Some(t.state) { return Noop; }
      if t.state == Served || t.state == Cancel { return Terminal; }
      if to.None? { return Illegal; }
      if to.value != Cancel && Rank(to.value) <= Rank(t.state) { return Illegal; }
      var stamps := t.stamps;
      if Stamped(to.value) && to.value !in stamps { stamps := stamps[to.value := now]; }
      tickets := tickets[i := t.(state := to.value, stamps := stamps)];
      r := Ok;
    }

    method Recall(i: nat) returns (r: Reply)
      modifies this
      ensures i >= |old(tickets)| ==> tickets == old(tickets) && r == NoTicket
      ensures i < |old(tickets)| ==>
        var (t, reply) := Recalled(old(tickets)[i]);
        tickets == old(tickets)[i := t] && r == reply
    {
      if i >= |tickets| { return NoTicket; }
      var t := tickets[i];
      assert tickets[i := t] == tickets;
      if t.state == Cancel || Rank(t.state) == 0 { return Floor; }
      tickets := tickets[i := t.(state := FLOW[Rank(t.state) - 1])];
      r := Ok;
    }

    /** Cancels every live ticket of an order and reports just those. */
    method CancelForOrder(order: nat) returns (changed: set<nat>)
      modifies this
      ensures tickets == VoidAll(old(tickets), order)
      ensures forall i: nat :: i in changed <==>
        i < |old(tickets)| && old(tickets)[i].order == order && Live(old(tickets)[i])
      ensures forall i :: 0 <= i < |tickets| && tickets[i].order == order ==> !Live(tickets[i])
    {
      changed := {};
      ghost var was := tickets;
      for i := 0 to |tickets|
        invariant |tickets| == |was|
        invariant forall j :: 0 <= j < |was| ==> tickets[j] == if j < i then Voided(was[j], order) else was[j]
        invariant forall j: nat :: j in changed <==> j < i && was[j].order == order && Live(was[j])
      {
        var t := tickets[i];
        if t.order == order && Live(t) {
          tickets := tickets[i := t.(state := Cancel)];
          changed := changed + {i};
        }
      }
    }
  }

  // ---- one transition, stage by stage ---------------------------------------------------------

  /** The stages a bump may reach from a stage. */
  function Ahead(s: Stage): set<Stage> {
    match s
    case Fired => {Accepted, Preparing, Ready, Served, Cancel}
    case Accepted => {Preparing, Ready, Served, Cancel}
    case Preparing => {Ready, Served, Cancel}
    case Ready => {Served, Cancel}
    case Served => {}
    case Cancel => {}
  }

  /** A bump enters a stage ahead and stamps it if it is stamped at all and was not before;
      to the same stage it is a repeat, from the last stages terminal, else illegal. */
  lemma BumpMeans(t: Ticket, to: Option<Stage>, now: int)
    ensures var (after, reply) := Bump(t, to, now);
      && after.order == t.order
      && (reply == Noop <==> to == Some(t.state))
      && (reply == Terminal <==> to != Some(t.state) && (t.state == Served || t.state == Cancel))
      && (reply == Ok <==> to.Some? && to.value in Ahead(t.state))
      && (reply != Ok ==> after == t && (reply == Noop || reply == Terminal || reply == Illegal))
      && (reply == Ok ==>
            && after.state == to.value
            && after.stamps ==
               if to.value in {Accepted, Preparing, Ready, Served} && to.value !in t.stamps
               then t.stamps[to.value := now] else t.stamps)
  {
  }

  /** A recall steps back through ready, preparing and accepted to fired, and nothing else
      of the ticket changes; a fired or cancelled ticket stays. */
  lemma RecallMeans(t: Ticket)
    ensures var (after, reply) := Recalled(t);
      && after.order == t.order && after.stamps == t.stamps
      && after.state == (match t.state
                         case Served => Ready
                         case Ready => Preparing
                         case Preparing => Accepted
                         case Accepted => Fired
                         case Fired => Fired
                         case Cancel => Cancel)
      && reply == if t.state == Fired || t.state == Cancel then Floor else Ok
  {
  }

  // ---- runs of one ticket --------------------------------------------------------------------

  datatype Step = DoBump(to: Option<Stage>, now: int) | DoRecall | DoVoid(order: nat)

  function Take(t: Ticket, step: Step): Ticket {
    match step
    case DoBump(to, now) => Bump(t, to, now).0
    case DoRecall => Recalled(t).0
    case DoVoid(order) => Voided(t, order)
  }

  function Run(t: Ticket, steps: seq<Step>): Ticket {
    if steps == [] then t else Take(Run(t, steps[..|steps| - 1]), steps[|steps| - 1])
  }

  /** A cancelled ticket never changes again, not even by a recall. */
  lemma {:induction false} CancelAbsorbs(t: Ticket, steps: seq<Step>)
    requires t.state == Cancel
    ensures Run(t, steps) == t
  {
    if steps != [] { CancelAbsorbs(t, steps[..|steps| - 1]); }
  }

  /** A stamp once written keeps its time for good, recalls and new bumps included. */
  lemma {:induction false} StampsAreWrittenOnce(t: Ticket, steps: seq<Step>)
    ensures t.stamps.Keys <= Run(t, steps).stamps.Keys
    ensures forall s :: s in t.stamps ==> Run(t, steps).stamps[s] == t.stamps[s]
    ensures Run(t, steps).order == t.order
  {
    if steps != [] { StampsAreWrittenOnce(t, steps[..|steps| - 1]); }
  }

  /** How often a run changes the ticket. */
  function Changes(t: Ticket, steps: seq<Step>): nat {
    if steps == [] then 0
    else
      var front := steps[..|steps| - 1];
      Changes(t, front) + (if Take(Run(t, front), steps[|steps| - 1]) != Run(t, front) then 1 else 0)
  }

  predicate NoRecall(steps: seq<Step>) { forall i :: 0 <= i < |steps| ==> !steps[i].DoRecall? }

  /** Without recalls every change moves forward, so a ticket changes at most five times,
      and a served ticket stays served. */
  lemma {:induction false} ForwardOnly(t: Ticket, steps: seq<Step>)
    requires NoRecall(steps)
    ensures Rank(t.state) + Changes(t, steps) <= Rank(Run(t, steps).state) <= 5
    ensures t.state == Served ==> Run(t, steps) == t
  {
    if steps != [] {
      ForwardOnly(t, steps[..|steps| - 1]);
      var last := steps[|steps| - 1];
      assert !last.DoRecall?;
    }
  }

  /** One step takes a served ticket elsewhere exactly if it is a recall. */
  lemma ServedIsLeftByRecallOnly(t: Ticket, step: Step)
    requires t.state == Served
    ensures Take(t, step).state != Served <==> step.DoRecall?
    ensures step.DoRecall? ==> Take(t, step).state == Ready
  {
  }

  /** Times at which bumps happen do not run backwards, up to `now`. */
  predicate ClockRuns(steps: seq<Step>, now: int) {
    steps == [] || (
      var last := steps[|steps| - 1];
      var at := if last.DoBump? then last.now else now;
      at <= now && ClockRuns(steps[..|steps| - 1], at))
  }

  /** That is: no bump is later than `now` or than a bump after it; equal times are allowed. */
  lemma {:induction false} ClockMeans(steps: seq<Step>, now: int)
    ensures ClockRuns(steps, now) <==>
      && (forall i :: 0 <= i < |steps| && steps[i].DoBump? ==> steps[i].now <= now)
      && (forall i, j :: 0 <= i < j < |steps| && steps[i].DoBump? && steps[j].DoBump? ==> steps[i].now <= steps[j].now)
  {
    if steps != [] {
      var n := |steps| - 1;
      ClockMeans(steps[..n], if steps[n].DoBump? then steps[n].now else now);
      assert forall i :: 0 <= i < n ==> steps[..n][i] == steps[i];
    }
  }

  ghost predicate StampsInOrder(stamps: map<Stage, int>) {
    forall a, b :: a in stamps && b in stamps && Rank(a) <= Rank(b) ==> stamps[a] <= stamps[b]
  }

  ghost predicate StampsUpTo(t: Ticket, now: int) {
    forall a :: a in t.stamps ==> t.stamps[a] <= now && Rank(a) <= Rank(t.state)
  }

  /** Without recalls the stamps of a fresh ticket follow the flow. */
  lemma {:induction false} StampsFollowFlow(order: nat, steps: seq<Step>, now: int)
    requires NoRecall(steps) && ClockRuns(steps, now)
    ensures StampsInOrder(Run(Ticket(order, Fired, map[]), steps).stamps)
    ensures StampsUpTo(Run(Ticket(order, Fired, map[]), steps), now)
  {
    if steps != [] {
      var last := steps[|steps| - 1];
      assert !last.DoRecall?;
      StampsFollowFlow(order, steps[..|steps| - 1], if last.DoBump? then last.now else now);
    }
  }

  /** A recall breaks that order: bumped to ready, recalled twice, then bumped again, the
      ticket was prepared after it was ready. */
  lemma RecallDisordersStamps()
    ensures var t := Run(Ticket(0, Fired, map[]),
        [DoBump(Some(Ready), 1), DoRecall, DoRecall, DoBump(Some(Preparing), 2)]);
      t.stamps == map[Ready := 1, Preparing := 2] && !StampsInOrder(t.stamps)
  {
    var a, r, b := DoBump(Some(Ready), 1), DoRecall, DoBump(Some(Preparing), 2);
    var t := Ticket(0, Fired, map[]);
    assert [a, r, r, b][..3] == [a, r, r] && [a, r, r][..2] == [a, r] && [a, r][..1] == [a] && [a][..0] == [];
    assert Run(t, [a]) == Ticket(0, Ready, map[Ready := 1]);
    assert Run(t, [a, r]) == Ticket(0, Preparing, map[Ready := 1]);
    assert Run(t, [a, r, r]) == Ticket(0, Accepted, map[Ready := 1]);
    var stamps := Run(t, [a, r, r, b]).stamps;
    assert stamps == map[Ready := 1, Preparing := 2];
    assert stamps[Preparing] == 2 && stamps[Ready] == 1;
  }

  // ---- voiding while screens go on bumping ------------------------------------------------------

  /** A void as it runs: the tickets it read as live and has not yet locked. */
  datatype Voiding = Voiding(tickets: seq<Ticket>, order: nat, pending: seq<nat>)

  datatype Move =
    | Elsewhere(i: nat, step: Step)   // another screen's step on one ticket
    | Next                            // the void locks, re-reads and cancels its next ticket

  function Move1(v: Voiding, m: Move): Voiding {
    match m
    case Elsewhere(i, step) =>
      if i < |v.tickets| then v.(tickets := v.tickets[i := Take(v.tickets[i], step)]) else v
    case Next =>
      if v.pending == [] then v
      else
        var i := v.pending[0];
        var v' := v.(pending := v.pending[1..]);
        if i < |v.tickets| && Live(v.tickets[i]) then v'.(tickets := v.tickets[i := v.tickets[i].(state := Cancel)])
        else v'
  }

  function Moves(v: Voiding, ms: seq<Move>): Voiding {
    if ms == [] then v else Move1(Moves(v, ms[..|ms| - 1]), ms[|ms| - 1])
  }

  /** The live tickets of the order, as the void reads them first. */
  function LiveOf(ts: seq<Ticket>, order: nat): seq<nat> {
    if ts == [] then []
    else
      var n := |ts| - 1;
      if ts[n].order == order && Live(ts[n]) then LiveOf(ts[..n], order) + [n] else LiveOf(ts[..n], order)
  }

  lemma {:induction false} LiveOfMeans(ts: seq<Ticket>, order: nat, i: nat)
    ensures i in LiveOf(ts, order) <==> i < |ts| && ts[i].order == order && Live(ts[i])
  {
    if ts != [] { LiveOfMeans(ts[..|ts| - 1], order, i); }
  }

  /** A step that takes a live ticket out of the way. */
  predicate Finishes(step: Step, order: nat) {
    match step
    case DoBump(to, now) => to == Some(Served) || to == Some(Cancel)
    case DoRecall => false
    case DoVoid(o) => o == order
  }

  /** The move recalls ticket `i` from served while the void has passed it or never listed it. */
  predicate SlipsBy(v: Voiding, m: Move, i: nat) {
    m == Elsewhere(i, DoRecall) && i < |v.tickets| && v.tickets[i].state == Served && i !in v.pending
  }

  predicate FinishedBy(v: Voiding, m: Move, i: nat) {
    m.Elsewhere? && m.i == i && i < |v.tickets| && Finishes(m.step, v.tickets[i].order)
  }

  /** Ticket `i` slipped by the void and no later step finished it. */
  predicate Escaped(v: Voiding, ms: seq<Move>, i: nat) {
    ms != [] && (
      var before, m := Moves(v, ms[..|ms| - 1]), ms[|ms| - 1];
      SlipsBy(before, m, i) || (Escaped(v, ms[..|ms| - 1], i) && !FinishedBy(before, m, i)))
  }

  lemma EscapedLast(v: Voiding, ms: seq<Move>, i: nat)
    requires ms != []
    ensures var before, m := Moves(v, ms[..|ms| - 1]), ms[|ms| - 1];
      Escaped(v, ms, i) <==> SlipsBy(before, m, i) || (Escaped(v, ms[..|ms| - 1], i) && !FinishedBy(before, m, i))
  {
  }

  ghost predicate Distinct(s: seq<nat>) { forall i, j :: 0 <= i < j < |s| ==> s[i] != s[j] }

  lemma {:induction false} LiveOfDistinct(ts: seq<Ticket>, order: nat)
    ensures Distinct(LiveOf(ts, order)) && forall k :: 0 <= k < |LiveOf(ts, order)| ==> LiveOf(ts, order)[k] < |ts|
  {
    if ts != [] { LiveOfDistinct(ts[..|ts| - 1], order); }
  }

  /** What one step does to whether a ticket is live. */
  lemma LiveAfter(t: Ticket, step: Step)
    ensures Live(Take(t, step)) <==>
      if t.state == Served then step == DoRecall else t.state != Cancel && !Finishes(step, t.order)
    ensures Take(t, step).order == t.order
  {
  }

  lemma MovedBasics(v: Voiding, m: Move)
    requires Distinct(v.pending)
    ensures var w := Move1(v, m);
      && |w.tickets| == |v.tickets| && w.order == v.order && Distinct(w.pending)
      && (forall k :: k in w.pending ==> k in v.pending)
      && forall i :: 0 <= i < |v.tickets| ==> w.tickets[i].order == v.tickets[i].order
  {
    hide Take, Live;
    if m.Elsewhere? && m.i < |v.tickets| { LiveAfter(v.tickets[m.i], m.step); }
  }

  /** One move, for a ticket the void has to do with. */
  lemma MovedTicket(v: Voiding, m: Move, i: nat)
    requires Distinct(v.pending) && i < |v.tickets|
    ensures var w := Move1(v, m); var t := v.tickets[i];
      Live(w.tickets[i]) && i !in w.pending <==>
        && i !in v.pending
        && (if m.Elsewhere? && m.i == i
            then (if t.state == Served then m.step == DoRecall else t.state != Cancel && !Finishes(m.step, t.order))
            else Live(t))
  {
    hide Take, Finishes;
    match m
    case Elsewhere(k, step) => if k == i { LiveAfter(v.tickets[i], step); }
    case Next =>
      if v.pending != [] {
        assert forall k :: k in v.pending <==> k == v.pending[0] || k in v.pending[1..];
      }
  }

  lemma {:induction false} PassedLiveIsEscaped(v: Voiding, ms: seq<Move>, i: nat)
    requires Distinct(v.pending) && i < |v.tickets| && (Live(v.tickets[i]) ==> i in v.pending)
    ensures var w := Moves(v, ms);
      && |w.tickets| == |v.tickets| && Distinct(w.pending)
      && (Live(w.tickets[i]) && i !in w.pending <==> Escaped(v, ms, i))
  {
    hide Move1, Escaped, Distinct, Live;
    if ms == [] {
      NothingEscapes(v, i);
    } else {
      PassedLiveIsEscaped(v, ms[..|ms| - 1], i);
      var before, m := Moves(v, ms[..|ms| - 1]), ms[|ms| - 1];
      MovedBasics(before, m);
      MovedTicket(before, m, i);
      EscapedLast(v, ms, i);
      LiveMeans(before.tickets[i]);
      FinishesIsNoRecall(before.tickets[i].order);
    }
  }

  lemma NothingEscapes(v: Voiding, i: nat)
    ensures !Escaped(v, [], i)
  {
  }

  lemma LiveMeans(t: Ticket)
    ensures Live(t) <==> t.state != Served && t.state != Cancel
  {
  }

  lemma FinishesIsNoRecall(order: nat)
    ensures !Finishes(DoRecall, order)
  {
  }

  /** Once a void has gone through its list, however its locks interleaved with other
      screens, a ticket of the order is still live exactly if it escaped: it was recalled
      from served behind the void's back and not finished again. */
  lemma LiveAfterVoidExactlyWhen(ts: seq<Ticket>, order: nat, ms: seq<Move>, i: nat)
    requires i < |ts| && ts[i].order == order
    requires Moves(Voiding(ts, order, LiveOf(ts, order)), ms).pending == []
    ensures var start := Voiding(ts, order, LiveOf(ts, order)); var v := Moves(start, ms);
      |v.tickets| == |ts| && (v.tickets[i].state !in {Served, Cancel} <==> Escaped(start, ms, i))
  {
    var start := Voiding(ts, order, LiveOf(ts, order));
    LiveOfDistinct(ts, order);
    LiveOfMeans(ts, order, i);
    hide LiveOf, Escaped, Moves;
    PassedLiveIsEscaped(start, ms, i);
  }

  /** Bumped to served just before the void reaches it, and recalled just after: the void is
      over and the ticket is ready again. Recalled just before, it is cancelled instead. */
  lemma RecallBehindTheVoid()
    ensures var start := Voiding([Ticket(7, Ready, map[])], 7, LiveOf([Ticket(7, Ready, map[])], 7));
      var served, recall := Elsewhere(0, DoBump(Some(Served), 1)), Elsewhere(0, DoRecall);
      && Moves(start, [served, Next, recall]) == Voiding([Ticket(7, Ready, map[Served := 1])], 7, [])
      && Moves(start, [served, recall, Next]) == Voiding([Ticket(7, Cancel, map[Served := 1])], 7, [])
  {
    var t := Ticket(7, Ready, map[]);
    var start := Voiding([t], 7, LiveOf([t], 7));
    assert [t][..0] == [] && LiveOf([t], 7) == [0];
    var served, recall := Elsewhere(0, DoBump(Some(Served), 1)), Elsewhere(0, DoRecall);
    assert [served, Next, recall][..2] == [served, Next] && [served, Next][..1] == [served];
    assert [served, recall, Next][..2] == [served, recall] && [served, recall][..1] == [served] && [served][..0] == [];
    var t' := Ticket(7, Served, map[Served := 1]);
    assert Moves(start, [served]) == Voiding([t'], 7, [0]);
    assert Moves(start, [served, Next]) == Voiding([t'], 7, []);
    assert Moves(start, [served, recall]) == Voiding([Ticket(7, Ready, map[Served := 1])], 7, [0]);
  }

  /** A second void finds nothing to cancel. */
  lemma SecondVoidIsNoop(ts: seq<Ticket>, order: nat)
    ensures VoidAll(VoidAll(ts, order), order) == VoidAll(ts, order)
    ensures LiveOf(VoidAll(ts, order), order) == []
  {
    if LiveOf(VoidAll(ts, order), order) != [] {
      LiveOfMeans(VoidAll(ts, order), order, LiveOf(VoidAll(ts, order), order)[0]);
    }
  }
}
