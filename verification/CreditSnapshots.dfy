/** The credit gate on a database whose transactions read one snapshot, taken by their first
    query: the customer lock orders the charges, but a register that waited for it still
    sees the exposure it saw before. `refuses` says which charges the database refuses, for
    an outdated snapshot, what is owed by then, and the amount. */
module CreditSnapshots {
  import opened Common
  import opened Credit

  /** `snap` is what the customer owed when the transaction began, after `seen` charges. */
  datatype Register =
    | Away
    | Begun(snap: int, seen: nat)
    | Holding(snap: int, seen: nat)
    | Passed(amount: nat, snap: int, seen: nat)

  datatype Desk = Desk(owed: int, charges: nat, holder: Option<nat>, registers: seq<Register>)

  datatype Move =
    | Begin(i: nat)
    | TakeLock(i: nat)
    | PassGate(i: nat, c: Charge)
    | Store(i: nat)
    | GiveUp(i: nat)
    | Receive(amount: nat)   // a settlement; it takes no lock

  function At(d: Desk, i: nat): Register { if i < |d.registers| then d.registers[i] else Away }

  function Leave(d: Desk, i: nat): Desk
    requires i < |d.registers|
  {
    d.(registers := d.registers[i := Away], holder := if d.holder == Some(i) then None else d.holder)
  }

  type Refusal = (int, int, nat) -> bool

  /** The limit is active and every charge is under the blocking policy. */
  function Apply(refuses: Refusal, limit: int, d: Desk, m: Move): Desk {
    match m
    case Begin(i) =>
      if i < |d.registers| && d.registers[i].Away?
      then d.(registers := d.registers[i := Begun(d.owed, d.charges)]) else d
    case TakeLock(i) =>
      if At(d, i).Begun? && d.holder.None?
      then d.(registers := d.registers[i := Holding(d.registers[i].snap, d.registers[i].seen)], holder := Some(i))
      else d
    case PassGate(i, c) =>
      if At(d, i).Holding? && c.amount > 0 then
        var Holding(snap, seen) := d.registers[i];
        if Gate(PositionOf(snap, limit, true, c.amount), c.(policy := HardBlock)) == Pass
        then d.(registers := d.registers[i := Passed(c.amount, snap, seen)])
        else Leave(d, i)
      else d
    case Store(i) =>
      if At(d, i).Passed? then
        var Passed(amount, snap, seen) := d.registers[i];
        if d.charges > seen && refuses(snap, d.owed, amount) then Leave(d, i)
        else Leave(d, i).(owed := d.owed + amount, charges := d.charges + 1)
      else d
    case GiveUp(i) => if i < |d.registers| then Leave(d, i) else d
    case Receive(amount) => d.(owed := d.owed - amount)
  }

  function Run(refuses: Refusal, limit: int, d: Desk, ms: seq<Move>): Desk {
    if ms == [] then d else Apply(refuses, limit, Run(refuses, limit, d, ms[..|ms| - 1]), ms[|ms| - 1])
  }

  ghost predicate AllAway(d: Desk) {
    d.holder.None? && forall i :: 0 <= i < |d.registers| ==> d.registers[i].Away?
  }

  /** What the database has to refuse: a charge that fits its snapshot but would take what
      is owed by then past the limit. */
  ghost predicate RefusesOverruns(refuses: Refusal, limit: int) {
    forall snap: int, owed: int, amount: nat ::
      amount > 0 && snap + amount <= limit && owed <= limit && owed + amount > limit ==> refuses(snap, owed, amount)
  }

  ghost predicate NeverOver(refuses: Refusal, limit: int) {
    forall d: Desk, ms: seq<Move> :: AllAway(d) ==> Run(refuses, limit, d, ms).owed <= Max(d.owed, limit)
  }

  // ---- enough ------------------------------------------------------------------------------

  /** A snapshot that misses no charge counts at least what is owed now, and once the
      customer was within the limit they stay there. */
  ghost predicate Sound(limit: int, start: int, d: Desk) {
    && d.owed <= Max(start, limit)
    && forall i :: 0 <= i < |d.registers| && !d.registers[i].Away? ==>
         var r := d.registers[i];
         && r.seen <= d.charges && (r.seen == d.charges ==> d.owed <= r.snap)
         && (r.snap <= limit ==> d.owed <= limit)
         && (r.Passed? ==> r.amount > 0 && r.snap + r.amount <= limit)
  }

  lemma MoveKeepsSound(refuses: Refusal, limit: int, start: int, d: Desk, m: Move)
    requires limit > 0 && RefusesOverruns(refuses, limit) && Sound(limit, start, d)
    ensures Sound(limit, start, Apply(refuses, limit, d, m))
  {
  }

  lemma {:induction false} RunStaysSound(refuses: Refusal, limit: int, d: Desk, ms: seq<Move>)
    requires limit > 0 && RefusesOverruns(refuses, limit) && AllAway(d)
    ensures Sound(limit, d.owed, Run(refuses, limit, d, ms))
  {
    if ms != [] {
      RunStaysSound(refuses, limit, d, ms[..|ms| - 1]);
      hide Sound, Apply;
      MoveKeepsSound(refuses, limit, d.owed, Run(refuses, limit, d, ms[..|ms| - 1]), ms[|ms| - 1]);
    }
  }

  // ---- and needed -----------------------------------------------------------------------------

  function Hard(amount: int): Charge { Charge(amount, 0, HardBlock, false, false, false) }

  lemma Then(refuses: Refusal, limit: int, d: Desk, ms: seq<Move>, m: Move)
    ensures Run(refuses, limit, d, ms + [m]) == Apply(refuses, limit, Run(refuses, limit, d, ms), m)
  {
    assert (ms + [m])[..|ms|] == ms;
  }

  lemma NoMoves(refuses: Refusal, limit: int, d: Desk)
    ensures Run(refuses, limit, d, []) == d
  {
  }

  /** Register 1 begins; register 0 begins, and charges all that is left. */
  lemma OtherCharge(refuses: Refusal, limit: int, snap: int) returns (ms: seq<Move>)
    requires limit > 0 && snap < limit
    ensures Run(refuses, limit, Desk(snap, 0, None, [Away, Away]), ms) == Desk(limit, 1, None, [Away, Begun(snap, 0)])
  {
    hide Run;
    var d, rest := Desk(snap, 0, None, [Away, Away]), limit - snap;
    NoMoves(refuses, limit, d);
    Then(refuses, limit, d, [], Begin(1));
    ms := [] + [Begin(1)];
    assert Run(refuses, limit, d, ms) == Desk(snap, 0, None, [Away, Begun(snap, 0)]);
    Then(refuses, limit, d, ms, Begin(0));
    ms := ms + [Begin(0)];
    assert Run(refuses, limit, d, ms) == Desk(snap, 0, None, [Begun(snap, 0), Begun(snap, 0)]);
    Then(refuses, limit, d, ms, TakeLock(0));
    ms := ms + [TakeLock(0)];
    assert Run(refuses, limit, d, ms) == Desk(snap, 0, Some(0), [Holding(snap, 0), Begun(snap, 0)]);
    Then(refuses, limit, d, ms, PassGate(0, Hard(rest)));
    ms := ms + [PassGate(0, Hard(rest))];
    assert Run(refuses, limit, d, ms) == Desk(snap, 0, Some(0), [Passed(rest, snap, 0), Begun(snap, 0)]);
    Then(refuses, limit, d, ms, Store(0));
    ms := ms + [Store(0)];
  }

  /** Then a settlement brings the debt to `owed`, and register 1 charges on its old snapshot. */
  lemma Overrun(refuses: Refusal, limit: int, snap: int, owed: int, amount: nat) returns (ms: seq<Move>)
    requires limit > 0 && amount > 0 && snap + amount <= limit && owed <= limit && owed + amount > limit
    requires !refuses(snap, owed, amount)
    ensures Run(refuses, limit, Desk(snap, 0, None, [Away, Away]), ms).owed == owed + amount
  {
    ms := OtherCharge(refuses, limit, snap);
    hide Run;
    var d := Desk(snap, 0, None, [Away, Away]);
    Then(refuses, limit, d, ms, Receive(limit - owed));
    ms := ms + [Receive(limit - owed)];
    assert Run(refuses, limit, d, ms) == Desk(owed, 1, None, [Away, Begun(snap, 0)]);
    Then(refuses, limit, d, ms, TakeLock(1));
    ms := ms + [TakeLock(1)];
    assert Run(refuses, limit, d, ms) == Desk(owed, 1, Some(1), [Away, Holding(snap, 0)]);
    Then(refuses, limit, d, ms, PassGate(1, Hard(amount)));
    ms := ms + [PassGate(1, Hard(amount))];
    assert Run(refuses, limit, d, ms) == Desk(owed, 1, Some(1), [Away, Passed(amount, snap, 0)]);
    Then(refuses, limit, d, ms, Store(1));
    ms := ms + [Store(1)];
  }

  /** With snapshot readings a positive limit holds over every run exactly when the database
      refuses each charge that fits its outdated snapshot but no longer the limit; a charge
      that still fits needs no refusal. */
  lemma LimitHoldsExactlyWhenRefused(refuses: Refusal, limit: int)
    requires limit > 0
    ensures NeverOver(refuses, limit) <==> RefusesOverruns(refuses, limit)
  {
    hide Run;
    if RefusesOverruns(refuses, limit) {
      forall d: Desk, ms: seq<Move> | AllAway(d) ensures Run(refuses, limit, d, ms).owed <= Max(d.owed, limit) {
        RunStaysSound(refuses, limit, d, ms);
      }
    }
    forall snap: int, owed: int, amount: nat |
      amount > 0 && snap + amount <= limit && owed <= limit && owed + amount > limit && !refuses(snap, owed, amount)
      ensures !NeverOver(refuses, limit)
    {
      var ms := Overrun(refuses, limit, snap, owed, amount);
      assert AllAway(Desk(snap, 0, None, [Away, Away]));
    }
  }
}
