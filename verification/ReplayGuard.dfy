/** Request replay protection: a timestamp window, a single-use nonce, and the clean-up
    of old nonces. Time is in seconds; `seen_at` keeps whole seconds only. */
module ReplayGuard {
  import opened Common

  type Key = (string, string)   // (principal, nonce)

  datatype Reason =
    | Accepted
    | Unsigned
    | SignatureRequired
    | InvalidSignature
    | UnknownKey
    | RevokedKey
    | FutureSignature
    | ExpiredSignature
    | ReplayedRequest

  datatype KeyState = Usable | Unknown | Revoked

  /** The timestamp header as read: absent, unreadable, or a floating-point value. */
  datatype Stamp = NoStamp | BadStamp | NotANumber | Infinite(future: bool) | Stamp(at: real)

  /** `stamp - now > skew`; no comparison with not-a-number holds. */
  predicate TooEarly(st: Stamp, skew: int, now: real) {
    (st.Infinite? && st.future) || (st.Stamp? && st.at - now > skew as real)
  }

  predicate TooLate(st: Stamp, skew: int, now: real) {
    (st.Infinite? && !st.future) || (st.Stamp? && now - st.at > skew as real)
  }

  /** A request as the gate sees it; an empty nonce means the header is absent. */
  datatype Request = Request(
    principal: string, stamp: Stamp, nonce: string, signed: bool, signatureValid: bool,
    duplicateHeader: bool, key: KeyState, hasSecret: bool)

  // ---- the parts of a request ---------------------------------------------------------

  /** No signature header at all. */
  predicate NoneSent(r: Request) { r.stamp.NoStamp? && r.nonce == "" && !r.signed }

  predicate SomeMissing(r: Request) { r.stamp.NoStamp? || r.nonce == "" || !r.signed }

  predicate Complete(r: Request) { !r.duplicateHeader && !SomeMissing(r) }

  /** Complete, signed with a usable key, and with a timestamp that reads as a number or as
      one of the values that are none. */
  predicate Readable(r: Request) { Complete(r) && r.key.Usable? && r.hasSecret && !r.stamp.BadStamp? }

  predicate Ahead(st: Stamp, limit: real) { (st.Infinite? && st.future) || (st.Stamp? && st.at > limit) }

  predicate Behind(st: Stamp, limit: real) { (st.Infinite? && !st.future) || (st.Stamp? && st.at < limit) }

  predicate Inside(r: Request, skew: int, now: real) {
    Readable(r) && !Ahead(r.stamp, now + skew as real) && !Behind(r.stamp, now - skew as real)
  }

  /** Principal and nonce are given, and the pair is not stored. */
  predicate Free(rows: map<Key, int>, r: Request) {
    r.principal != "" && r.nonce != "" && (r.principal, r.nonce) !in rows
  }

  /** Every check of the gate that comes before the nonce claim. */
  function Precheck(r: Request, required: bool, skew: int, now: real): Reason {
    if r.duplicateHeader then InvalidSignature
    else if r.stamp.NoStamp? && r.nonce == "" && !r.signed then if required then SignatureRequired else Unsigned
    else if r.stamp.NoStamp? || r.nonce == "" || !r.signed then if required then SignatureRequired else InvalidSignature
    else if r.key.Unknown? then UnknownKey
    else if r.key.Revoked? then RevokedKey
    else if !r.hasSecret || r.stamp.BadStamp? then InvalidSignature
    else if TooEarly(r.stamp, skew, now) then FutureSignature
    else if TooLate(r.stamp, skew, now) then ExpiredSignature
    else if !r.signatureValid then InvalidSignature
    else Accepted
  }

  predicate Claimable(rows: map<Key, int>, k: Key) {
    k.0 != "" && k.1 != "" && k !in rows
  }

  function Stale(rows: map<Key, int>, before: int): set<Key> {
    set k | k in rows && rows[k] < before
  }

  /** The durable nonce table. */
  class NonceStore {
    var rows: map<Key, int>

    constructor ()
      ensures rows == map[]
    {
      rows := map[];
    }

    method Claim(principal: string, nonce: string, now: real) returns (ok: bool)
      modifies this
      ensures ok <==> Claimable(old(rows), (principal, nonce))
      ensures rows == if ok then old(rows)[(principal, nonce) := now.Floor] else old(rows)
    {
      ok := Claimable(rows, (principal, nonce));
      if ok { rows := rows[(principal, nonce) := now.Floor]; }
    }

    /** Delete nonces seen before `before`: all of them, or any `limit` of them. */
    method Gc(before: int, limit: nat) returns (n: nat)
      modifies this
      ensures var gone := old(rows).Keys - rows.Keys;
              && gone <= Stale(old(rows), before)
              && n == |gone|
              && n == (if limit == 0 || |Stale(old(rows), before)| <= limit then |Stale(old(rows), before)| else limit)
      ensures rows == old(rows) - (old(rows).Keys - rows.Keys)
    {
      var stale := Stale(rows, before);
      ghost var all := stale;
      n := 0;
      ghost var gone: set<Key> := {};
      while stale != {} && (limit == 0 || n < limit)
        invariant gone + stale == all && gone !! stale && n == |gone|
        invariant rows == old(rows) - gone
        invariant limit > 0 ==> n <= limit
        decreases stale
      {
        var k :| k in stale;
        rows := rows - {k};
        stale := stale - {k};
        gone := gone + {k};
        n := n + 1;
      }
      assert old(rows).Keys - rows.Keys == gone;
      assert |all| == |gone| + |stale|;
    }

    /** The gate: a nonce is claimed only after everything else has passed, and a request
        that passed once passes again without a claim. Otherwise each answer has its own
        condition on the request, the window and the nonces. */
    method Verify(env: Environ, r: Request, required: bool, skew: int, now: real, claimedAt: real)
        returns (reason: Reason)
      modifies this, env
      ensures old(env.verified) ==> reason.Accepted? && rows == old(rows) && env.verified
      ensures !old(env.verified) ==>
        && (reason.Unsigned? <==> !r.duplicateHeader && NoneSent(r) && !required)
        && (reason.SignatureRequired? <==> !r.duplicateHeader && SomeMissing(r) && required)
        && (reason.UnknownKey? <==> Complete(r) && r.key.Unknown?)
        && (reason.RevokedKey? <==> Complete(r) && r.key.Revoked?)
        && (reason.FutureSignature? <==> Readable(r) && Ahead(r.stamp, now + skew as real))
        && (reason.ExpiredSignature? <==>
              Readable(r) && !Ahead(r.stamp, now + skew as real) && Behind(r.stamp, now - skew as real))
        && (reason.InvalidSignature? <==>
              || r.duplicateHeader
              || (!required && SomeMissing(r) && !NoneSent(r))
              || (Complete(r) && r.key.Usable? && (!r.hasSecret || r.stamp.BadStamp?))
              || (Inside(r, skew, now) && !r.signatureValid))
        && (reason.ReplayedRequest? <==> Inside(r, skew, now) && r.signatureValid && !Free(old(rows), r))
        && (reason.Accepted? <==> Inside(r, skew, now) && r.signatureValid && Free(old(rows), r))
      ensures !old(env.verified) ==> env.verified == reason.Accepted?
      ensures !old(env.verified) ==>
                rows == if reason.Accepted? then old(rows)[(r.principal, r.nonce) := claimedAt.Floor] else old(rows)
    {
      if env.verified { return Accepted; }
      reason := Precheck(r, required, skew, now);
      if reason.Accepted? {
        var ok := Claim(r.principal, r.nonce, claimedAt);
        if ok { env.verified := true; } else { reason := ReplayedRequest; }
      }
    }
  }

  /** What one HTTP request carries from run to run of its handler. */
  class Environ {
    var verified: bool

    constructor ()
      ensures !verified
    {
      verified := false;
    }
  }

  // ---- requests in flight ----------------------------------------------------------

  /** `lag`: whole seconds that can pass between window check and claim, if bounded at all.
      `reruns`: a handler can be rolled back and run again within its request. */
  datatype Config = Config(skew: int, retention: int, lag: Option<nat>, reruns: bool)

  /** What an accepted request proves: who, when, and which nonce. */
  datatype Proof = Proof(principal: string, stamp: Stamp, nonce: string)

  datatype Phase =
    | Checked(at: real)   // the window check and everything else passed
    | Claimed             // the nonce is claimed in a transaction that still runs
    | Rerunning           // rolled back, claim included, and passed again on the cached verdict
    | Ended

  datatype Flight = Flight(proof: Proof, phase: Phase)

  /** `rows` holds committed nonces and those of running transactions; `accepted` lists the
      proofs of requests that took effect. */
  datatype State = State(now: real, rows: map<Key, int>, flights: seq<Flight>, accepted: seq<Proof>)

  datatype Step =
    | Tick(d: real)
    | Check(r: Request, required: bool)
    | ClaimNonce(i: nat)
    | Commit(i: nat)
    | Rerun(i: nat)
    | Abort(i: nat)
    | Collect(chosen: set<Key>)

  function KeyOf(p: Proof): Key { (p.principal, p.nonce) }

  /** The row belongs to a transaction that has not ended; others wait for it. */
  predicate Pending(flights: seq<Flight>, k: Key) {
    exists i :: 0 <= i < |flights| && flights[i].phase.Claimed? && KeyOf(flights[i].proof) == k
  }

  function To(s: State, i: nat, phase: Phase): State
    requires i < |s.flights|
  {
    s.(flights := s.flights[i := s.flights[i].(phase := phase)])
  }

  predicate InTime(cfg: Config, at: real, now: real) {
    cfg.lag.Some? ==> now - at <= cfg.lag.value as real
  }

  /** One step; a step that is not enabled changes nothing. */
  function Apply(cfg: Config, s: State, step: Step): State {
    match step
    case Tick(d) => if d > 0.0 then s.(now := s.now + d) else s
    case Check(r, required) =>
      if Precheck(r, required, cfg.skew, s.now).Accepted?
      then s.(flights := s.flights + [Flight(Proof(r.principal, r.stamp, r.nonce), Checked(s.now))]) else s
    case Collect(chosen) =>
      var gone := set k | k in chosen * Stale(s.rows, s.now.Floor - cfg.retention) && !Pending(s.flights, k);
      s.(rows := s.rows - gone)
    case ClaimNonce(i) => if i < |s.flights| then ClaimIn(cfg, s, i) else s
    case Commit(i) => if i < |s.flights| then CommitIn(s, i) else s
    case Rerun(i) =>
      if cfg.reruns && i < |s.flights| && s.flights[i].phase.Claimed?
      then To(s, i, Rerunning).(rows := s.rows - {KeyOf(s.flights[i].proof)}) else s
    case Abort(i) => if i < |s.flights| then AbortIn(s, i) else s
  }

  function ClaimIn(cfg: Config, s: State, i: nat): State
    requires i < |s.flights|
  {
    var k := KeyOf(s.flights[i].proof);
    if !s.flights[i].phase.Checked? || !InTime(cfg, s.flights[i].phase.at, s.now) || Pending(s.flights, k) then s
    else if Claimable(s.rows, k) then To(s, i, Claimed).(rows := s.rows[k := s.now.Floor])
    else To(s, i, Ended)
  }

  function CommitIn(s: State, i: nat): State
    requires i < |s.flights|
  {
    if s.flights[i].phase.Claimed? || s.flights[i].phase.Rerunning?
    then To(s, i, Ended).(accepted := s.accepted + [s.flights[i].proof]) else s
  }

  function AbortIn(s: State, i: nat): State
    requires i < |s.flights|
  {
    if s.flights[i].phase.Claimed? then To(s, i, Ended).(rows := s.rows - {KeyOf(s.flights[i].proof)})
    else To(s, i, Ended)
  }

  function Run(cfg: Config, s: State, steps: seq<Step>): State {
    if steps == [] then s else Apply(cfg, Run(cfg, s, steps[..|steps| - 1]), steps[|steps| - 1])
  }

  function Start(now: real): State { State(now, map[], [], []) }

  /** The proof took effect twice. */
  ghost predicate Twice(accepted: seq<Proof>, p: Proof) {
    exists i, j :: 0 <= i < j < |accepted| && accepted[i] == p && accepted[j] == p
  }

  /** Some run from an empty table lets the proof take effect twice. */
  ghost predicate Replayable(cfg: Config, p: Proof) {
    exists now: real, steps: seq<Step> :: Twice(Run(cfg, Start(now), steps).accepted, p)
  }

  // ---- the condition -----------------------------------------------------------------

  /** Within its window a number is accepted once: nothing is run again, and a nonce outlives
      both ends of the window and the time a claim may lag behind its check. */
  predicate Protects(cfg: Config) {
    cfg.skew < 0 || (!cfg.reruns && cfg.lag.Some? && cfg.retention >= 2 * cfg.skew + cfg.lag.value)
  }

  // ---- every run -----------------------------------------------------------------------

  predicate Whole(p: Proof) {
    p.principal != "" && p.nonce != "" && (p.stamp.Stamp? || p.stamp.NotANumber?)
  }

  /** Holds under every configuration. */
  ghost predicate Basics(cfg: Config, s: State) {
    && (forall i :: 0 <= i < |s.accepted| ==> Whole(s.accepted[i]))
    && (forall i :: 0 <= i < |s.flights| && !s.flights[i].phase.Ended? ==> FlightOk(cfg, s.now, s.flights[i]))
    && (cfg.skew < 0 ==> forall i :: 0 <= i < |s.accepted| ==> s.accepted[i].stamp.NotANumber?)
  }

  ghost predicate FlightOk(cfg: Config, now: real, f: Flight) {
    && (f.proof.stamp.NotANumber? || (f.proof.stamp.Stamp? && cfg.skew >= 0))
    && (!f.phase.Checked? ==> Whole(f.proof))
    && (f.phase.Checked? ==> f.proof.nonce != "" && f.phase.at <= now)
    && (f.phase.Checked? && f.proof.stamp.Stamp? ==>
          -(cfg.skew as real) <= f.proof.stamp.at - f.phase.at <= cfg.skew as real)
  }

  lemma PrecheckMeans(cfg: Config, r: Request, required: bool, now: real)
    requires Precheck(r, required, cfg.skew, now).Accepted?
    ensures FlightOk(cfg, now, Flight(Proof(r.principal, r.stamp, r.nonce), Checked(now)))
  {
  }

  lemma StepKeepsBasics(cfg: Config, s: State, step: Step)
    requires Basics(cfg, s)
    ensures Basics(cfg, Apply(cfg, s, step))
  {
    hide Precheck, Pending, Stale;
    if step.Check? && Precheck(step.r, step.required, cfg.skew, s.now).Accepted? {
      PrecheckMeans(cfg, step.r, step.required, s.now);
    }
  }

  lemma {:induction false} RunKeepsBasics(cfg: Config, now: real, steps: seq<Step>)
    ensures Basics(cfg, Run(cfg, Start(now), steps))
  {
    hide Apply, Basics;
    if steps == [] {
      StartIsBasic(cfg, now);
    } else {
      RunKeepsBasics(cfg, now, steps[..|steps| - 1]);
      StepKeepsBasics(cfg, Run(cfg, Start(now), steps[..|steps| - 1]), steps[|steps| - 1]);
    }
  }

  lemma StartIsBasic(cfg: Config, now: real)
    ensures Basics(cfg, Start(now))
  {
  }

  // ---- runs that protect ------------------------------------------------------------------

  /** No copy of the proof can be claimed any more, or its nonce is committed and not older
      than the window allows. */
  ghost predicate Guarded(cfg: Config, s: State, p: Proof)
    requires p.stamp.Stamp? && cfg.lag.Some?
  {
    || s.now - p.stamp.at > (cfg.skew + cfg.lag.value) as real
    || (KeyOf(p) in s.rows && !Pending(s.flights, KeyOf(p)) && s.rows[KeyOf(p)] >= p.stamp.at.Floor - cfg.skew)
  }

  ghost predicate Inv(cfg: Config, s: State)
    requires cfg.lag.Some?
  {
    && Basics(cfg, s)
    && (forall i :: 0 <= i < |s.flights| ==> !s.flights[i].phase.Rerunning?)
    && (forall i, j :: 0 <= i < j < |s.flights| && s.flights[i].phase.Claimed? && s.flights[j].phase.Claimed? ==>
          KeyOf(s.flights[i].proof) != KeyOf(s.flights[j].proof))
    && (forall i :: 0 <= i < |s.flights| && s.flights[i].phase.Claimed? ==> HoldsRow(cfg, s, s.flights[i].proof))
    && (forall i, j :: 0 <= i < j < |s.accepted| && s.accepted[i].stamp.Stamp? ==> s.accepted[i] != s.accepted[j])
    && (forall i :: 0 <= i < |s.accepted| && s.accepted[i].stamp.Stamp? ==> Guarded(cfg, s, s.accepted[i]))
  }

  ghost predicate HoldsRow(cfg: Config, s: State, p: Proof) {
    && KeyOf(p) in s.rows
    && (p.stamp.Stamp? ==> p !in s.accepted && s.rows[KeyOf(p)] >= p.stamp.at.Floor - cfg.skew)
  }

  lemma FloorOfShift(x: real, n: int)
    ensures (x + n as real).Floor == x.Floor + n
  {
  }

  lemma FloorMonotone(x: real, y: real)
    requires x <= y
    ensures x.Floor <= y.Floor
  {
  }

  /** A collected nonce belonged to a proof of which no copy can be claimed any more. */
  lemma CollectedMeansExpired(cfg: Config, now: real, at: real, seen: int)
    requires Protects(cfg) && cfg.skew >= 0
    requires seen >= at.Floor - cfg.skew && seen < now.Floor - cfg.retention
    ensures now - at > (cfg.skew + cfg.lag.value) as real
  {
    assert now.Floor >= at.Floor + cfg.skew + cfg.lag.value + 1;
  }

  lemma PendingAfter(flights: seq<Flight>, i: nat, phase: Phase, k: Key)
    requires i < |flights|
    ensures !phase.Claimed? && Pending(flights[i := flights[i].(phase := phase)], k) ==> Pending(flights, k)
    ensures phase.Claimed? && k != KeyOf(flights[i].proof) && Pending(flights[i := flights[i].(phase := phase)], k) ==>
        Pending(flights, k)
  {
    var after := flights[i := flights[i].(phase := phase)];
    if Pending(after, k) && (!phase.Claimed? || k != KeyOf(flights[i].proof)) {
      var j :| 0 <= j < |after| && after[j].phase.Claimed? && KeyOf(after[j].proof) == k;
      assert flights[j].phase.Claimed? && KeyOf(flights[j].proof) == k;
    }
  }

  lemma CollectKeepsInv(cfg: Config, s: State, chosen: set<Key>)
    requires Protects(cfg) && cfg.skew >= 0 && Inv(cfg, s)
    ensures Inv(cfg, Apply(cfg, s, Collect(chosen)))
  {
    var t := Apply(cfg, s, Collect(chosen));
    StepKeepsBasics(cfg, s, Collect(chosen));
    hide Basics, Pending;
    forall i | 0 <= i < |t.accepted| && t.accepted[i].stamp.Stamp? ensures Guarded(cfg, t, t.accepted[i]) {
      var p := s.accepted[i];
      assert Guarded(cfg, s, p);
      if KeyOf(p) in s.rows && KeyOf(p) !in t.rows && s.rows[KeyOf(p)] >= p.stamp.at.Floor - cfg.skew {
        CollectedMeansExpired(cfg, s.now, p.stamp.at, s.rows[KeyOf(p)]);
      }
    }
    forall i | 0 <= i < |t.flights| && t.flights[i].phase.Claimed? ensures HoldsRow(cfg, t, t.flights[i].proof) {
      assert HoldsRow(cfg, s, s.flights[i].proof);
      IsPending(s.flights, i);
    }
  }

  lemma IsPending(flights: seq<Flight>, i: nat)
    requires i < |flights| && flights[i].phase.Claimed?
    ensures Pending(flights, KeyOf(flights[i].proof))
  {
  }

  lemma ClaimKeepsInv(cfg: Config, s: State, i: nat)
    requires Protects(cfg) && cfg.skew >= 0 && Inv(cfg, s) && i < |s.flights|
    requires s.flights[i].phase.Checked? && InTime(cfg, s.flights[i].phase.at, s.now)
    requires !Pending(s.flights, KeyOf(s.flights[i].proof)) && Claimable(s.rows, KeyOf(s.flights[i].proof))
    ensures Inv(cfg, ClaimIn(cfg, s, i))
  {
    var t, p := ClaimIn(cfg, s, i), s.flights[i].proof;
    assert t == Apply(cfg, s, ClaimNonce(i));
    StepKeepsBasics(cfg, s, ClaimNonce(i));
    assert FlightOk(cfg, s.now, s.flights[i]);
    hide Basics, Pending;
    if p.stamp.Stamp? {
      FloorMonotone(p.stamp.at - cfg.skew as real, t.now);
      FloorOfShift(p.stamp.at, -cfg.skew);
    }
    forall j | 0 <= j < |s.accepted| && s.accepted[j].stamp.Stamp?
      ensures Guarded(cfg, t, s.accepted[j]) && s.accepted[j] != p
    {
      assert Guarded(cfg, s, s.accepted[j]);
      PendingAfter(s.flights, i, Claimed, KeyOf(s.accepted[j]));
    }
    forall j | 0 <= j < |t.flights| && t.flights[j].phase.Claimed? ensures HoldsRow(cfg, t, t.flights[j].proof) {
      if j != i { assert HoldsRow(cfg, s, s.flights[j].proof); }
    }
  }

  lemma CommitKeepsInv(cfg: Config, s: State, i: nat)
    requires Protects(cfg) && cfg.skew >= 0 && Inv(cfg, s) && i < |s.flights| && s.flights[i].phase.Claimed?
    ensures Inv(cfg, CommitIn(s, i))
  {
    var t, p := CommitIn(s, i), s.flights[i].proof;
    assert t == Apply(cfg, s, Commit(i));
    StepKeepsBasics(cfg, s, Commit(i));
    assert HoldsRow(cfg, s, p);
    NoLongerPending(cfg, s, i);
    hide Basics, Pending;
    forall j | 0 <= j < |t.accepted| && t.accepted[j].stamp.Stamp? ensures Guarded(cfg, t, t.accepted[j]) {
      if j < |s.accepted| {
        assert Guarded(cfg, s, s.accepted[j]);
        PendingAfter(s.flights, i, Ended, KeyOf(s.accepted[j]));
      }
    }
    forall j | 0 <= j < |t.flights| && t.flights[j].phase.Claimed? ensures HoldsRow(cfg, t, t.flights[j].proof) {
      assert HoldsRow(cfg, s, s.flights[j].proof);
      assert KeyOf(s.flights[j].proof) != KeyOf(p);
    }
  }

  lemma NoLongerPending(cfg: Config, s: State, i: nat)
    requires cfg.lag.Some? && Inv(cfg, s) && i < |s.flights| && s.flights[i].phase.Claimed?
    ensures !Pending(To(s, i, Ended).flights, KeyOf(s.flights[i].proof))
  {
  }

  lemma AbortKeepsInv(cfg: Config, s: State, i: nat)
    requires Protects(cfg) && cfg.skew >= 0 && Inv(cfg, s) && i < |s.flights|
    ensures Inv(cfg, AbortIn(s, i))
  {
    var t, p := AbortIn(s, i), s.flights[i].proof;
    assert t == Apply(cfg, s, Abort(i));
    StepKeepsBasics(cfg, s, Abort(i));
    hide Basics, Pending;
    forall j | 0 <= j < |t.accepted| && t.accepted[j].stamp.Stamp? ensures Guarded(cfg, t, t.accepted[j]) {
      assert Guarded(cfg, s, s.accepted[j]);
      PendingAfter(s.flights, i, Ended, KeyOf(s.accepted[j]));
      if s.flights[i].phase.Claimed? { IsPending(s.flights, i); }
    }
    forall j | 0 <= j < |t.flights| && t.flights[j].phase.Claimed? ensures HoldsRow(cfg, t, t.flights[j].proof) {
      assert HoldsRow(cfg, s, s.flights[j].proof);
    }
  }

  lemma CheckKeepsInv(cfg: Config, s: State, r: Request, required: bool)
    requires Protects(cfg) && cfg.skew >= 0 && Inv(cfg, s)
    ensures Inv(cfg, Apply(cfg, s, Check(r, required)))
  {
    var t := Apply(cfg, s, Check(r, required));
    StepKeepsBasics(cfg, s, Check(r, required));
    hide Basics, Precheck;
    forall k | Pending(t.flights, k) ensures Pending(s.flights, k) {
      var i :| 0 <= i < |t.flights| && t.flights[i].phase.Claimed? && KeyOf(t.flights[i].proof) == k;
      assert s.flights[i] == t.flights[i];
    }
    forall i | 0 <= i < |t.accepted| && t.accepted[i].stamp.Stamp? ensures Guarded(cfg, t, t.accepted[i]) {
      assert Guarded(cfg, s, s.accepted[i]);
    }
  }

  lemma RefusedKeepsInv(cfg: Config, s: State, i: nat)
    requires Protects(cfg) && cfg.skew >= 0 && Inv(cfg, s) && i < |s.flights| && s.flights[i].phase.Checked?
    ensures Inv(cfg, To(s, i, Ended))
  {
    assert To(s, i, Ended) == AbortIn(s, i);
    AbortKeepsInv(cfg, s, i);
  }

  lemma TickKeepsInv(cfg: Config, s: State, d: real)
    requires Protects(cfg) && cfg.skew >= 0 && Inv(cfg, s)
    ensures Inv(cfg, Apply(cfg, s, Tick(d)))
  {
    StepKeepsBasics(cfg, s, Tick(d));
    hide Basics, Pending;
  }

  lemma StepKeepsInv(cfg: Config, s: State, step: Step)
    requires Protects(cfg) && cfg.skew >= 0 && Inv(cfg, s)
    ensures Inv(cfg, Apply(cfg, s, step))
  {
    hide Inv, Precheck, Pending, InTime, Claimable, Stale, AbortIn, To;
    match step
    case Tick(d) => TickKeepsInv(cfg, s, d);
    case Check(r, required) => CheckKeepsInv(cfg, s, r, required);
    case Collect(chosen) => CollectKeepsInv(cfg, s, chosen);
    case ClaimNonce(i) => if i < |s.flights| { ClaimStepKeepsInv(cfg, s, i); }
    case Commit(i) => if i < |s.flights| { CommitStepKeepsInv(cfg, s, i); }
    case Rerun(i) =>
    case Abort(i) => if i < |s.flights| { AbortKeepsInv(cfg, s, i); }
  }

  lemma ClaimStepKeepsInv(cfg: Config, s: State, i: nat)
    requires Protects(cfg) && cfg.skew >= 0 && Inv(cfg, s) && i < |s.flights|
    ensures Inv(cfg, ClaimIn(cfg, s, i))
  {
    hide Inv, Pending, InTime, Claimable, To;
    var f := s.flights[i];
    if f.phase.Checked? && InTime(cfg, f.phase.at, s.now) && !Pending(s.flights, KeyOf(f.proof)) {
      if Claimable(s.rows, KeyOf(f.proof)) { ClaimKeepsInv(cfg, s, i); } else { RefusedKeepsInv(cfg, s, i); }
    }
  }

  lemma CommitStepKeepsInv(cfg: Config, s: State, i: nat)
    requires Protects(cfg) && cfg.skew >= 0 && Inv(cfg, s) && i < |s.flights|
    ensures Inv(cfg, CommitIn(s, i))
  {
    if s.flights[i].phase.Claimed? { CommitKeepsInv(cfg, s, i); }
  }

  lemma {:induction false} RunKeepsInv(cfg: Config, now: real, steps: seq<Step>)
    requires Protects(cfg) && cfg.skew >= 0
    ensures Inv(cfg, Run(cfg, Start(now), steps))
  {
    hide Apply, Inv;
    if steps == [] {
      StartIsGuarded(cfg, now);
    } else {
      RunKeepsInv(cfg, now, steps[..|steps| - 1]);
      StepKeepsInv(cfg, Run(cfg, Start(now), steps[..|steps| - 1]), steps[|steps| - 1]);
    }
  }

  lemma StartIsGuarded(cfg: Config, now: real)
    requires cfg.lag.Some?
    ensures Inv(cfg, Start(now))
  {
  }

  // ---- the runs in which a proof takes effect twice ------------------------------------------

  /** A valid request that carries the proof. */
  function Signed(p: Proof): Request {
    Request(p.principal, p.stamp, p.nonce, true, true, false, Usable, true)
  }

  predicate InWindow(cfg: Config, p: Proof, now: real) {
    Precheck(Signed(p), true, cfg.skew, now).Accepted?
  }

  lemma Then(cfg: Config, s: State, steps: seq<Step>, step: Step)
    ensures Run(cfg, s, steps + [step]) == Apply(cfg, Run(cfg, s, steps), step)
  {
    assert (steps + [step])[..|steps|] == steps;
  }

  lemma NoSteps(cfg: Config, s: State)
    ensures Run(cfg, s, []) == s
  {
  }

  /** Checked, claimed and committed at one moment, as the first copy of the proof. */
  lemma FirstCopy(cfg: Config, p: Proof, now: real) returns (steps: seq<Step>)
    requires Whole(p) && InWindow(cfg, p, now)
    ensures Run(cfg, Start(now), steps) == State(now, map[KeyOf(p) := now.Floor], [Flight(p, Ended)], [p])
  {
    hide Run, Precheck;
    NoSteps(cfg, Start(now));
    Then(cfg, Start(now), [], Check(Signed(p), true));
    steps := [] + [Check(Signed(p), true)];
    assert Run(cfg, Start(now), steps) == State(now, map[], [Flight(p, Checked(now))], []);
    Then(cfg, Start(now), steps, ClaimNonce(0));
    steps := steps + [ClaimNonce(0)];
    assert Run(cfg, Start(now), steps) == State(now, map[KeyOf(p) := now.Floor], [Flight(p, Claimed)], []);
    Then(cfg, Start(now), steps, Commit(0));
    steps := steps + [Commit(0)];
  }

  /** The second copy, checked at `checked` and claimed at `claimed`, with the nonce collected
      in between. */
  lemma SecondCopy(cfg: Config, p: Proof, start: real, before: seq<Step>, wait: int, lag: int)
      returns (steps: seq<Step>)
    requires Whole(p) && InWindow(cfg, p, start + wait as real) && wait >= 0 && lag >= 0
    requires cfg.lag.Some? ==> lag <= cfg.lag.value
    requires wait + lag > cfg.retention
    requires Run(cfg, Start(start), before) == State(start, map[KeyOf(p) := start.Floor], [Flight(p, Ended)], [p])
    ensures Run(cfg, Start(start), steps).accepted == [p, p]
  {
    hide Run, Precheck;
    var checked, claimed := start + wait as real, start + wait as real + lag as real;
    var s := Start(start);
    Then(cfg, s, before, Tick(wait as real));
    steps := before + [Tick(wait as real)];
    assert Run(cfg, s, steps) == State(checked, map[KeyOf(p) := start.Floor], [Flight(p, Ended)], [p]);
    Then(cfg, s, steps, Check(Signed(p), true));
    steps := steps + [Check(Signed(p), true)];
    var flights := [Flight(p, Ended), Flight(p, Checked(checked))];
    assert Run(cfg, s, steps) == State(checked, map[KeyOf(p) := start.Floor], flights, [p]);
    Then(cfg, s, steps, Tick(lag as real));
    steps := steps + [Tick(lag as real)];
    assert Run(cfg, s, steps) == State(claimed, map[KeyOf(p) := start.Floor], flights, [p]);
    Then(cfg, s, steps, Collect({KeyOf(p)}));
    steps := steps + [Collect({KeyOf(p)})];
    Collected(cfg, p, start, wait + lag, flights);
    assert Run(cfg, s, steps) == State(claimed, map[], flights, [p]);
    steps := LastCopy(cfg, p, s, steps);
  }

  lemma Collected(cfg: Config, p: Proof, start: real, gap: int, flights: seq<Flight>)
    requires gap > cfg.retention && forall i :: 0 <= i < |flights| ==> !flights[i].phase.Claimed?
    ensures var s := State(start + gap as real, map[KeyOf(p) := start.Floor], flights, [p]);
      Apply(cfg, s, Collect({KeyOf(p)})) == s.(rows := map[])
  {
    FloorOfShift(start, gap);
    var s := State(start + gap as real, map[KeyOf(p) := start.Floor], flights, [p]);
    assert KeyOf(p) in Stale(s.rows, s.now.Floor - cfg.retention);
    assert s.rows - {KeyOf(p)} == map[];
  }

  /** A checked second copy whose nonce is free takes effect. */
  lemma LastCopy(cfg: Config, p: Proof, s: State, before: seq<Step>) returns (steps: seq<Step>)
    requires Whole(p)
    requires var now := Run(cfg, s, before);
      && now.rows == map[] && now.accepted == [p] && |now.flights| == 2
      && now.flights[0] == Flight(p, Ended) && now.flights[1].proof == p && now.flights[1].phase.Checked?
      && InTime(cfg, now.flights[1].phase.at, now.now)
    ensures Run(cfg, s, steps).accepted == [p, p]
  {
    hide Run, InTime;
    var now := Run(cfg, s, before);
    Then(cfg, s, before, ClaimNonce(1));
    steps := before + [ClaimNonce(1)];
    assert !Pending(now.flights, KeyOf(p));
    assert Run(cfg, s, steps) == To(now, 1, Claimed).(rows := map[KeyOf(p) := now.now.Floor]);
    Then(cfg, s, steps, Commit(1));
    steps := steps + [Commit(1)];
  }

  /** Claimed, rolled back and run again: the first copy takes effect and leaves no nonce, so
      a second copy inside the window takes effect as well. */
  lemma RerunReplays(cfg: Config, p: Proof, now: real) returns (steps: seq<Step>)
    requires cfg.reruns && Whole(p) && InWindow(cfg, p, now)
    ensures Run(cfg, Start(now), steps).accepted == [p, p]
  {
    hide Run, Precheck;
    var s := Start(now);
    NoSteps(cfg, s);
    Then(cfg, s, [], Check(Signed(p), true));
    steps := [] + [Check(Signed(p), true)];
    assert Run(cfg, s, steps) == State(now, map[], [Flight(p, Checked(now))], []);
    Then(cfg, s, steps, ClaimNonce(0));
    steps := steps + [ClaimNonce(0)];
    assert Run(cfg, s, steps) == State(now, map[KeyOf(p) := now.Floor], [Flight(p, Claimed)], []);
    Then(cfg, s, steps, Rerun(0));
    steps := steps + [Rerun(0)];
    assert map[KeyOf(p) := now.Floor] - {KeyOf(p)} == map[];
    assert Run(cfg, s, steps) == State(now, map[], [Flight(p, Rerunning)], []);
    Then(cfg, s, steps, Commit(0));
    steps := steps + [Commit(0)];
    assert Run(cfg, s, steps) == State(now, map[], [Flight(p, Ended)], [p]);
    Then(cfg, s, steps, Check(Signed(p), true));
    steps := steps + [Check(Signed(p), true)];
    assert Run(cfg, s, steps) == State(now, map[], [Flight(p, Ended), Flight(p, Checked(now))], [p]);
    steps := LastCopy(cfg, p, s, steps);
  }

  /** Collected while the second copy is between its check and its claim, or, for a timestamp
      that is not a number, at any time after the retention. */
  lemma CollectionReplays(cfg: Config, p: Proof) returns (now: real, steps: seq<Step>)
    requires Whole(p)
    requires p.stamp.NotANumber?
          || (cfg.skew >= 0 && (cfg.lag.Some? ==> cfg.retention < 2 * cfg.skew + cfg.lag.value))
    ensures Run(cfg, Start(now), steps).accepted == [p, p]
  {
    hide Run;
    var wait, lag: int;
    if p.stamp.NotANumber? {
      now, wait, lag := 0.0, if cfg.retention >= 0 then cfg.retention + 1 else 0, 0;
    } else {
      now, wait := p.stamp.at - cfg.skew as real, 2 * cfg.skew;
      lag := if cfg.lag.Some? then cfg.lag.value else if cfg.retention >= wait then cfg.retention - wait + 1 else 0;
      assert now + wait as real == p.stamp.at + cfg.skew as real;
      assert wait + lag > cfg.retention;
    }
    steps := FirstCopy(cfg, p, now);
    steps := SecondCopy(cfg, p, now, steps, wait, lag);
  }

  /** A proof can take effect twice exactly when it is complete and its timestamp is not a
      number, or is a number that the configuration does not protect. */
  lemma ReplayableExactlyWhen(cfg: Config, p: Proof)
    ensures Replayable(cfg, p) <==> Whole(p) && (p.stamp.NotANumber? || !Protects(cfg))
  {
    hide Run;
    if Whole(p) && (p.stamp.NotANumber? || !Protects(cfg)) {
      var now, steps := SomeReplay(cfg, p);
      assert Twice(Run(cfg, Start(now), steps).accepted, p) by {
        assert Run(cfg, Start(now), steps).accepted[0] == p && Run(cfg, Start(now), steps).accepted[1] == p;
      }
    }
    forall now: real, steps: seq<Step> | Twice(Run(cfg, Start(now), steps).accepted, p)
      ensures Whole(p) && (p.stamp.NotANumber? || !Protects(cfg))
    {
      TwiceMeans(cfg, p, now, steps);
    }
  }

  lemma SomeReplay(cfg: Config, p: Proof) returns (now: real, steps: seq<Step>)
    requires Whole(p) && (p.stamp.NotANumber? || !Protects(cfg))
    ensures Run(cfg, Start(now), steps).accepted == [p, p]
  {
    hide Run;
    if p.stamp.Stamp? && cfg.reruns {
      now := p.stamp.at;
      steps := RerunReplays(cfg, p, now);
    } else {
      now, steps := CollectionReplays(cfg, p);
    }
  }

  lemma TwiceMeans(cfg: Config, p: Proof, now: real, steps: seq<Step>)
    requires Twice(Run(cfg, Start(now), steps).accepted, p)
    ensures Whole(p) && (p.stamp.NotANumber? || !Protects(cfg))
  {
    hide Run;
    RunKeepsBasics(cfg, now, steps);
    if Protects(cfg) && cfg.skew >= 0 { RunKeepsInv(cfg, now, steps); }
  }

  /** No run lets a proof with a numeric timestamp take effect twice. */
  ghost predicate ReplaySafe(cfg: Config) {
    forall p: Proof :: p.stamp.Stamp? ==> !Replayable(cfg, p)
  }

  /** For numeric timestamps the gate is safe exactly when the skew is negative, or nothing is
      run again and the retention covers twice the skew and the longest lag of a claim. */
  lemma ReplaySafeExactlyWhen(cfg: Config)
    ensures ReplaySafe(cfg) <==>
      cfg.skew < 0 || (!cfg.reruns && cfg.lag.Some? && cfg.retention >= 2 * cfg.skew + cfg.lag.value)
  {
    forall p: Proof ensures Replayable(cfg, p) <==> Whole(p) && (p.stamp.NotANumber? || !Protects(cfg)) {
      ReplayableExactlyWhen(cfg, p);
    }
    hide Replayable;
    var some := Proof("t", Stamp(0.0), "n");
    assert some.stamp.Stamp? && Whole(some);
  }

  /** The shipped window of 300 s and retention of 3600 s are safe exactly without re-runs and
      with claims that lag at most 3000 s; a retention just above the window never is. */
  lemma ShippedSettings(lag: Option<nat>, reruns: bool)
    ensures ReplaySafe(Config(300, 3600, lag, reruns)) <==> !reruns && lag.Some? && lag.value <= 3000
    ensures !ReplaySafe(Config(300, 301, lag, reruns))
  {
    ReplaySafeExactlyWhen(Config(300, 3600, lag, reruns));
    ReplaySafeExactlyWhen(Config(300, 301, lag, reruns));
  }
}
