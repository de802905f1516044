/** The order lifecycle: a table of allowed transitions, replay of event logs, and the
    search for all states a start state can reach. */
module OrderFsm {
  import opened Common

  datatype State = Draft | Open | Held | Confirmed | Sent | Cooking | Ready | Served | Paid | Closed | Cancelled
    | Refunded | Archived

  datatype Event = AddLine | Opened | Hold | Resume | Confirm | Send | StartCooking | MarkReady | Serve
    | PayPartial | PayFull | Close | Cancel | Refund | Archive

  /** The allowed events of a state; what is absent is forbidden. */
  function Row(s: State): map<Event, State> {
    match s
    case Draft => map[AddLine := Draft, Opened := Open, Cancel := Cancelled]
    case Open => map[AddLine := Open, Hold := Held, Confirm := Confirmed, Send := Sent, PayPartial := Open,
                     PayFull := Paid, Cancel := Cancelled]
    case Held => map[Resume := Open, Cancel := Cancelled]
    case Confirmed => map[Send := Sent, PayPartial := Confirmed, PayFull := Paid, Cancel := Cancelled]
    case Sent => map[StartCooking := Cooking, PayPartial := Sent, PayFull := Paid, Cancel := Cancelled]
    case Cooking => map[MarkReady := Ready, PayPartial := Cooking, PayFull := Paid]
    case Ready => map[Serve := Served, PayPartial := Ready, PayFull := Paid]
    case Served => map[PayPartial := Served, PayFull := Paid, Cancel := Cancelled]
    case Paid => map[Close := Closed, Refund := Refunded]
    case Closed => map[Refund := Refunded, Archive := Archived]
    case Cancelled => map[Archive := Archived]
    case Refunded => map[Archive := Archived]
    case Archived => map[]
  }

  function Next(s: State, e: Event): Option<State> {
    if e in Row(s) then Some(Row(s)[e]) else None
  }

  predicate IsSettled(s: State) { s == Paid || s == Closed || s == Refunded }
  predicate IsPrePayment(s: State) {
    s == Draft || s == Open || s == Held || s == Confirmed || s == Sent || s == Cooking || s == Ready || s == Served
  }

  predicate CanPay(s: State) {
    s == Open || s == Confirmed || s == Sent || s == Cooking || s == Ready || s == Served
  }

  /** The same table read by events: from which states each is allowed, and where it leads. */
  lemma EventsMean(s: State)
    ensures Next(s, AddLine) == if s == Draft || s == Open then Some(s) else None
    ensures Next(s, Opened) == if s == Draft then Some(Open) else None
    ensures Next(s, Hold) == if s == Open then Some(Held) else None
    ensures Next(s, Resume) == if s == Held then Some(Open) else None
    ensures Next(s, Confirm) == if s == Open then Some(Confirmed) else None
    ensures Next(s, Send) == if s == Open || s == Confirmed then Some(Sent) else None
    ensures Next(s, StartCooking) == if s == Sent then Some(Cooking) else None
    ensures Next(s, MarkReady) == if s == Cooking then Some(Ready) else None
    ensures Next(s, Serve) == if s == Ready then Some(Served) else None
    ensures Next(s, PayPartial) == if CanPay(s) then Some(s) else None
    ensures Next(s, PayFull) == if CanPay(s) then Some(Paid) else None
    ensures Next(s, Close) == if s == Paid then Some(Closed) else None
    ensures Next(s, Refund) == if s == Paid || s == Closed then Some(Refunded) else None
    ensures Next(s, Archive) == if s == Closed || s == Cancelled || s == Refunded then Some(Archived) else None
    ensures Next(s, Cancel) ==
      if s == Draft || s == Open || s == Held || s == Confirmed || s == Sent || s == Served
      then Some(Cancelled) else None
  {
  }

  /** Replays a log; the first forbidden event refuses the whole log. */
  function Fold(log: seq<Event>, start: State): Option<State> {
    if log == [] then Some(start)
    else match Fold(log[..|log| - 1], start)
      case None => None
      case Some(s) => Next(s, log[|log| - 1])
  }

  method FoldLog(log: seq<Event>, start: State) returns (r: Option<State>)
    ensures r == Fold(log, start)
  {
    var state := start;
    for n := 0 to |log|
      invariant Fold(log[..n], start) == Some(state)
    {
      assert log[..n + 1][..n] == log[..n];
      var next := Next(state, log[n]);
      if next.None? {
        Refused(log, n + 1, start);
        return None;
      }
      state := next.value;
    }
    assert log[..|log|] == log;
    r := Some(state);
  }

  lemma {:induction false} Refused(log: seq<Event>, n: nat, start: State)
    requires n <= |log| && Fold(log[..n], start) == None
    ensures Fold(log, start) == None
  {
    if n == |log| {
      assert log[..n] == log;
    } else {
      assert log[..|log| - 1][..n] == log[..n];
      Refused(log[..|log| - 1], n, start);
    }
  }

  lemma {:induction false} FoldSplits(a: seq<Event>, b: seq<Event>, start: State)
    ensures Fold(a + b, start) == match Fold(a, start) case None => None case Some(s) => Fold(b, s)
  {
    if b == [] {
      assert a + b == a;
    } else {
      var n := |b| - 1;
      assert (a + b)[..|a| + n] == a + b[..n];
      FoldSplits(a, b[..n], start);
    }
  }

  // ---- money moves one way --------------------------------------------------------------------

  predicate Beyond(s: State) { IsSettled(s) || s == Archived }

  lemma {:induction false} BeyondStays(log: seq<Event>, s: State)
    requires Beyond(s) && Fold(log, s).Some?
    ensures Beyond(Fold(log, s).value)
  {
    if log != [] { BeyondStays(log[..|log| - 1], s); }
  }

  /** A paid order cannot become unpaid: once any prefix of an accepted log reached a
      settled state, no longer prefix is in a pre-payment state or cancelled. */
  lemma PaidNeverUnpaid(log: seq<Event>, start: State, k: nat, m: nat)
    requires k <= m <= |log| && Fold(log, start).Some?
    requires Fold(log[..k], start).Some? && IsSettled(Fold(log[..k], start).value)
    ensures Fold(log[..m], start).Some? && !IsPrePayment(Fold(log[..m], start).value)
            && Fold(log[..m], start).value != Cancelled
  {
    assert log == log[..m] + log[m..] && log[..m] == log[..k] + log[k..m];
    FoldSplits(log[..m], log[m..], start);
    FoldSplits(log[..k], log[k..m], start);
    BeyondStays(log[k..m], Fold(log[..k], start).value);
  }

  function Count(log: seq<Event>, e: Event): nat {
    if log == [] then 0 else Count(log[..|log| - 1], e) + (if log[|log| - 1] == e then 1 else 0)
  }

  /** Which steps enter and leave the settled states. */
  lemma MoneyStep(s: State, e: Event)
    requires Next(s, e).Some?
    ensures var t := Next(s, e).value;
      && (e == PayFull ==> IsPrePayment(s) && t == Paid)
      && (e == Refund <==> t == Refunded) && (e == Refund ==> s == Paid || s == Closed)
      && (IsSettled(t) ==> e == PayFull || IsSettled(s))
      && (IsPrePayment(t) || t == Cancelled ==> IsPrePayment(s) && e != PayFull && e != Refund)
      && (e == Cancel <==> t == Cancelled)
      && (t == Archived ==> (s == Closed || s == Cancelled || s == Refunded) && e == Archive)
  {
  }

  /** A log from a pre-payment state holds one full payment exactly when it is settled, none
      before, and at most one refund. Past pre-payment it holds either one full payment or
      one cancel, never both, so an archived order was paid or cancelled. */
  lemma {:induction false} PaidOnceRefundedOnce(log: seq<Event>, start: State)
    requires IsPrePayment(start) && Fold(log, start).Some?
    ensures var s := Fold(log, start).value;
      && (IsSettled(s) ==> Count(log, PayFull) == 1)
      && (IsPrePayment(s) || s == Cancelled ==> Count(log, PayFull) == 0)
      && Count(log, Refund) <= Count(log, PayFull) <= 1
      && (s == Refunded ==> Count(log, Refund) == 1)
      && (s != Refunded && s != Archived ==> Count(log, Refund) == 0)
      && Count(log, PayFull) + Count(log, Cancel) == (if IsPrePayment(s) then 0 else 1)
  {
    if log != [] {
      PaidOnceRefundedOnce(log[..|log| - 1], start);
      MoneyStep(Fold(log[..|log| - 1], start).value, log[|log| - 1]);
      hide Row;
    }
  }

  // ---- progress ----------------------------------------------------------------------------------

  function Rank(s: State): nat {
    match s
    case Draft => 0 case Open => 1 case Held => 1 case Confirmed => 2 case Sent => 3 case Cooking => 4
    case Ready => 5 case Served => 6 case Paid => 7 case Cancelled => 7 case Closed => 8
    case Refunded => 9 case Archived => 10
  }

  /** Events that neither repeat a state nor hold and resume. */
  predicate Advances(e: Event) { e != AddLine && e != PayPartial && e != Hold && e != Resume }

  function Advancing(log: seq<Event>): nat {
    if log == [] then 0 else Advancing(log[..|log| - 1]) + (if Advances(log[|log| - 1]) then 1 else 0)
  }

  /** An accepted log has at most ten advancing events, however long it is. */
  lemma {:induction false} ProgressIsBounded(log: seq<Event>, start: State)
    requires Fold(log, start).Some?
    ensures Rank(start) + Advancing(log) <= Rank(Fold(log, start).value) <= 10
  {
    if log != [] { ProgressIsBounded(log[..|log| - 1], start); }
  }

  // ---- reachability --------------------------------------------------------------------------------

  ghost predicate Reaches(start: State, t: State) {
    exists log :: Fold(log, start) == Some(t)
  }

  lemma ReachesSelf(start: State)
    ensures Reaches(start, start)
  {
    assert Fold([], start) == Some(start);
  }

  lemma ReachesNext(start: State, s: State, t: State)
    requires Reaches(start, s) && t in Row(s).Values
    ensures Reaches(start, t)
  {
    var log :| Fold(log, start) == Some(s);
    var e :| e in Row(s) && Row(s)[e] == t;
    assert (log + [e])[..|log|] == log;
    assert Fold(log + [e], start) == Some(t);
  }

  lemma {:induction false} ClosedSetHoldsAll(seen: set<State>, start: State, log: seq<Event>)
    requires start in seen && forall s, t :: s in seen && t in Row(s).Values ==> t in seen
    ensures Fold(log, start).Some? ==> Fold(log, start).value in seen
  {
    if log != [] {
      ClosedSetHoldsAll(seen, start, log[..|log| - 1]);
      hide Row;
    }
  }

  const ALL_STATES: set<State> :=
    {Draft, Open, Held, Confirmed, Sent, Cooking, Ready, Served, Paid, Closed, Cancelled, Refunded, Archived}

  lemma Listed(s: State)
    ensures s in ALL_STATES
  {
    match s
    case Draft => case Open => case Held => case Confirmed => case Sent => case Cooking => case Ready =>
    case Served => case Paid => case Closed => case Cancelled => case Refunded => case Archived =>
  }

  ghost function Unseen(seen: set<State>): nat { |ALL_STATES - seen| }

  lemma UnseenDrops(seen: set<State>, s: State)
    requires s !in seen
    ensures Unseen(seen + {s}) < Unseen(seen)
  {
    Listed(s);
    var left := ALL_STATES - seen;
    assert ALL_STATES - (seen + {s}) == left - {s};
  }

  method Extend(frontier: seq<State>, more: set<State>) returns (r: seq<State>)
    ensures forall t :: t in r <==> t in frontier || t in more
  {
    r := frontier;
    var todo := more;
    while todo != {}
      invariant todo <= more
      invariant forall t :: t in r <==> t in frontier || (t in more && t !in todo)
      decreases |todo|
    {
      var t :| t in todo;
      todo := todo - {t};
      r := r + [t];
    }
  }

  /** Terminates, and returns exactly the states that some accepted log ends in. */
  method Reachable(start: State) returns (seen: set<State>)
    ensures forall t :: t in seen <==> Reaches(start, t)
  {
    hide Row, Reaches, Unseen, ALL_STATES;
    seen := {};
    var frontier := [start];
    ReachesSelf(start);
    while frontier != []
      invariant start in seen || start in frontier
      invariant forall t :: t in seen || t in frontier ==> Reaches(start, t)
      invariant forall s, t :: s in seen && t in Row(s).Values ==> t in seen || t in frontier
      decreases Unseen(seen), |frontier|
    {
      var s := frontier[|frontier| - 1];
      var rest := frontier[..|frontier| - 1];
      assert frontier == rest + [s];
      frontier := rest;
      if s !in seen {
        UnseenDrops(seen, s);
        seen := seen + {s};
        frontier := Extend(frontier, Row(s).Values);
        forall t | t in Row(s).Values ensures Reaches(start, t) { ReachesNext(start, s, t); }
      }
    }
    forall t | Reaches(start, t) ensures t in seen { AllIn(seen, start, t); }
  }

  lemma AllIn(seen: set<State>, start: State, t: State)
    requires start in seen && forall s, u :: s in seen && u in Row(s).Values ==> u in seen
    requires Reaches(start, t)
    ensures t in seen
  {
    var log :| Fold(log, start) == Some(t);
    ClosedSetHoldsAll(seen, start, log);
  }
}
