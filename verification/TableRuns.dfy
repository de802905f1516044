/** What every run of fires, transfers, merges, payments and closings keeps. */
module TableRuns {
  import opened Common
  import opened StationTickets
  import opened TableOrders

  datatype Step =
    | DoFire(r: Fire)
    | DoTransfer(session: int, src: int, dst: int, only: Option<string>)
    | DoMerge(session: int, src: int, dst: int, confirm: bool)
    | Pay(order: nat, amount: int)
    | Close(order: nat)

  function Paid(payments: seq<int>): int {
    if payments == [] then 0 else Paid(payments[..|payments| - 1]) + payments[|payments| - 1]
  }

  predicate IsOpen(os: Slots, k: nat) { k < |os| && os[k].Some? && os[k].value.state == Draft }

  function WithPayment(o: Order, amount: int): Order {
    o.(payments := o.payments + [amount], amountPaid := Paid(o.payments + [amount]))
  }

  /** A payment or a closing of an order that is not open is ignored. */
  function Take(w: World, tables: set<int>, step: Step): (World, Outcome) {
    match step
    case DoFire(r) => FireOn(w, r)
    case DoTransfer(session, src, dst, only) => TransferOn(w, tables, session, src, dst, only)
    case DoMerge(session, src, dst, confirm) => MergeOn(w, tables, session, src, dst, confirm)
    case Pay(k, amount) =>
      if IsOpen(w.orders, k) then (w.(orders := w.orders[k := Some(WithPayment(w.orders[k].value, amount))]), Moved(k))
      else (w, Refused(NoOpenOrder))
    case Close(k) =>
      if IsOpen(w.orders, k) then (w.(orders := w.orders[k := Some(w.orders[k].value.(state := Closed))]), Moved(k))
      else (w, Refused(NoOpenOrder))
  }

  // ---- the invariant -------------------------------------------------------------------

  ghost predicate UniqueNames(os: Slots) {
    forall i, j :: 0 <= i < j < |os| && os[i].Some? && os[j].Some? ==> os[i].value.uuid != os[j].value.uuid
  }

  predicate Sits(slot: Option<Order>, table: int, session: int) { Matches(slot, OpenAt(table, session, None)) }

  ghost predicate OneOpenPerTable(os: Slots) {
    forall i, j, table, session :: 0 <= i < j < |os| && Sits(os[i], table, session) ==> !Sits(os[j], table, session)
  }

  /** Total and snapshot follow the lines. */
  ghost predicate Agrees(o: Order) {
    o.total == Total(o.lines) && o.fired == Snapshot(o.lines)
  }

  /** The paid amount follows the payments, except that an appended course writes it
      back to 0. */
  ghost predicate PaidAgrees(os: Slots) {
    forall i :: 0 <= i < |os| && os[i].Some? ==> PaidAgree(os[i].value)
  }

  ghost predicate PaidAgree(o: Order) { o.amountPaid == 0 || o.amountPaid == Paid(o.payments) }

  ghost predicate CachesAgree(os: Slots) {
    forall i :: 0 <= i < |os| && os[i].Some? ==> Agrees(os[i].value)
  }

  /** Every ticket sits on a live order and names that order's table. */
  ghost predicate Hosted(w: World) {
    forall i :: 0 <= i < |w.tickets| ==>
      && w.tickets[i].order < |w.orders| && w.orders[w.tickets[i].order].Some?
      && w.tickets[i].seat.Table() == w.orders[w.tickets[i].order].value.table
  }

  ghost predicate OneFireOneOrder(ts: seq<Ticket>) {
    forall i, j :: 0 <= i < |ts| && 0 <= j < |ts| && ts[i].fireUuid == ts[j].fireUuid ==>
      ts[i].order == ts[j].order && ts[i].course == ts[j].course
  }

  ghost predicate CoursesBounded(ts: seq<Ticket>) {
    forall i :: 0 <= i < |ts| ==> 1 <= ts[i].course <= |FiresOf(ts, ts[i].order)|
  }

  ghost predicate Inv(w: World) {
    && UniqueNames(w.orders) && OneOpenPerTable(w.orders) && PaidAgrees(w.orders)
    && Hosted(w) && OneFireOneOrder(w.tickets) && CoursesBounded(w.tickets)
  }

  // ---- what one replaced order keeps ------------------------------------------------------

  lemma PutKeepsNames(os: Slots, k: nat, o: Order)
    requires UniqueNames(os) && k <= |os|
    requires if k < |os| then os[k].Some? && os[k].value.uuid == o.uuid else Find(os, AnyNamed(o.uuid)).None?
    ensures UniqueNames(Put(os, k, o))
  {
    hide Find;
    var t := Put(os, k, o);
    forall i, j | 0 <= i < j < |t| && t[i].Some? && t[j].Some? ensures t[i].value.uuid != t[j].value.uuid {
      if k == |os| && j == k { assert !Matches(os[i], AnyNamed(o.uuid)); }
    }
  }

  /** No open order sits where `slot` would sit, slot `k` aside. */
  ghost predicate SeatIsFree(os: Slots, k: nat, slot: Option<Order>) {
    forall i, table, session :: 0 <= i < |os| && i != k && Sits(os[i], table, session) ==> !Sits(slot, table, session)
  }

  lemma PutKeepsTables(os: Slots, k: nat, o: Order)
    requires OneOpenPerTable(os) && k <= |os| && SeatIsFree(os, k, Some(o))
    ensures OneOpenPerTable(Put(os, k, o))
  {
    hide Sits;
    var t := Put(os, k, o);
    forall i, j, table, session | 0 <= i < j < |t| && Sits(t[i], table, session) ensures !Sits(t[j], table, session) {
      if i != k { assert t[i] == os[i] && Sits(os[i], table, session); }
      if j != k { assert t[j] == os[j]; }
    }
  }

  lemma FreeSeat(os: Slots, k: nat, o: Order)
    requires OneOpenPerTable(os) && k <= |os|
    requires (k < |os| && IsOpen(os, k) && o.table == os[k].value.table && o.session == os[k].value.session)
             || o.state == Closed || o.table.None? || Find(os, OpenAt(o.table.value, o.session, None)).None?
    ensures SeatIsFree(os, k, Some(o))
  {
    hide Find;
    forall i, table, session | 0 <= i < |os| && i != k && Sits(os[i], table, session)
      ensures !Sits(Some(o), table, session)
    {
      if k < |os| && IsOpen(os, k) && o.table == os[k].value.table && o.session == os[k].value.session {
        assert !Sits(os[k], table, session);
      }
    }
  }

  /** Replacing an open order by one with the same name keeps names unique; it keeps one
      open order per table if it stays where it is, closes, or goes to a free table. */
  lemma PutKeepsOrders(os: Slots, k: nat, o: Order)
    requires UniqueNames(os) && OneOpenPerTable(os) && k <= |os|
    requires if k < |os| then os[k].Some? && os[k].value.uuid == o.uuid else Find(os, AnyNamed(o.uuid)).None?
    requires (k < |os| && IsOpen(os, k) && o.table == os[k].value.table && o.session == os[k].value.session)
             || o.state == Closed || o.table.None? || Find(os, OpenAt(o.table.value, o.session, None)).None?
    ensures UniqueNames(Put(os, k, o)) && OneOpenPerTable(Put(os, k, o))
  {
    PutKeepsNames(os, k, o);
    FreeSeat(os, k, o);
    PutKeepsTables(os, k, o);
  }

  lemma RemoveKeepsOrders(os: Slots, k: nat)
    requires UniqueNames(os) && OneOpenPerTable(os) && PaidAgrees(os) && k < |os|
    ensures UniqueNames(os[k := None]) && OneOpenPerTable(os[k := None]) && PaidAgrees(os[k := None])
  {
    var t := os[k := None];
    forall i, j, table, session | 0 <= i < j < |t| && Sits(t[i], table, session) ensures !Sits(t[j], table, session) {
      assert t[i] == os[i] && Sits(os[i], table, session);
    }
  }

  lemma PutKeepsPaid(os: Slots, k: nat, o: Order)
    requires PaidAgrees(os) && k <= |os| && PaidAgree(o)
    ensures PaidAgrees(Put(os, k, o))
  {
  }

  // ---- fire ----------------------------------------------------------------------------------

  lemma HostFits(os: Slots, r: Fire)
    requires !FireRefused(os, r)
    ensures var (k, o) := Host(os, r);
      && k <= |os|
      && (k < |os| ==> os[k] == Some(o) && o.state == Draft)
      && (k == |os| ==> Find(os, AnyNamed(r.uuid)).None? && o == Opened(r))
      && (k == |os| ==> Seat(r).None? || Find(os, OpenAt(Seat(r).value, r.session, None)).None?)
  {
    if Find(os, AnyNamed(r.uuid)).Some? { OpenNameIsFound(os, r.uuid); }
  }

  lemma OpenNameIsFound(os: Slots, name: string)
    requires Find(os, AnyNamed(name)).Some? && os[Find(os, AnyNamed(name)).value].value.state == Draft
    ensures Find(os, OpenNamed(name)).Some?
  {
    assert Matches(os[Find(os, AnyNamed(name)).value], OpenNamed(name));
  }

  lemma FiresGrow(ts: seq<Ticket>, made: seq<Ticket>, k: nat)
    ensures FiresOf(ts, k) <= FiresOf(ts + made, k)
  {
    forall f | f in FiresOf(ts, k) ensures f in FiresOf(ts + made, k) {
      var i :| 0 <= i < |ts| && ts[i].order == k && ts[i].fireUuid == f;
      assert (ts + made)[i] == ts[i];
    }
  }

  lemma SubsetSize<T>(a: set<T>, b: set<T>)
    requires a <= b
    ensures |a| <= |b|
  {
    if a != {} {
      var x :| x in a;
      SubsetSize(a - {x}, b - {x});
    }
  }

  /** The tickets one fire adds: all on one order, all of one new fire and course. */
  ghost predicate Batch(made: seq<Ticket>, k: nat, fireUuid: string, course: nat) {
    forall i :: 0 <= i < |made| ==> made[i].order == k && made[i].fireUuid == fireUuid && made[i].course == course
  }

  lemma BatchKeepsCourses(ts: seq<Ticket>, made: seq<Ticket>, k: nat, fireUuid: string)
    requires CoursesBounded(ts) && Batch(made, k, fireUuid, Course(ts, k))
    requires FindTicket(ts, fireUuid).None?
    ensures CoursesBounded(ts + made)
  {
    var all := ts + made;
    forall i | 0 <= i < |all| ensures 1 <= all[i].course <= |FiresOf(all, all[i].order)| {
      FiresGrow(ts, made, all[i].order);
      if i < |ts| {
        assert all[i] == ts[i];
        SubsetSize(FiresOf(ts, ts[i].order), FiresOf(all, ts[i].order));
      } else {
        assert all[i] == made[i - |ts|];
        assert all[i].fireUuid in FiresOf(all, k);
        assert fireUuid !in FiresOf(ts, k);
        SubsetSize(FiresOf(ts, k) + {fireUuid}, FiresOf(all, k));
      }
    }
  }

  lemma BatchKeepsIdentity(ts: seq<Ticket>, made: seq<Ticket>, k: nat, fireUuid: string, course: nat)
    requires OneFireOneOrder(ts) && Batch(made, k, fireUuid, course)
    requires FindTicket(ts, fireUuid).None?
    ensures OneFireOneOrder(ts + made)
  {
  }

  lemma FireKeepsInv(w: World, r: Fire)
    requires Inv(w)
    ensures Inv(FireOn(w, r).0)
  {
    hide TicketsFor, Snapshot, Total, Find, FindTicket, FiresOf, NewLines;
    if FireOn(w, r).1.Fired? || FireOn(w, r).1.Failed? {
      HostFits(w.orders, r);
      var (k, o) := Host(w.orders, r);
      var made := NewTickets(w, k, o, r);
      var after := if Resolves(r) then WithLines(o, r) else LeftBehind(o, r);
      PutKeepsOrders(w.orders, k, after);
      PutKeepsPaid(w.orders, k, after);
      PutKeepsHosted(w, k, o, after);
      if Resolves(r) {
        FiredTickets(w, k, o, r);
        BatchKeepsIdentity(w.tickets, made, k, r.fireUuid, Course(w.tickets, k));
        BatchKeepsCourses(w.tickets, made, k, r.fireUuid);
        NewTicketsHosted(World(Put(w.orders, k, after), w.tickets), made, k, after);
      }
    }
  }

  lemma FiredTickets(w: World, k: nat, o: Order, r: Fire)
    ensures Batch(NewTickets(w, k, o, r), k, r.fireUuid, Course(w.tickets, k))
    ensures forall t :: t in NewTickets(w, k, o, r) ==> t.seat.Table() == o.table && t.order == k
  {
  }

  lemma PutKeepsHosted(w: World, k: nat, o: Order, after: Order)
    requires Hosted(w) && k <= |w.orders| && (k < |w.orders| ==> w.orders[k] == Some(o)) && after.table == o.table
    ensures Hosted(World(Put(w.orders, k, after), w.tickets))
  {
  }

  lemma NewTicketsHosted(w: World, made: seq<Ticket>, k: nat, o: Order)
    requires Hosted(w) && k < |w.orders| && w.orders[k] == Some(o)
    requires forall t :: t in made ==> t.seat.Table() == o.table && t.order == k
    ensures Hosted(World(w.orders, w.tickets + made))
  {
    forall i | |w.tickets| <= i < |w.tickets + made|
      ensures (w.tickets + made)[i].order == k && (w.tickets + made)[i].seat.Table() == o.table
    {
      assert made[i - |w.tickets|] in made;
    }
  }

  // ---- transfer and merge --------------------------------------------------------------------

  lemma RehomedFires(ts: seq<Ticket>, src: nat, dst: nat, table: int, k: nat)
    ensures var us := Rehome(ts, src, dst, table);
      && (k != src && k != dst ==> FiresOf(us, k) == FiresOf(ts, k))
      && FiresOf(us, dst) == FiresOf(ts, src) + FiresOf(ts, dst)
  {
    var us := Rehome(ts, src, dst, table);
    if k != src && k != dst {
      forall f ensures f in FiresOf(us, k) <==> f in FiresOf(ts, k) {
        if i :| 0 <= i < |ts| && ts[i].order == k && ts[i].fireUuid == f { assert us[i] == ts[i]; }
        if i :| 0 <= i < |us| && us[i].order == k && us[i].fireUuid == f { assert us[i] == ts[i]; }
      }
    }
    forall f ensures f in FiresOf(us, dst) <==> f in FiresOf(ts, src) + FiresOf(ts, dst) {
      if i :| 0 <= i < |ts| && (ts[i].order == src || ts[i].order == dst) && ts[i].fireUuid == f {
        assert us[i].order == dst && us[i].fireUuid == f;
      }
      if i :| 0 <= i < |us| && us[i].order == dst && us[i].fireUuid == f {
        assert ts[i].fireUuid == f && (ts[i].order == src || ts[i].order == dst);
      }
    }
  }

  lemma RehomeKeepsTickets(ts: seq<Ticket>, src: nat, dst: nat, table: int)
    requires OneFireOneOrder(ts) && CoursesBounded(ts)
    ensures OneFireOneOrder(Rehome(ts, src, dst, table)) && CoursesBounded(Rehome(ts, src, dst, table))
  {
    var us := Rehome(ts, src, dst, table);
    forall i | 0 <= i < |us| ensures 1 <= us[i].course <= |FiresOf(us, us[i].order)| {
      hide FiresOf;
      RehomedFires(ts, src, dst, table, ts[i].order);
      SubsetSize(FiresOf(ts, ts[i].order), FiresOf(us, us[i].order));
    }
  }

  lemma MoveKeepsInv(w: World, k: nat, session: int, table: int)
    requires Inv(w) && IsOpen(w.orders, k) && w.orders[k].value.session == session
    requires Find(w.orders, OpenAt(table, session, None)).None?
    ensures Inv(MoveTo(w, k, table))
  {
    hide Snapshot, Total, Find, FiresOf;
    var o := w.orders[k].value.(table := Some(table));
    assert MoveTo(w, k, table).orders == Put(w.orders, k, o);
    PutKeepsOrders(w.orders, k, o);
    PutKeepsPaid(w.orders, k, o);
    RehomeKeepsTickets(w.tickets, k, k, table);
  }

  lemma MergeKeepsInv(w: World, from: nat, into: nat, table: int)
    requires Inv(w) && IsOpen(w.orders, from) && IsOpen(w.orders, into) && from != into
    requires w.orders[into].value.table == Some(table)
    ensures var c := Combined(w.orders[into].value, w.orders[from].value);
      Inv(World(w.orders[into := Some(c)][from := None], Rehome(w.tickets, from, into, table)))
  {
    hide Snapshot, Total, FiresOf;
    var c := Combined(w.orders[into].value, w.orders[from].value);
    var os := w.orders[into := Some(c)];
    assert os == Put(w.orders, into, c);
    PutKeepsOrders(w.orders, into, c);
    PutKeepsPaid(w.orders, into, c);
    RemoveKeepsOrders(os, from);
    RehomeKeepsTickets(w.tickets, from, into, table);
  }

  lemma PayKeepsInv(w: World, k: nat, o: Order)
    requires Inv(w) && IsOpen(w.orders, k)
    requires var p := w.orders[k].value; o == p.(payments := o.payments, amountPaid := o.amountPaid, state := o.state)
    requires PaidAgree(o)
    ensures Inv(w.(orders := w.orders[k := Some(o)]))
  {
    hide Snapshot, Total, FiresOf;
    assert w.orders[k := Some(o)] == Put(w.orders, k, o);
    PutKeepsOrders(w.orders, k, o);
    PutKeepsPaid(w.orders, k, o);
  }

  lemma PaidAt(w: World, k: nat)
    requires Inv(w) && IsOpen(w.orders, k)
    ensures PaidAgree(w.orders[k].value)
  {
  }

  /** One step of any kind keeps all of it, a fire that fails half-way included. */
  lemma StepKeepsInv(w: World, tables: set<int>, step: Step)
    requires Inv(w)
    ensures Inv(Take(w, tables, step).0)
  {
    hide Inv, Find, FiresOf, Rehome, MoveTo, Combined;
    match step
    case DoFire(r) => FireKeepsInv(w, r);
    case DoTransfer(session, src, dst, only) =>
      var from, into := Find(w.orders, OpenAt(src, session, only)), Find(w.orders, OpenAt(dst, session, None));
      if from.Some? && into.None? { MoveKeepsInv(w, from.value, session, dst); }
    case DoMerge(session, src, dst, confirm) =>
      var from, into := Find(w.orders, OpenAt(src, session, None)), Find(w.orders, OpenAt(dst, session, None));
      if src != dst && from.Some? {
        if into.None? { MoveKeepsInv(w, from.value, session, dst); }
        else { MergeKeepsInv(w, from.value, into.value, dst); }
      }
    case Pay(k, amount) => if IsOpen(w.orders, k) { PayKeepsInv(w, k, WithPayment(w.orders[k].value, amount)); }
    case Close(k) => if IsOpen(w.orders, k) { PaidAt(w, k); PayKeepsInv(w, k, w.orders[k].value.(state := Closed)); }
  }

  // ---- the caches ------------------------------------------------------------------------------

  /** The fire gets through, or what it leaves behind moves neither cache: its grafted
      lines are worth nothing and none of its lines has a positive quantity. */
  predicate Harmless(r: Fire) {
    Resolves(r)
    || (Total(Grafted(r.grafts)) == 0 && forall i :: 0 <= i < |NewLines(r)| ==> NewLines(r)[i].qty <= 0)
  }

  lemma {:induction false} SnapshotUnmoved(a: seq<Line>, b: seq<Line>)
    ensures Snapshot(a + b) == Snapshot(a) <==> forall i :: 0 <= i < |b| ==> b[i].qty <= 0
  {
    if forall i :: 0 <= i < |b| ==> b[i].qty <= 0 {
      SnapshotSkips(a, b);
    } else {
      var i :| 0 <= i < |b| && b[i].qty > 0;
      var p := b[i].product;
      QtyAppend(a, b, p);
      QtyAtLeast(b, i);
      SnapshotMeans(a, p);
      SnapshotMeans(a + b, p);
    }
  }

  lemma {:induction false} SnapshotSkips(a: seq<Line>, b: seq<Line>)
    requires forall i :: 0 <= i < |b| ==> b[i].qty <= 0
    ensures Snapshot(a + b) == Snapshot(a)
  {
    if b == [] {
      assert a + b == a;
    } else {
      var n := |b| - 1;
      assert (a + b)[..|a| + n] == a + b[..n];
      SnapshotSkips(a, b[..n]);
    }
  }

  lemma {:induction false} QtyAtLeast(lines: seq<Line>, i: nat)
    requires i < |lines|
    ensures QtyOf(lines, lines[i].product) >= lines[i].qty
  {
    if i < |lines| - 1 { QtyAtLeast(lines[..|lines| - 1], i); }
  }

  lemma LeftBehindAgreesWhen(o: Order, r: Fire)
    requires Agrees(o) && !Resolves(r)
    ensures Agrees(LeftBehind(o, r)) <==> Harmless(r)
  {
    hide Snapshot, Total, Grafted, LinesOf;
    assert o.lines + NewLines(r) == (o.lines + LinesOf(r.plain)) + Grafted(r.grafts);
    TotalAppend(o.lines + LinesOf(r.plain), Grafted(r.grafts));
    SnapshotUnmoved(o.lines, NewLines(r));
  }

  lemma OpenedAgrees(r: Fire)
    ensures Agrees(Opened(r))
  {
  }

  lemma CachesAt(os: Slots, k: nat, o: Order)
    requires CachesAgree(os) && k <= |os|
    ensures CachesAgree(Put(os, k, o)) <==> Agrees(o)
  {
    hide Agrees;
    assert Put(os, k, o)[k] == Some(o);
  }

  /** A fire that reaches an order keeps every total and snapshot in agreement with the
      lines exactly when it is harmless; one that gets through also mends its own order. */
  lemma FireKeepsCachesExactlyWhen(w: World, r: Fire)
    requires CachesAgree(w.orders) && (FireOn(w, r).1.Fired? || FireOn(w, r).1.Failed?)
    ensures CachesAgree(FireOn(w, r).0.orders) <==> Harmless(r)
  {
    HostFits(w.orders, r);
    var (k, o) := Host(w.orders, r);
    OpenedAgrees(r);
    assert Agrees(o);
    hide Agrees, Find, FindTicket, FiresOf, TicketsFor, CachesAgree;
    if Resolves(r) {
      WithLinesAgrees(o, r);
      CachesAt(w.orders, k, WithLines(o, r));
    } else {
      LeftBehindAgreesWhen(o, r);
      CachesAt(w.orders, k, LeftBehind(o, r));
    }
  }

  lemma WithLinesAgrees(o: Order, r: Fire)
    ensures Agrees(WithLines(o, r))
  {
  }

  /** Every other step keeps the caches, and so does a harmless fire. */
  lemma StepKeepsCaches(w: World, tables: set<int>, step: Step)
    requires CachesAgree(w.orders) && (step.DoFire? ==> Harmless(step.r))
    ensures CachesAgree(Take(w, tables, step).0.orders)
  {
    hide Find, Rehome, Total, Snapshot, FireOn;
    match step
    case DoFire(r) =>
      OthersUnchanged(w, r);
      if FireOn(w, r).1.Fired? || FireOn(w, r).1.Failed? { FireKeepsCachesExactlyWhen(w, r); }
    case DoTransfer(session, src, dst, only) =>
    case DoMerge(session, src, dst, confirm) =>
    case Pay(k, amount) =>
    case Close(k) =>
  }

  lemma OthersUnchanged(w: World, r: Fire)
    ensures FireOn(w, r).1.Fired? || FireOn(w, r).1.Failed? || FireOn(w, r).0 == w
  {
  }

  /** A coffee with a combo that names no selection: the coffee stays on a new order, with
      no ticket and outside its snapshot. With a good combo before the bad one, that
      combo's lines stay outside the total as well. */
  lemma FailedFireBreaksCaches(coffee: Dish, combo: Line)
    requires coffee.line.qty > 0 && combo.amount != 0
    ensures var r := Fire("u", 1, None, true, [coffee], [BadGraft], 0, "f", false);
      var w := FireOn(World([], []), r).0;
      && w.tickets == [] && |w.orders| == 1 && w.orders[0].Some?
      && w.orders[0].value.lines == [coffee.line] && w.orders[0].value.fired == map[]
      && !CachesAgree(w.orders)
    ensures var r := Fire("u", 1, None, true, [], [Graft([combo], []), BadGraft], 0, "f", false);
      var w := FireOn(World([], []), r).0;
      && |w.orders| == 1 && w.orders[0].Some?
      && w.orders[0].value.lines == [combo] && w.orders[0].value.total == 0
      && !CachesAgree(w.orders)
  {
    FailedCoffee(coffee);
    FailedCombo(combo);
  }

  lemma EmptyFloor(r: Fire)
    requires r.sellable && !Resolves(r)
    ensures var o := Opened(r); FireOn(World([], []), r) == (World([Some(LeftBehind(o, r))], []), Failed(0))
  {
    assert Find([], OpenNamed(r.uuid)).None? && Find([], AnyNamed(r.uuid)).None? && FindTicket([], r.fireUuid).None?;
    assert Seat(r).Some? ==> Find([], OpenAt(Seat(r).value, r.session, None)).None?;
    var o := LeftBehind(Opened(r), r);
    assert Put([], 0, o) == [Some(o)];
  }

  lemma FailedCoffee(coffee: Dish)
    requires coffee.line.qty > 0
    ensures var r := Fire("u", 1, None, true, [coffee], [BadGraft], 0, "f", false);
      var w := FireOn(World([], []), r).0;
      && w.tickets == [] && |w.orders| == 1 && w.orders[0].Some?
      && w.orders[0].value.lines == [coffee.line] && w.orders[0].value.fired == map[]
      && !CachesAgree(w.orders)
  {
    var r := Fire("u", 1, None, true, [coffee], [BadGraft], 0, "f", false);
    assert r.grafts[0] == BadGraft;
    assert NewLines(r) == [coffee.line];
    assert NewLines(r)[0].qty > 0;
    EmptyFloor(r);
    FireKeepsCachesExactlyWhen(World([], []), r);
  }

  lemma OneGraft(combo: Line)
    ensures Grafted([Graft([combo], []), BadGraft]) == [combo] && Total([combo]) == combo.amount
  {
    var gs := [Graft([combo], []), BadGraft];
    assert gs[..1] == [gs[0]] && [gs[0]][..0] == [] && [combo][..0] == [];
    assert Grafted([gs[0]]) == [combo];
  }

  lemma FailedCombo(combo: Line)
    requires combo.amount != 0
    ensures var r := Fire("u", 1, None, true, [], [Graft([combo], []), BadGraft], 0, "f", false);
      var w := FireOn(World([], []), r).0;
      && |w.orders| == 1 && w.orders[0].Some?
      && w.orders[0].value.lines == [combo] && w.orders[0].value.total == 0
      && !CachesAgree(w.orders)
  {
    var r := Fire("u", 1, None, true, [], [Graft([combo], []), BadGraft], 0, "f", false);
    assert r.grafts[1] == BadGraft;
    OneGraft(combo);
    hide Grafted, FireOn;
    assert NewLines(r) == [combo];
    assert LinesOf(r.plain) == [];
    EmptyFloor(r);
    FireKeepsCachesExactlyWhen(World([], []), r);
  }
}
