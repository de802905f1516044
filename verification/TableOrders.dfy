/** Open orders on tables: fire, transfer and merge. Each request runs under the locks of
    its tables, so one request is one step here. */
module TableOrders {
  import opened Common
  import opened StationTickets

  datatype Line = Line(product: int, qty: int, amount: int)
  datatype Lifecycle = Draft | Closed

  datatype Order = Order(
    uuid: string, session: int, table: Option<int>, state: Lifecycle,
    lines: seq<Line>, total: int, fired: map<int, int>,
    payments: seq<int>, amountPaid: int, guests: int, online: bool)

  /** Orders are numbered by their position; a removed order leaves its slot empty. */
  type Slots = seq<Option<Order>>
  datatype World = World(orders: Slots, tickets: seq<Ticket>)

  /** One cart line: what is written on the order and what the kitchen reads. */
  datatype Dish = Dish(line: Line, station: int, note: string)

  /** A combo or split pizza: the lines it grafts on the order and what the kitchen reads,
      or one whose selection is unknown, incomplete or sold out. */
  datatype Graft = Graft(lines: seq<Line>, items: seq<Item>) | BadGraft

  /** `sellable`: every plain line names a product that can be sold as asked. */
  datatype Fire = Fire(
    uuid: string, session: int, table: Option<int>, sellable: bool, plain: seq<Dish>,
    grafts: seq<Graft>, guests: int, fireUuid: string, defer: bool)

  datatype Reason = NotSellable | AlreadyClosed | SameTable | UnknownTable | NoOpenOrder | Occupied | HasPayments
  datatype Outcome =
    | Fired(order: nat, course: nat, made: nat)
    | Failed(order: nat)
    | Replayed(order: nat)
    | Moved(order: nat)
    | Merged(order: nat)
    | Refused(reason: Reason)

  // ---- caches over lines ---------------------------------------------------------------

  function Total(lines: seq<Line>): int {
    if lines == [] then 0 else Total(lines[..|lines| - 1]) + lines[|lines| - 1].amount
  }

  /** How much of a product the order holds, returns aside. */
  function QtyOf(lines: seq<Line>, product: int): nat {
    if lines == [] then 0
    else
      var last := lines[|lines| - 1];
      QtyOf(lines[..|lines| - 1], product) + (if last.product == product && last.qty > 0 then last.qty else 0)
  }

  function Snapshot(lines: seq<Line>): map<int, int> {
    if lines == [] then map[]
    else
      var last, front := lines[|lines| - 1], Snapshot(lines[..|lines| - 1]);
      if last.qty > 0
      then front[last.product := (if last.product in front then front[last.product] else 0) + last.qty]
      else front
  }

  method RebuildSnapshot(lines: seq<Line>) returns (current: map<int, int>)
    ensures current == Snapshot(lines)
  {
    current := map[];
    for n := 0 to |lines|
      invariant current == Snapshot(lines[..n])
    {
      assert lines[..n + 1][..n] == lines[..n];
      var line := lines[n];
      if line.qty > 0 {
        current := current[line.product := (if line.product in current then current[line.product] else 0) + line.qty];
      }
    }
    assert lines[..|lines|] == lines;
  }

  method SumLines(lines: seq<Line>) returns (total: int)
    ensures total == Total(lines)
  {
    total := 0;
    for n := 0 to |lines|
      invariant total == Total(lines[..n])
    {
      assert lines[..n + 1][..n] == lines[..n];
      total := total + lines[n].amount;
    }
    assert lines[..|lines|] == lines;
  }

  /** The snapshot lists exactly the products still held, each with its whole quantity. */
  lemma {:induction false} SnapshotMeans(lines: seq<Line>, product: int)
    ensures product in Snapshot(lines) <==> QtyOf(lines, product) > 0
    ensures product in Snapshot(lines) ==> Snapshot(lines)[product] == QtyOf(lines, product)
  {
    if lines != [] { SnapshotMeans(lines[..|lines| - 1], product); }
  }

  lemma {:induction false} TotalAppend(a: seq<Line>, b: seq<Line>)
    ensures Total(a + b) == Total(a) + Total(b)
  {
    if b == [] {
      assert a + b == a;
    } else {
      var n := |b| - 1;
      assert (a + b)[..|a| + n] == a + b[..n];
      TotalAppend(a, b[..n]);
    }
  }

  lemma {:induction false} QtyAppend(a: seq<Line>, b: seq<Line>, product: int)
    ensures QtyOf(a + b, product) == QtyOf(a, product) + QtyOf(b, product)
  {
    if b == [] {
      assert a + b == a;
    } else {
      var n := |b| - 1;
      assert (a + b)[..|a| + n] == a + b[..n];
      QtyAppend(a, b[..n], product);
    }
  }

  // ---- searches ------------------------------------------------------------------------

  datatype Query = OpenAt(table: int, session: int, only: Option<string>) | OpenNamed(name: string)
    | AnyNamed(name: string)

  predicate Matches(slot: Option<Order>, q: Query) {
    && slot.Some?
    && var o := slot.value;
       match q
       case OpenAt(table, session, only) =>
         o.table == Some(table) && o.state == Draft && o.session == session && (only.Some? ==> o.uuid == only.value)
       case OpenNamed(name) => o.uuid == name && o.state == Draft
       case AnyNamed(name) => o.uuid == name
  }

  function Find(os: Slots, q: Query): (r: Option<nat>)
    ensures r.None? ==> forall i :: 0 <= i < |os| ==> !Matches(os[i], q)
    ensures r.Some? ==> r.value < |os| && Matches(os[r.value], q)
                        && forall i :: 0 <= i < r.value ==> !Matches(os[i], q)
  {
    if os == [] then None
    else
      var n := |os| - 1;
      var front := Find(os[..n], q);
      assert forall i :: 0 <= i < n ==> os[..n][i] == os[i];
      if front.Some? then front else if Matches(os[n], q) then Some(n) else None
  }

  function FindTicket(ts: seq<Ticket>, fireUuid: string): (r: Option<nat>)
    ensures r.None? ==> forall i :: 0 <= i < |ts| ==> ts[i].fireUuid != fireUuid
    ensures r.Some? ==> r.value < |ts| && ts[r.value].fireUuid == fireUuid
  {
    if ts == [] then None
    else
      var n := |ts| - 1;
      var front := FindTicket(ts[..n], fireUuid);
      assert forall i :: 0 <= i < n ==> ts[..n][i] == ts[i];
      if front.Some? then front else if ts[n].fireUuid == fireUuid then Some(n) else None
  }

  /** The fires whose tickets sit on an order. */
  function FiresOf(ts: seq<Ticket>, order: nat): set<string> {
    set i | 0 <= i < |ts| && ts[i].order == order :: ts[i].fireUuid
  }

  // ---- fire ------------------------------------------------------------------------------

  function LinesOf(plain: seq<Dish>): seq<Line> {
    seq(|plain|, i requires 0 <= i < |plain| => plain[i].line)
  }

  /** The lines grafted before the first bad graft stops the request. */
  function Grafted(gs: seq<Graft>): seq<Line> {
    if gs == [] then []
    else
      var n := |gs| - 1;
      if BadGraft in gs[..n] || gs[n].BadGraft? then Grafted(gs[..n]) else Grafted(gs[..n]) + gs[n].lines
  }

  function GraftedItems(gs: seq<Graft>): seq<Item> {
    if gs == [] then []
    else
      var n := |gs| - 1;
      if BadGraft in gs[..n] || gs[n].BadGraft? then GraftedItems(gs[..n]) else GraftedItems(gs[..n]) + gs[n].items
  }

  /** Every combo and split pizza of the request can be grafted. */
  predicate Resolves(r: Fire) { BadGraft !in r.grafts }

  /** The lines a request writes, whether or not it gets through. */
  function NewLines(r: Fire): seq<Line> { LinesOf(r.plain) + Grafted(r.grafts) }

  function PlainItems(plain: seq<Dish>): seq<Item> {
    seq(|plain|, i requires 0 <= i < |plain| =>
      Item(plain[i].line.product, plain[i].station, plain[i].line.qty, plain[i].note))
  }

  function NewItems(r: Fire): seq<Item> { PlainItems(r.plain) + GraftedItems(r.grafts) }

  method GraftAll(gs: seq<Graft>) returns (ok: bool, lines: seq<Line>, items: seq<Item>)
    ensures ok <==> BadGraft !in gs
    ensures lines == Grafted(gs) && items == GraftedItems(gs)
  {
    lines, items := [], [];
    for n := 0 to |gs|
      invariant BadGraft !in gs[..n]
      invariant lines == Grafted(gs[..n]) && items == GraftedItems(gs[..n])
    {
      assert gs[..n + 1][..n] == gs[..n];
      if gs[n].BadGraft? {
        BadStops(gs, n + 1);
        return false, lines, items;
      }
      lines, items := lines + gs[n].lines, items + gs[n].items;
    }
    assert gs[..|gs|] == gs;
    ok := true;
  }

  lemma {:induction false} BadStops(gs: seq<Graft>, n: nat)
    requires n <= |gs| && BadGraft in gs[..n]
    ensures Grafted(gs) == Grafted(gs[..n]) && GraftedItems(gs) == GraftedItems(gs[..n])
  {
    if n == |gs| {
      assert gs[..n] == gs;
    } else {
      var m := |gs| - 1;
      assert gs[..m][..n] == gs[..n];
      BadStops(gs[..m], n);
    }
  }

  /** Table 0 means no table. */
  function Seat(r: Fire): Option<int> {
    if r.table == Some(0) then None else r.table
  }

  /** The open order of the table if there is one, else the open order of that name. */
  function Target(os: Slots, r: Fire): (t: Option<nat>)
    ensures t.Some? ==> t.value < |os| && os[t.value].Some? && os[t.value].value.state == Draft
  {
    var at := if Seat(r).Some? then Find(os, OpenAt(Seat(r).value, r.session, None)) else None;
    if at.Some? then at else Find(os, OpenNamed(r.uuid))
  }

  predicate FireRefused(os: Slots, r: Fire) {
    var known := Find(os, AnyNamed(r.uuid));
    known.Some? && os[known.value].value.state != Draft
  }

  function Opened(r: Fire): Order {
    Order(r.uuid, r.session, Seat(r), Draft, [], 0, map[], [], 0, r.guests, false)
  }

  /** The order after its new lines; an append also writes the paid amount back to 0. */
  function WithLines(o: Order, r: Fire): Order {
    var lines := o.lines + NewLines(r);
    o.(lines := lines, total := Total(lines), fired := Snapshot(lines), amountPaid := 0,
       guests := if r.guests != 0 then r.guests else o.guests,
       online := o.online || r.defer)
  }

  /** The order a failed fire leaves behind: the plain lines are written and totalled, the
      first grafts are written, and neither total nor snapshot follows them. */
  function LeftBehind(o: Order, r: Fire): Order {
    o.(lines := o.lines + NewLines(r), total := Total(o.lines + LinesOf(r.plain)), amountPaid := 0,
       guests := if r.guests != 0 then r.guests else o.guests)
  }

  function FireLabelOf(o: Order): Label {
    if o.table.Some? then FireLabel(o.table.value) else NoTable
  }

  function Course(ts: seq<Ticket>, order: nat): nat { |FiresOf(ts, order)| + 1 }

  function Head(w: World, k: nat, o: Order, r: Fire): Ticket {
    Ticket(k, r.fireUuid, 0, Course(w.tickets, k), FireLabelOf(o), [])
  }

  function NewTickets(w: World, k: nat, o: Order, r: Fire): seq<Ticket> {
    if r.defer then [] else TicketsFor(NewItems(r), Head(w, k, o, r))
  }

  /** The order a fire goes to, and that order before the new lines. */
  function Host(os: Slots, r: Fire): (nat, Order) {
    var t := Target(os, r);
    if t.Some? then (t.value, os[t.value].value) else (|os|, Opened(r))
  }

  function Put(os: Slots, k: nat, o: Order): Slots {
    if k < |os| then os[k := Some(o)] else os + [Some(o)]
  }

  function FireOn(w: World, r: Fire): (World, Outcome) {
    var done := FindTicket(w.tickets, r.fireUuid);
    if done.Some? then (w, Replayed(w.tickets[done.value].order))
    else if !r.sellable then (w, Refused(NotSellable))
    else if FireRefused(w.orders, r) then (w, Refused(AlreadyClosed))
    else
      var (k, o) := Host(w.orders, r);
      if !Resolves(r) then (World(Put(w.orders, k, LeftBehind(o, r)), w.tickets), Failed(k))
      else
        var made := NewTickets(w, k, o, r);
        (World(Put(w.orders, k, WithLines(o, r)), w.tickets + made), Fired(k, Course(w.tickets, k), |made|))
  }

  // ---- transfer and merge ------------------------------------------------------------------

  /** Tickets of `src` move to `dst`, and all tickets of `dst` are renamed. */
  function Rehome(ts: seq<Ticket>, src: nat, dst: nat, table: int): seq<Ticket> {
    seq(|ts|, i requires 0 <= i < |ts| =>
      if ts[i].order == src || ts[i].order == dst then ts[i].(order := dst, seat := MoveLabel(table)) else ts[i])
  }

  function MoveTo(w: World, k: nat, table: int): World
    requires k < |w.orders| && w.orders[k].Some?
  {
    World(w.orders[k := Some(w.orders[k].value.(table := Some(table)))], Rehome(w.tickets, k, k, table))
  }

  function TransferOn(w: World, tables: set<int>, session: int, src: int, dst: int, only: Option<string>)
    : (World, Outcome)
  {
    if src == dst then (w, Refused(SameTable))
    else if dst !in tables then (w, Refused(UnknownTable))
    else
      var from := Find(w.orders, OpenAt(src, session, only));
      if from.None? then (w, Refused(NoOpenOrder))
      else if Find(w.orders, OpenAt(dst, session, None)).Some? then (w, Refused(Occupied))
      else (MoveTo(w, from.value, dst), Moved(from.value))
  }

  predicate Financial(o: Order) { o.payments != [] || o.amountPaid > 0 || o.total < 0 }

  function Combined(dst: Order, src: Order): Order {
    var lines := dst.lines + src.lines;
    dst.(lines := lines, total := Total(lines), fired := Snapshot(lines), guests := dst.guests + src.guests)
  }

  function MergeOn(w: World, tables: set<int>, session: int, src: int, dst: int, confirm: bool): (World, Outcome) {
    if src == dst then (w, Refused(SameTable))
    else
      var from := Find(w.orders, OpenAt(src, session, None));
      if from.None? then (w, Refused(NoOpenOrder))
      else
        var into := Find(w.orders, OpenAt(dst, session, None));
        if into.None? then
          if dst !in tables then (w, Refused(UnknownTable)) else (MoveTo(w, from.value, dst), Moved(from.value))
        else
          var s, d := w.orders[from.value].value, w.orders[into.value].value;
          if (Financial(s) || Financial(d)) && !confirm then (w, Refused(HasPayments))
          else
            (World(w.orders[into.value := Some(Combined(d, s))][from.value := None],
                   Rehome(w.tickets, from.value, into.value, dst)), Merged(into.value))
  }

  // ---- the running floor ---------------------------------------------------------------------

  class Floor {
    var orders: seq<Option<Order>>
    var tickets: seq<Ticket>
    const tables: set<int>

    constructor (tables: set<int>)
      ensures this.tables == tables && Now() == World([], [])
    {
      this.tables := tables;
      orders, tickets := [], [];
    }

    function Now(): World
      reads this
    {
      World(orders, tickets)
    }

    method FireCourse(r: Fire) returns (out: Outcome)
      modifies this
      ensures (Now(), out) == FireOn(old(Now()), r)
    {
      hide Find, FindTicket, FireRefused, Host, Total, Snapshot, TicketsFor, FiresOf, Grafted, GraftedItems, PlainItems,
          LinesOf, Put;
      var done := FindTicket(tickets, r.fireUuid);
      if done.Some? { return Replayed(tickets[done.value].order); }
      if !r.sellable { return Refused(NotSellable); }
      if FireRefused(orders, r) { return Refused(AlreadyClosed); }
      var (k, o) := Host(orders, r);
      ghost var before := Now();
      // the plain lines first, totalled over everything on the order
      var lines := o.lines + LinesOf(r.plain);
      var total := SumLines(lines);
      o := o.(lines := lines, total := total, amountPaid := 0, guests := if r.guests != 0 then r.guests else o.guests);
      // then the grafts; the first bad one ends the request here
      var ok, grafted, items := GraftAll(r.grafts);
      lines := lines + grafted;
      assert lines == Host(before.orders, r).1.lines + NewLines(r);
      if !ok {
        orders := Put(orders, k, o.(lines := lines));
        return Failed(k);
      }
      total := SumLines(lines);
      var course := |FiresOf(tickets, k)| + 1;
      var made := [];
      if !r.defer {
        made := MakeTickets(PlainItems(r.plain) + items, Ticket(k, r.fireUuid, 0, course, FireLabelOf(o), []));
      }
      assert made == NewTickets(before, k, Host(before.orders, r).1, r);
      var fired := RebuildSnapshot(lines);
      o := o.(lines := lines, total := total, fired := fired, online := o.online || r.defer);
      orders := Put(orders, k, o);
      tickets := tickets + made;
      out := Fired(k, course, |made|);
    }

    method Transfer(session: int, src: int, dst: int, only: Option<string>) returns (out: Outcome)
      modifies this
      ensures (Now(), out) == TransferOn(old(Now()), tables, session, src, dst, only)
    {
      if src == dst { return Refused(SameTable); }
      if dst !in tables { return Refused(UnknownTable); }
      var from := Find(orders, OpenAt(src, session, only));
      if from.None? { return Refused(NoOpenOrder); }
      var occupied := Find(orders, OpenAt(dst, session, None));
      if occupied.Some? { return Refused(Occupied); }
      orders := orders[from.value := Some(orders[from.value].value.(table := Some(dst)))];
      tickets := Rehome(tickets, from.value, from.value, dst);
      out := Moved(from.value);
    }

    method Merge(session: int, src: int, dst: int, confirm: bool) returns (out: Outcome)
      modifies this
      ensures (Now(), out) == MergeOn(old(Now()), tables, session, src, dst, confirm)
    {
      if src == dst { return Refused(SameTable); }
      var from := Find(orders, OpenAt(src, session, None));
      if from.None? { return Refused(NoOpenOrder); }
      var into := Find(orders, OpenAt(dst, session, None));
      if into.None? {
        if dst !in tables { return Refused(UnknownTable); }
        orders := orders[from.value := Some(orders[from.value].value.(table := Some(dst)))];
        tickets := Rehome(tickets, from.value, from.value, dst);
        return Moved(from.value);
      }
      var s, d := orders[from.value].value, orders[into.value].value;
      if (Financial(s) || Financial(d)) && !confirm { return Refused(HasPayments); }
      var lines := d.lines + s.lines;
      var total := SumLines(lines);
      var fired := RebuildSnapshot(lines);
      tickets := Rehome(tickets, from.value, into.value, dst);
      d := d.(lines := lines, total := total, fired := fired, guests := d.guests + s.guests);
      orders := orders[into.value := Some(d)];
      orders := orders[from.value := None];
      out := Merged(into.value);
    }
  }
}
