/** What one request on the floor does, stated on the request and the orders it finds: where
    a fire writes and what the kitchen is told, and what a transfer or merge moves. */
module TableRequests {
  import opened Common
  import opened StationTickets
  import opened TableOrders
  import TableLedger
  import opened TableRuns

  // ---- sums and grafts ---------------------------------------------------------------------

  lemma SumLaws(a: seq<Line>, b: seq<Line>, product: int)
    ensures Total([]) == 0 && QtyOf([], product) == 0
    ensures |b| == 1 ==> Total(b) == b[0].amount
    ensures |b| == 1 ==> QtyOf(b, product) == if b[0].product == product && b[0].qty > 0 then b[0].qty else 0
    ensures Total(a + b) == Total(a) + Total(b)
    ensures QtyOf(a + b, product) == QtyOf(a, product) + QtyOf(b, product)
  {
    TotalAppend(a, b);
    QtyAppend(a, b, product);
    if |b| == 1 { assert b[..0] == []; }
  }

  lemma GraftLast(front: seq<Graft>, g: Graft)
    ensures BadGraft in front || g.BadGraft? ==>
      Grafted(front + [g]) == Grafted(front) && GraftedItems(front + [g]) == GraftedItems(front)
    ensures !(BadGraft in front || g.BadGraft?) ==>
      Grafted(front + [g]) == Grafted(front) + g.lines && GraftedItems(front + [g]) == GraftedItems(front) + g.items
  {
    assert (front + [g])[..|front|] == front;
  }

  lemma GraftNone()
    ensures Grafted([]) == [] && GraftedItems([]) == []
  {
  }

  /** One graft writes its lines and a bad one nothing. */
  lemma OneGraftWrites(g: Graft)
    ensures g.Graft? ==> Grafted([g]) == g.lines && GraftedItems([g]) == g.items
    ensures g.BadGraft? ==> Grafted([g]) == [] && GraftedItems([g]) == []
  {
    GraftNone();
    GraftLast([], g);
    assert [] + [g] == [g];
  }

  /** Grafts are written one after the other up to the first bad one. */
  lemma {:induction false} GraftsAppend(a: seq<Graft>, b: seq<Graft>)
    requires BadGraft !in a
    ensures Grafted(a + b) == Grafted(a) + Grafted(b) && GraftedItems(a + b) == GraftedItems(a) + GraftedItems(b)
  {
    hide Grafted, GraftedItems;
    if b == [] {
      GraftNone();
      assert a + b == a;
    } else {
      var front, g := b[..|b| - 1], b[|b| - 1];
      assert b == front + [g] && a + b == (a + front) + [g];
      GraftsAppend(a, front);
      GraftLast(front, g);
      GraftLast(a + front, g);
    }
  }

  lemma {:induction false} NothingAfterBad(a: seq<Graft>, b: seq<Graft>)
    requires BadGraft in a
    ensures Grafted(a + b) == Grafted(a) && GraftedItems(a + b) == GraftedItems(a)
  {
    hide Grafted, GraftedItems;
    if b == [] {
      assert a + b == a;
    } else {
      var front, g := b[..|b| - 1], b[|b| - 1];
      assert a + b == (a + front) + [g];
      NothingAfterBad(a, front);
      GraftLast(a + front, g);
    }
  }

  // ---- where a fire writes ---------------------------------------------------------------------

  ghost predicate OpenOn(os: Slots, i: nat, table: int, session: int) {
    && i < |os| && os[i].Some? && os[i].value.state == Draft
    && os[i].value.table == Some(table) && os[i].value.session == session
  }

  ghost predicate OpenAs(os: Slots, i: nat, name: string) {
    i < |os| && os[i].Some? && os[i].value.state == Draft && os[i].value.uuid == name
  }

  predicate Seated(r: Fire) { r.table.Some? && r.table.value != 0 }

  /** The table's open order; without one the open order of that name; else a new one. */
  ghost predicate Chosen(os: Slots, r: Fire, k: nat) {
    if Seated(r) && exists i: nat :: OpenOn(os, i, r.table.value, r.session)
    then OpenOn(os, k, r.table.value, r.session)
    else if exists i: nat :: OpenAs(os, i, r.uuid) then OpenAs(os, k, r.uuid)
    else k == |os|
  }

  /** The order before the request: the stored one, or an empty one on the request's table. */
  ghost predicate Before(os: Slots, r: Fire, k: nat, b: Order) {
    if k < |os| then os[k] == Some(b)
    else
      && b.uuid == r.uuid && b.session == r.session && b.state == Draft
      && b.table == (if Seated(r) then r.table else None)
      && b.lines == [] && b.payments == [] && b.total == 0 && b.fired == map[] && b.guests == r.guests && !b.online
  }

  lemma HostIsChosen(os: Slots, r: Fire)
    ensures Chosen(os, r, Host(os, r).0) && Before(os, r, Host(os, r).0, Host(os, r).1)
  {
    var t := Target(os, r);
    if Seated(r) {
      var at := Find(os, OpenAt(r.table.value, r.session, None));
      forall i: nat ensures OpenOn(os, i, r.table.value, r.session) <==>
        i < |os| && Matches(os[i], OpenAt(r.table.value, r.session, None)) {}
    }
    forall i: nat ensures OpenAs(os, i, r.uuid) <==> i < |os| && Matches(os[i], OpenNamed(r.uuid)) {}
  }

  /** The lines a request appends: its dishes' lines in order, then its grafts'. */
  ghost predicate Appended(before: seq<Line>, r: Fire, after: seq<Line>) {
    var n, g := |before|, Grafted(r.grafts);
    && |after| == n + |r.plain| + |g|
    && (forall i :: 0 <= i < n ==> after[i] == before[i])
    && (forall i :: 0 <= i < |r.plain| ==> after[n + i] == r.plain[i].line)
    && (forall i :: 0 <= i < |g| ==> after[n + |r.plain| + i] == g[i])
  }

  /** What every fire that reaches an order leaves on it, through or failed. */
  ghost predicate Written(b: Order, r: Fire, o: Order) {
    && o.uuid == b.uuid && o.session == b.session && o.table == b.table && o.state == b.state
    && o.payments == b.payments && o.amountPaid == 0
    && o.guests == (if r.guests != 0 then r.guests else b.guests)
    && Appended(b.lines, r, o.lines)
  }

  ghost predicate OthersKept(before: Slots, after: Slots, k: nat) {
    && |after| == (if k < |before| then |before| else |before| + 1)
    && forall i :: 0 <= i < |before| && i != k ==> after[i] == before[i]
  }

  lemma LinesAppended(before: seq<Line>, r: Fire)
    ensures Appended(before, r, before + NewLines(r))
  {
    hide Grafted;
  }

  lemma ThroughIsWritten(b: Order, r: Fire)
    ensures var o := WithLines(b, r);
      Written(b, r, o) && o.total == Total(o.lines) && o.fired == Snapshot(o.lines) && o.online == (b.online || r.defer)
  {
    LinesAppended(b.lines, r);
    hide Appended, NewLines, Total, Snapshot;
  }

  lemma FailedIsWritten(b: Order, r: Fire)
    ensures var o := LeftBehind(b, r);
      && Written(b, r, o) && o.fired == b.fired && o.online == b.online
      && |o.lines| >= |b.lines| + |r.plain| && o.total == Total(o.lines[..|b.lines| + |r.plain|])
  {
    LinesAppended(b.lines, r);
    assert (b.lines + NewLines(r))[..|b.lines| + |r.plain|] == b.lines + LinesOf(r.plain);
    hide Appended, NewLines, Total, Snapshot, LinesOf;
  }

  lemma PutOne(os: Slots, k: nat, o: Order)
    requires k <= |os|
    ensures OthersKept(os, Put(os, k, o), k) && k < |Put(os, k, o)| && Put(os, k, o)[k] == Some(o)
  {
  }

  /** What a fire did to the order it names: totalled and snapshot if it got through; only
      the dishes totalled and the snapshot as it was if it failed. */
  ghost predicate Ended(out: Outcome, b: Order, r: Fire, o: Order) {
    && Written(b, r, o)
    && (out.Fired? ==> o.total == Total(o.lines) && o.fired == Snapshot(o.lines) && o.online == (b.online || r.defer))
    && (out.Failed? ==>
          && |o.lines| >= |b.lines| + |r.plain| && o.total == Total(o.lines[..|b.lines| + |r.plain|])
          && o.fired == b.fired && o.online == b.online)
  }

  /** A fire answers with the order it wrote on: the chosen one, with its lines appended.
      One that got through totals and snapshots all of them and may mark the order online;
      one that failed totals the dishes only and leaves the snapshot. */
  lemma FireWrites(w: World, r: Fire)
    requires FireOn(w, r).1.Fired? || FireOn(w, r).1.Failed?
    ensures var (v, out) := FireOn(w, r); var k := out.order;
      && Chosen(w.orders, r, k) && OthersKept(w.orders, v.orders, k) && k < |v.orders| && v.orders[k].Some?
      && exists b: Order :: Before(w.orders, r, k, b) && Ended(out, b, r, v.orders[k].value)
  {
    hide *;
    HostIsChosen(w.orders, r);
    HostInside(w.orders, r);
    AnswersHost(w, r);
    var (k, b) := Host(w.orders, r);
    var o := if FireOn(w, r).1.Fired? then WithLines(b, r) else LeftBehind(b, r);
    if FireOn(w, r).1.Fired? { TableLedger.FiredWorld(w, r); } else { TableLedger.FailedWorld(w, r); }
    PutOne(w.orders, k, o);
    EndsAsWritten(FireOn(w, r).1, b, r, o);
  }

  lemma HostInside(os: Slots, r: Fire)
    ensures Host(os, r).0 <= |os|
  {
  }

  lemma EndsAsWritten(out: Outcome, b: Order, r: Fire, o: Order)
    requires out.Fired? || out.Failed?
    requires o == if out.Fired? then WithLines(b, r) else LeftBehind(b, r)
    ensures Ended(out, b, r, o)
  {
    ThroughIsWritten(b, r);
    FailedIsWritten(b, r);
    hide Written, WithLines, LeftBehind;
  }

  lemma AnswersHost(w: World, r: Fire)
    requires FireOn(w, r).1.Fired? || FireOn(w, r).1.Failed?
    ensures FireOn(w, r).1.order == Host(w.orders, r).0
  {
    hide Host, WithLines, LeftBehind, NewTickets, FireRefused, FindTicket, Put;
  }

  /** When a fire is answered as a repeat, refused, fails, or gets through. */
  lemma FireAnswers(w: World, r: Fire)
    ensures var out := FireOn(w, r).1;
      var known := exists i :: 0 <= i < |w.tickets| && w.tickets[i].fireUuid == r.fireUuid;
      && (out.Replayed? <==> known)
      && (out == Refused(NotSellable) <==> !known && !r.sellable)
      && (out.Refused? ==> out == Refused(NotSellable) || out == Refused(AlreadyClosed))
      && (out.Failed? ==> !known && r.sellable && BadGraft in r.grafts)
      && (out.Fired? ==> !known && r.sellable && BadGraft !in r.grafts)
      && (out.Replayed? ==> exists i ::
            0 <= i < |w.tickets| && w.tickets[i].fireUuid == r.fireUuid && w.tickets[i].order == out.order)
      && (out.Replayed? || out.Refused? ==> FireOn(w, r).0 == w)
    ensures UniqueNames(w.orders) ==> (FireOn(w, r).1 == Refused(AlreadyClosed) <==>
      && r.sellable && (forall i :: 0 <= i < |w.tickets| ==> w.tickets[i].fireUuid != r.fireUuid)
      && exists i :: 0 <= i < |w.orders| && w.orders[i].Some? && w.orders[i].value.uuid == r.uuid
                     && w.orders[i].value.state != Draft)
  {
    hide Host, NewTickets, WithLines, LeftBehind, Put;
    var known := Find(w.orders, AnyNamed(r.uuid));
    forall i: nat ensures i < |w.orders| && Matches(w.orders[i], AnyNamed(r.uuid)) <==>
      i < |w.orders| && w.orders[i].Some? && w.orders[i].value.uuid == r.uuid {}
  }

  // ---- what the kitchen is told --------------------------------------------------------------------

  /** How many dishes of the request read as this item. */
  function DishCount(plain: seq<Dish>, item: Item): nat {
    if plain == [] then 0
    else
      var d := plain[|plain| - 1];
      DishCount(plain[..|plain| - 1], item)
      + (if item.product == d.line.product && item.station == d.station && item.qty == d.line.qty && item.note == d.note
         then 1 else 0)
  }

  function GraftCount(gs: seq<Graft>, item: Item): nat {
    if gs == [] then 0
    else
      var g := gs[|gs| - 1];
      GraftCount(gs[..|gs| - 1], item) + (if g.Graft? then multiset(g.items)[item] else 0)
  }

  /** How often an item to cook was keyed, as a dish or with a graft. */
  function Keyed(r: Fire, item: Item): nat {
    if item.qty > 0 then DishCount(r.plain, item) + GraftCount(r.grafts, item) else 0
  }

  lemma {:induction false} PlainItemsCount(plain: seq<Dish>, item: Item)
    ensures multiset(PlainItems(plain))[item] == DishCount(plain, item)
  {
    if plain != [] {
      var n := |plain| - 1;
      PlainItemsCount(plain[..n], item);
      assert PlainItems(plain) == PlainItems(plain[..n]) + [PlainItems(plain)[n]];
    }
  }

  lemma {:induction false} GraftedItemsCount(gs: seq<Graft>, item: Item)
    requires BadGraft !in gs
    ensures multiset(GraftedItems(gs))[item] == GraftCount(gs, item)
  {
    if gs != [] { GraftedItemsCount(gs[..|gs| - 1], item); }
  }

  lemma ToCookLast(front: seq<Item>, item: Item)
    ensures ToCook(front + [item]) == if item.qty > 0 then ToCook(front) + [item] else ToCook(front)
  {
    assert (front + [item])[..|front|] == front;
  }

  lemma {:induction false} ToCookCount(items: seq<Item>, item: Item)
    ensures multiset(ToCook(items))[item] == if item.qty > 0 then multiset(items)[item] else 0
  {
    if items != [] {
      var front, last := items[..|items| - 1], items[|items| - 1];
      ToCookCount(front, item);
      ToCookLast(front, last);
      hide ToCook;
      assert items == front + [last];
    }
  }

  lemma {:induction false} AtStationOnly(items: seq<Item>, station: int)
    ensures forall i :: 0 <= i < |AtStation(items, station)| ==>
      AtStation(items, station)[i].station == station && AtStation(items, station)[i].qty > 0
  {
    if items != [] { AtStationOnly(items[..|items| - 1], station); }
  }

  lemma {:induction false} AtStationHas(items: seq<Item>, i: nat)
    requires i < |items| && items[i].qty > 0
    ensures items[i] in AtStation(items, items[i].station)
  {
    if i < |items| - 1 { AtStationHas(items[..|items| - 1], i); }
  }

  /** A fire that got through adds its tickets, all on its order, under its own identity and
      course, labelled with the order's table; a deferred one adds none. */
  lemma FireTickets(w: World, r: Fire)
    requires FireOn(w, r).1.Fired?
    ensures var (v, out) := FireOn(w, r);
      && |v.tickets| == |w.tickets| + out.made && v.tickets[..|w.tickets|] == w.tickets
      && (r.defer ==> out.made == 0)
      && out.course == |FiresOf(w.tickets, out.order)| + 1
      && out.order < |v.orders| && v.orders[out.order].Some?
      && forall i :: |w.tickets| <= i < |v.tickets| ==>
           var t := v.tickets[i];
           && t.order == out.order && t.fireUuid == r.fireUuid && t.course == out.course
           && t.seat == (match v.orders[out.order].value.table case None => NoTable case Some(n) => FireLabel(n))
  {
    FireWrites(w, r);
    HostFits(w.orders, r);
    hide Find, FindTicket, Total, Snapshot, FireRefused, FiresOf, Stations, AtStation;
    hide Chosen, Before, Appended, NewItems;
  }

  /** The tickets a fire adds, one per station and none empty, hold its dishes and its
      grafts' items with a positive quantity, each as often as it was keyed, and nothing
      else; an item stands on the ticket of its own station. */
  lemma KitchenGetsTheDishes(w: World, r: Fire)
    requires FireOn(w, r).1.Fired? && !r.defer
    ensures var made := FireOn(w, r).0.tickets[|w.tickets|..];
      && (forall item :: Cooked(made)[item] == Keyed(r, item))
      && (forall i, item :: 0 <= i < |made| && item in made[i].items ==> item.station == made[i].station)
      && (forall i :: 0 <= i < |made| ==> made[i].items != [])
      && (forall i, j :: 0 <= i < j < |made| ==> made[i].station != made[j].station)
  {
    var (k, o) := Host(w.orders, r);
    var items, head := NewItems(r), Head(w, k, o, r);
    var made := TicketsFor(items, head);
    NewTicketsOf(w, r);
    NothingLostOrDoubled(items, head);
    OneTicketPerStation(items, head);
    hide TicketsFor, ToCook, Cooked, PlainItems, GraftedItems, AtStation, FireOn, Host;
    forall item ensures Cooked(made)[item] == Keyed(r, item) {
      ToCookCount(items, item);
      PlainItemsCount(r.plain, item);
      GraftedItemsCount(r.grafts, item);
    }
    forall i, item | 0 <= i < |made| && item in made[i].items ensures item.station == made[i].station {
      AtStationOnly(items, made[i].station);
    }
  }

  lemma NewTicketsOf(w: World, r: Fire)
    requires FireOn(w, r).1.Fired? && !r.defer
    ensures BadGraft !in r.grafts
    ensures var (k, o) := Host(w.orders, r);
      FireOn(w, r).0.tickets[|w.tickets|..] == TicketsFor(NewItems(r), Head(w, k, o, r))
  {
    hide Find, FindTicket, FireRefused, Host, WithLines, LeftBehind, TicketsFor, Put;
  }

  /** A dish to cook is on exactly the ticket of its station. */
  lemma DishIsOnItsTicket(w: World, r: Fire, d: nat)
    requires FireOn(w, r).1.Fired? && !r.defer && d < |r.plain| && r.plain[d].line.qty > 0
    ensures var made := FireOn(w, r).0.tickets[|w.tickets|..]; var dish := r.plain[d];
      var item := Item(dish.line.product, dish.station, dish.line.qty, dish.note);
      && (exists i :: 0 <= i < |made| && made[i].station == dish.station && item in made[i].items)
      && (forall i :: 0 <= i < |made| && item in made[i].items ==> made[i].station == dish.station)
  {
    var made := FireOn(w, r).0.tickets[|w.tickets|..];
    KitchenGetsTheDishes(w, r);
    hide FireOn, Cooked, DishCount, GraftCount;
    DishCounts(r.plain, d);
    InSomeTicket(made, Item(r.plain[d].line.product, r.plain[d].station, r.plain[d].line.qty, r.plain[d].note));
  }

  lemma {:induction false} DishCounts(plain: seq<Dish>, d: nat)
    requires d < |plain|
    ensures DishCount(plain, Item(plain[d].line.product, plain[d].station, plain[d].line.qty, plain[d].note)) > 0
  {
    if d < |plain| - 1 { DishCounts(plain[..|plain| - 1], d); }
  }

  lemma {:induction false} InSomeTicket(ts: seq<Ticket>, item: Item)
    requires Cooked(ts)[item] > 0
    ensures exists i :: 0 <= i < |ts| && item in ts[i].items
  {
    var n := |ts| - 1;
    if item in ts[n].items {
      assert item in ts[n].items;
    } else {
      assert multiset(ts[n].items)[item] == 0;
      InSomeTicket(ts[..n], item);
      var i :| 0 <= i < n && item in ts[..n][i].items;
      assert item in ts[i].items;
    }
  }

  // ---- transfer and merge -------------------------------------------------------------------------

  /** The tickets of `from` go to `into`, and all of `into` are labelled with the new table;
      the kitchen's part of every ticket stays. */
  ghost predicate TicketsFollow(before: seq<Ticket>, after: seq<Ticket>, from: nat, into: nat, table: int) {
    && |after| == |before|
    && forall i :: 0 <= i < |before| ==>
         var b, a := before[i], after[i];
         && a.fireUuid == b.fireUuid && a.station == b.station && a.course == b.course && a.items == b.items
         && a.order == (if b.order == from then into else b.order)
         && a.seat == (if a.order == into then MoveLabel(table) else b.seat)
  }

  lemma RehomeFollows(ts: seq<Ticket>, from: nat, into: nat, table: int)
    ensures TicketsFollow(ts, Rehome(ts, from, into, table), from, into, table)
  {
  }

  lemma FindOpen(os: Slots, table: int, session: int, only: Option<string>)
    ensures var f := Find(os, OpenAt(table, session, only));
      && (f.None? <==> !HasOpen(os, table, session, only))
      && (f.Some? ==> OpenOn(os, f.value, table, session) && (only.Some? ==> os[f.value].value.uuid == only.value))
  {
    forall i: nat ensures OpenOn(os, i, table, session) && (only.Some? ==> os[i].value.uuid == only.value) <==>
      i < |os| && Matches(os[i], OpenAt(table, session, only)) {}
  }

  ghost predicate HasOpen(os: Slots, table: int, session: int, only: Option<string>) {
    exists i: nat :: OpenOn(os, i, table, session) && (only.Some? ==> os[i].value.uuid == only.value)
  }

  /** The order keeps everything but its table, its tickets follow, and nothing else moves. */
  ghost predicate MovedTo(w: World, v: World, k: nat, table: int) {
    && k < |w.orders| && w.orders[k].Some?
    && v.orders == w.orders[k := Some(w.orders[k].value.(table := Some(table)))]
    && TicketsFollow(w.tickets, v.tickets, k, k, table)
  }

  /** A transfer moves the source's open order to a known free table; each refusal has its
      condition, in this order, and changes nothing. */
  lemma TransferMeans(w: World, tables: set<int>, session: int, src: int, dst: int, only: Option<string>)
    ensures var (v, out) := TransferOn(w, tables, session, src, dst, only);
      if src == dst then out == Refused(SameTable) && v == w
      else if dst !in tables then out == Refused(UnknownTable) && v == w
      else if !HasOpen(w.orders, src, session, only) then out == Refused(NoOpenOrder) && v == w
      else if HasOpen(w.orders, dst, session, None) then out == Refused(Occupied) && v == w
      else && out.Moved? && OpenOn(w.orders, out.order, src, session)
           && (only.Some? ==> w.orders[out.order].value.uuid == only.value)
           && MovedTo(w, v, out.order, dst)
  {
    FindOpen(w.orders, src, session, only);
    FindOpen(w.orders, dst, session, None);
    var from := Find(w.orders, OpenAt(src, session, only));
    hide Find, OpenOn, Rehome;
    if from.Some? { RehomeFollows(w.tickets, from.value, from.value, dst); }
  }

  predicate TouchesMoney(o: Order) { o.payments != [] || o.amountPaid > 0 || o.total < 0 }

  /** The source's lines join the target's, totals, snapshot and guests follow, everything
      else of the target stays; the source is gone and its tickets are the target's. */
  ghost predicate MergedInto(w: World, v: World, from: nat, into: nat, table: int) {
    && from < |w.orders| && into < |w.orders| && from != into && w.orders[from].Some? && w.orders[into].Some?
    && |v.orders| == |w.orders| && v.orders[from].None? && v.orders[into].Some?
    && (forall i :: 0 <= i < |w.orders| && i != from && i != into ==> v.orders[i] == w.orders[i])
    && var s, d, o := w.orders[from].value, w.orders[into].value, v.orders[into].value;
       && o.lines == d.lines + s.lines && o.total == Total(o.lines) && o.fired == Snapshot(o.lines)
       && o.guests == d.guests + s.guests
       && o.uuid == d.uuid && o.session == d.session && o.table == d.table && o.state == d.state
       && o.payments == d.payments && o.amountPaid == d.amountPaid && o.online == d.online
       && TicketsFollow(w.tickets, v.tickets, from, into, table)
  }

  /** A merge joins two open orders unless money is on either and nobody confirmed; onto a
      free table it is a transfer; each refusal has its condition and changes nothing. */
  lemma MergeMeans(w: World, tables: set<int>, session: int, src: int, dst: int, confirm: bool)
    ensures var (v, out) := MergeOn(w, tables, session, src, dst, confirm);
      if src == dst then out == Refused(SameTable) && v == w
      else if !HasOpen(w.orders, src, session, None) then out == Refused(NoOpenOrder) && v == w
      else if !HasOpen(w.orders, dst, session, None) then
        if dst !in tables then out == Refused(UnknownTable) && v == w
        else out.Moved? && OpenOn(w.orders, out.order, src, session) && MovedTo(w, v, out.order, dst)
      else exists from: nat, into: nat ::
        && OpenOn(w.orders, from, src, session) && OpenOn(w.orders, into, dst, session)
        && if !confirm && (TouchesMoney(w.orders[from].value) || TouchesMoney(w.orders[into].value))
           then out == Refused(HasPayments) && v == w
           else out == Merged(into) && MergedInto(w, v, from, into, dst)
  {
    FindOpen(w.orders, src, session, None);
    FindOpen(w.orders, dst, session, None);
    var from, into := Find(w.orders, OpenAt(src, session, None)), Find(w.orders, OpenAt(dst, session, None));
    if from.Some? && into.Some? && src != dst {
      MergePair(w, tables, session, src, dst, confirm, from.value, into.value);
    }
    hide Find, Rehome, OpenOn, MergedInto, Combined;
    if from.Some? && into.None? { RehomeFollows(w.tickets, from.value, from.value, dst); }
  }

  lemma MergePair(w: World, tables: set<int>, session: int, src: int, dst: int, confirm: bool, from: nat, into: nat)
    requires src != dst && Find(w.orders, OpenAt(src, session, None)) == Some(from)
    requires Find(w.orders, OpenAt(dst, session, None)) == Some(into)
    ensures var (v, out) := MergeOn(w, tables, session, src, dst, confirm);
      if !confirm && (TouchesMoney(w.orders[from].value) || TouchesMoney(w.orders[into].value))
      then out == Refused(HasPayments) && v == w
      else out == Merged(into) && MergedInto(w, v, from, into, dst)
  {
    RehomeFollows(w.tickets, from, into, dst);
    hide Find, Rehome, Total, Snapshot;
  }

  // ---- payments and closings -----------------------------------------------------------------------

  lemma PaidLaws(front: seq<int>, amount: int)
    ensures Paid([]) == 0 && Paid(front + [amount]) == Paid(front) + amount
  {
    assert (front + [amount])[..|front|] == front;
  }

  /** A payment joins the payments of an open order, whose paid amount becomes their sum; a
      closing only closes; on an order that is not open neither does anything. */
  lemma PayAndCloseMean(w: World, tables: set<int>, k: nat, amount: int)
    ensures var open := k < |w.orders| && w.orders[k].Some? && w.orders[k].value.state == Draft;
      var paid, closed := Take(w, tables, Pay(k, amount)).0, Take(w, tables, Close(k)).0;
      if !open then paid == w && closed == w
      else
        var o := w.orders[k].value;
        var p := o.(payments := o.payments + [amount], amountPaid := Paid(o.payments) + amount);
        && paid == World(w.orders[k := Some(p)], w.tickets)
        && closed == World(w.orders[k := Some(o.(state := Closed))], w.tickets)
  {
    if IsOpen(w.orders, k) { PaidLaws(w.orders[k].value.payments, amount); }
  }
}
