/** What runs over the floor conserve, how courses are numbered, and when a repeated fire
    changes nothing. */
module TableLedger {
  import opened Common
  import opened StationTickets
  import opened TableOrders
  import opened TableRuns

  function Run(w: World, tables: set<int>, steps: seq<Step>): World {
    if steps == [] then w
    else Take(Run(w, tables, steps[..|steps| - 1]), tables, steps[|steps| - 1]).0
  }

  lemma {:induction false} RunsKeepInv(w: World, tables: set<int>, steps: seq<Step>)
    requires Inv(w)
    ensures Inv(Run(w, tables, steps))
  {
    hide Inv, Take;
    if steps != [] {
      RunsKeepInv(w, tables, steps[..|steps| - 1]);
      StepKeepsInv(Run(w, tables, steps[..|steps| - 1]), tables, steps[|steps| - 1]);
    }
  }

  /** No fire of the run leaves a cache behind. */
  predicate AllHarmless(steps: seq<Step>) {
    forall i :: 0 <= i < |steps| && steps[i].DoFire? ==> Harmless(steps[i].r)
  }

  lemma {:induction false} RunsKeepCaches(w: World, tables: set<int>, steps: seq<Step>)
    requires CachesAgree(w.orders) && AllHarmless(steps)
    ensures CachesAgree(Run(w, tables, steps).orders)
  {
    hide CachesAgree, Take, Harmless;
    if steps != [] {
      RunsKeepCaches(w, tables, steps[..|steps| - 1]);
      StepKeepsCaches(Run(w, tables, steps[..|steps| - 1]), tables, steps[|steps| - 1]);
    }
  }

  /** From an empty floor, after any run, failed fires included: names are unique, no table
      has two open orders in one session, every ticket is on a live order of its own table,
      each fire is on one order, courses are bounded, and the paid amount is the payments'
      sum or 0. If every fire was harmless, totals and snapshots agree with the lines. */
  lemma EveryRunIsSound(tables: set<int>, steps: seq<Step>)
    ensures Inv(Run(World([], []), tables, steps))
    ensures AllHarmless(steps) ==> CachesAgree(Run(World([], []), tables, steps).orders)
  {
    RunsKeepInv(World([], []), tables, steps);
    if AllHarmless(steps) { RunsKeepCaches(World([], []), tables, steps); }
  }

  // ---- tickets only move ------------------------------------------------------------------

  /** The kitchen content of the earlier tickets is untouched: only order and seat change. */
  ghost predicate Extends(before: seq<Ticket>, after: seq<Ticket>) {
    && |before| <= |after|
    && forall i :: 0 <= i < |before| ==> before[i] == after[i].(order := before[i].order, seat := before[i].seat)
  }

  lemma StepExtends(w: World, tables: set<int>, step: Step)
    ensures Extends(w.tickets, Take(w, tables, step).0.tickets)
  {
    hide Snapshot, Total, Find, FindTicket, FiresOf, TicketsFor, Financial;
  }

  lemma {:induction false} RunExtends(w: World, tables: set<int>, steps: seq<Step>)
    ensures Extends(w.tickets, Run(w, tables, steps).tickets)
  {
    hide Take;
    if steps != [] {
      RunExtends(w, tables, steps[..|steps| - 1]);
      StepExtends(Run(w, tables, steps[..|steps| - 1]), tables, steps[|steps| - 1]);
    }
  }

  /** A new fire's course is above every course already on its order, merges included. */
  lemma NewCourseIsLater(tables: set<int>, steps: seq<Step>, r: Fire, i: nat)
    requires var w := Run(World([], []), tables, steps);
      FireOn(w, r).1.Fired? && i < |w.tickets| && w.tickets[i].order == FireOn(w, r).1.order
    ensures var w := Run(World([], []), tables, steps);
      w.tickets[i].course < FireOn(w, r).1.course
  {
    EveryRunIsSound(tables, steps);
  }

  // ---- repeating a fire ----------------------------------------------------------------------

  /** Something in the fire reaches the kitchen. */
  ghost predicate Cooks(r: Fire) {
    !r.defer && exists i :: 0 <= i < |NewItems(r)| && NewItems(r)[i].qty > 0
  }

  lemma CookingMakesTickets(w: World, r: Fire)
    requires FireOn(w, r).1.Fired?
    ensures Cooks(r) <==> FireOn(w, r).1.made > 0
  {
    SomethingToCook(NewItems(r));
  }

  lemma FoundWhenThere(ts: seq<Ticket>, i: nat)
    requires i < |ts|
    ensures FindTicket(ts, ts[i].fireUuid).Some?
  {
    if FindTicket(ts, ts[i].fireUuid).None? { }
  }

  /** A fire that reached the kitchen is answered as a repeat at every later time, and
      points at the one order that holds its tickets then. */
  lemma CookedFireIsNeverRepeated(w: World, tables: set<int>, r: Fire, steps: seq<Step>)
    requires Inv(w) && FireOn(w, r).1.Fired? && Cooks(r)
    ensures var later := Run(FireOn(w, r).0, tables, steps);
      && FireOn(later, r).0 == later && FireOn(later, r).1.Replayed?
      && forall i :: 0 <= i < |later.tickets| && later.tickets[i].fireUuid == r.fireUuid ==>
           later.tickets[i].order == FireOn(later, r).1.order
  {
    var next, n := FireOn(w, r).0, |w.tickets|;
    var later := Run(next, tables, steps);
    FirstNewTicket(w, r);
    {
      hide FireOn, Run, Inv;
      StepKeepsInv(w, tables, DoFire(r));
      RunsKeepInv(next, tables, steps);
      RunExtends(next, tables, steps);
      FoundWhenThere(later.tickets, n);
    }
  }

  lemma FirstNewTicket(w: World, r: Fire)
    requires FireOn(w, r).1.Fired? && Cooks(r)
    ensures |FireOn(w, r).0.tickets| > |w.tickets|
    ensures FireOn(w, r).0.tickets[|w.tickets|].fireUuid == r.fireUuid
  {
    CookingMakesTickets(w, r);
  }

  lemma {:induction false} FindSame(a: Slots, b: Slots, q: Query)
    requires |a| == |b| && forall i :: 0 <= i < |a| ==> Matches(a[i], q) == Matches(b[i], q)
    ensures Find(a, q) == Find(b, q)
  {
  }

  lemma FiredWorld(w: World, r: Fire)
    requires FireOn(w, r).1.Fired?
    ensures FindTicket(w.tickets, r.fireUuid).None? && r.sellable && !FireRefused(w.orders, r) && Resolves(r)
    ensures var (k, o) := Host(w.orders, r);
      && FireOn(w, r).0 == World(Put(w.orders, k, WithLines(o, r)), w.tickets + NewTickets(w, k, o, r))
      && FireOn(w, r).1.made == |NewTickets(w, k, o, r)|
  {
    hide Host, WithLines, LeftBehind, NewTickets, FireRefused, FindTicket, Put;
  }

  lemma FailedWorld(w: World, r: Fire)
    requires FireOn(w, r).1.Failed?
    ensures FindTicket(w.tickets, r.fireUuid).None? && r.sellable && !FireRefused(w.orders, r) && !Resolves(r)
    ensures var (k, o) := Host(w.orders, r); FireOn(w, r).0 == World(Put(w.orders, k, LeftBehind(o, r)), w.tickets)
  {
    hide Host, WithLines, LeftBehind, NewTickets, FireRefused, FindTicket, Put;
  }

  predicate SamePlace(a: Order, b: Order) {
    a.uuid == b.uuid && a.session == b.session && a.table == b.table && a.state == b.state
  }

  lemma AppendKeepsSearch(os: Slots, k: nat, o: Order, q: Query)
    requires k < |os| && os[k].Some? && SamePlace(o, os[k].value)
    ensures Find(os[k := Some(o)], q) == Find(os, q)
  {
    FindSame(os[k := Some(o)], os, q);
  }

  /** After a fire wrote on an order the same fire looks for, and finds, the same order. */
  lemma SameHost(os: Slots, r: Fire, o: Order)
    requires !FireRefused(os, r) && SamePlace(o, Host(os, r).1)
    ensures Host(os, r).0 <= |os|
    ensures var after := Put(os, Host(os, r).0, o);
      !FireRefused(after, r) && Host(after, r) == (Host(os, r).0, o)
  {
    HostFits(os, r);
    var (k, before) := Host(os, r);
    if k < |os| { SameHostAppend(os, k, r, o); } else { SameHostOpen(os, r, o); }
  }

  lemma SameHostAppend(os: Slots, k: nat, r: Fire, o: Order)
    requires !FireRefused(os, r) && k < |os| && os[k].Some?
    requires Host(os, r) == (k, os[k].value) && SamePlace(o, os[k].value)
    ensures !FireRefused(os[k := Some(o)], r) && Host(os[k := Some(o)], r) == (k, o)
  {
    var after := os[k := Some(o)];
    forall q ensures Find(after, q) == Find(os, q) { AppendKeepsSearch(os, k, o, q); }
    hide Find;
  }

  lemma SameHostOpen(os: Slots, r: Fire, o: Order)
    requires !FireRefused(os, r) && Host(os, r) == (|os|, Opened(r)) && Find(os, AnyNamed(r.uuid)).None?
    requires Seat(r).None? || Find(os, OpenAt(Seat(r).value, r.session, None)).None?
    requires SamePlace(o, Opened(r))
    ensures !FireRefused(os + [Some(o)], r) && Host(os + [Some(o)], r) == (|os|, o)
  {
    FindNew(os, o, AnyNamed(r.uuid));
    if Find(os, OpenNamed(r.uuid)).Some? { NamedIsNamed(os, r.uuid); } else { FindNew(os, o, OpenNamed(r.uuid)); }
    if Seat(r).Some? { FindNew(os, o, OpenAt(Seat(r).value, r.session, None)); }
    hide Find;
  }

  lemma NamedIsNamed(os: Slots, name: string)
    requires Find(os, OpenNamed(name)).Some?
    ensures Find(os, AnyNamed(name)).Some?
  {
    assert Matches(os[Find(os, OpenNamed(name)).value], AnyNamed(name));
  }

  lemma FindNew(os: Slots, o: Order, q: Query)
    requires Find(os, q).None? && Matches(Some(o), q)
    ensures Find(os + [Some(o)], q) == Some(|os|)
  {
    assert (os + [Some(o)])[..|os|] == os;
  }

  /** An accepted fire can be repeated without effect exactly when it reached the kitchen
      or added no line; a deferred or all-negative cart is appended a second time. */
  lemma ReplayIsNoopExactlyWhen(w: World, r: Fire)
    requires FireOn(w, r).1.Fired?
    ensures FireOn(FireOn(w, r).0, r).0 == FireOn(w, r).0 <==> Cooks(r) || NewLines(r) == []
  {
    var next := FireOn(w, r).0;
    CookingMakesTickets(w, r);
    if Cooks(r) {
      FirstNewTicket(w, r);
      FoundWhenThere(next.tickets, |w.tickets|);
    } else {
      FiredWorld(w, r);
      SameHost(w.orders, r, WithLines(Host(w.orders, r).1, r));
      SecondFire(w, r);
    }
  }

  lemma SecondFire(w: World, r: Fire)
    requires FireOn(w, r).1.Fired? && FireOn(w, r).1.made == 0
    requires !FireRefused(FireOn(w, r).0.orders, r)
    requires Host(FireOn(w, r).0.orders, r) == (Host(w.orders, r).0, WithLines(Host(w.orders, r).1, r))
    ensures FireOn(FireOn(w, r).0, r).0 == FireOn(w, r).0 <==> NewLines(r) == []
  {
    FiredWorld(w, r);
    HostInRange(w.orders, r);
    var next := FireOn(w, r).0;
    var (k, o) := Host(w.orders, r);
    var o1 := WithLines(o, r);
    var o2 := WithLines(o1, r);
    SameTickets(w, next, k, o, r);
    LinesAgain(o, r);
    {
      hide Host, FireRefused, FindTicket, NewTickets, WithLines;
      assert next.tickets == w.tickets;
      assert FireOn(next, r).0.tickets == next.tickets;
      assert FireOn(next, r).0.orders == next.orders[k := Some(o2)];
    }
    hide FireOn, Host, FireRefused, FindTicket, NewTickets, WithLines;
    assert next.orders[k] == Some(o1);
  }

  lemma SameTickets(w: World, next: World, k: nat, o: Order, r: Fire)
    requires next.tickets == w.tickets + NewTickets(w, k, o, r) && NewTickets(w, k, o, r) == []
    ensures next.tickets == w.tickets && NewTickets(next, k, WithLines(o, r), r) == []
  {
    hide TicketsFor, Snapshot, Total, FiresOf;
  }

  lemma LinesAgain(o: Order, r: Fire)
    ensures WithLines(WithLines(o, r), r) == WithLines(o, r) <==> NewLines(r) == []
  {
    hide Snapshot, Total, NewLines;
    var o1 := WithLines(o, r);
    if NewLines(r) == [] {
      assert o1.lines + NewLines(r) == o1.lines;
    } else {
      assert |WithLines(o1, r).lines| > |o1.lines|;
    }
  }

  /** A fire that failed half-way fails again when it is repeated, and writes its lines a
      second time if it had any to write. */
  lemma FailedFireAppendsAgain(w: World, r: Fire)
    requires FireOn(w, r).1.Failed?
    ensures var next := FireOn(w, r).0; var again := FireOn(next, r);
      && again.1 == FireOn(w, r).1
      && (again.0 == next <==> NewLines(r) == [])
      && again.1.order < |next.orders| && next.orders[again.1.order].Some?
      && again.1.order < |again.0.orders| && again.0.orders[again.1.order].Some?
      && again.0.orders[again.1.order].value.lines == next.orders[again.1.order].value.lines + NewLines(r)
  {
    FailedWorld(w, r);
    var next := FireOn(w, r).0;
    var (k, o) := Host(w.orders, r);
    var o1 := LeftBehind(o, r);
    SameHost(w.orders, r, o1);
    LeftAgain(o, r);
    {
      hide Host, FireRefused, FindTicket, LeftBehind, NewLines;
      assert FireOn(next, r) == (World(next.orders[k := Some(LeftBehind(o1, r))], next.tickets), Failed(k));
    }
    hide Host, FireRefused, FindTicket, FireOn, NewLines;
    assert next.orders[k] == Some(o1);
  }

  lemma LeftAgain(o: Order, r: Fire)
    ensures LeftBehind(LeftBehind(o, r), r) == LeftBehind(o, r) <==> NewLines(r) == []
    ensures LeftBehind(LeftBehind(o, r), r).lines == LeftBehind(o, r).lines + NewLines(r)
  {
    hide Total;
    var o1 := LeftBehind(o, r);
    if NewLines(r) == [] {
      assert o1.lines + NewLines(r) == o1.lines && LinesOf(r.plain) == [];
      assert o1.lines == o.lines + LinesOf(r.plain);
      assert o1.lines + LinesOf(r.plain) == o.lines + LinesOf(r.plain);
    } else {
      assert |LeftBehind(o1, r).lines| > |o1.lines|;
    }
  }

  lemma HostInRange(os: Slots, r: Fire)
    ensures Host(os, r).0 <= |os|
  {
  }

  // ---- conservation -----------------------------------------------------------------------------

  datatype Books = Books(lines: multiset<Line>, payments: multiset<int>, worth: int, guests: int) {
    function Plus(b: Books): Books {
      Books(lines + b.lines, payments + b.payments, worth + b.worth, guests + b.guests)
    }
  }

  function BooksOf(slot: Option<Order>): Books {
    match slot
    case None => Books(multiset{}, multiset{}, 0, 0)
    case Some(o) => Books(multiset(o.lines), multiset(o.payments), Total(o.lines), o.guests)
  }

  /** All lines with what they are worth, payments and guests on the floor. */
  function All(os: Slots): Books {
    if os == [] then BooksOf(None) else All(os[..|os| - 1]).Plus(BooksOf(os[|os| - 1]))
  }

  lemma PlusSwaps(a: Books, b: Books, c: Books)
    ensures a.Plus(b).Plus(c) == a.Plus(c).Plus(b)
  {
  }

  lemma PlusCancels(a: Books, b: Books, c: Books)
    requires a.Plus(c) == b.Plus(c)
    ensures a == b
  {
    Cancels(a.lines, b.lines, c.lines);
    Cancels(a.payments, b.payments, c.payments);
  }

  lemma Cancels<T>(a: multiset<T>, b: multiset<T>, c: multiset<T>)
    requires a + c == b + c
    ensures a == b
  {
    forall x: T ensures a[x] == b[x] { assert (a + c)[x] == (b + c)[x]; }
  }

  lemma AllLast(front: Slots, slot: Option<Order>)
    ensures All(front + [slot]) == All(front).Plus(BooksOf(slot))
  {
    assert (front + [slot])[..|front|] == front;
  }

  lemma {:induction false} ReplaceOne(os: Slots, k: nat, slot: Option<Order>)
    requires k < |os|
    ensures All(os[k := slot]).Plus(BooksOf(os[k])) == All(os).Plus(BooksOf(slot))
  {
    hide BooksOf, All, Books.Plus;
    var n := |os| - 1;
    var front, last := os[..n], os[n];
    assert os == front + [last];
    AllLast(front, last);
    if k < n {
      assert os[k := slot] == front[k := slot] + [last];
      AllLast(front[k := slot], last);
      ReplaceOne(front, k, slot);
      PlusSwaps(All(front[k := slot]), BooksOf(last), BooksOf(os[k]));
      PlusSwaps(All(front), BooksOf(last), BooksOf(slot));
    } else {
      assert os[k := slot] == front + [slot];
      AllLast(front, slot);
      PlusSwaps(All(front), BooksOf(slot), BooksOf(last));
    }
  }

  lemma PlusAssociates(a: Books, b: Books, c: Books)
    ensures a.Plus(b.Plus(c)) == a.Plus(c).Plus(b)
  {
  }

  /** Replacing a slot by one with `added` more adds just that to the floor. */
  lemma ReplaceAdds(os: Slots, k: nat, slot: Option<Order>, added: Books)
    requires k < |os| && BooksOf(slot) == BooksOf(os[k]).Plus(added)
    ensures All(os[k := slot]) == All(os).Plus(added)
  {
    hide BooksOf, All, Books.Plus;
    ReplaceOne(os, k, slot);
    PlusAssociates(All(os), BooksOf(os[k]), added);
    PlusCancels(All(os[k := slot]), All(os).Plus(added), BooksOf(os[k]));
  }

  lemma PutBooks(os: Slots, k: nat, o: Order, added: Books)
    requires k <= |os|
    requires BooksOf(Some(o)) == (if k < |os| then BooksOf(os[k]).Plus(added) else added)
    ensures All(Put(os, k, o)) == All(os).Plus(added)
  {
    hide BooksOf, All, Books.Plus;
    if k < |os| {
      ReplaceAdds(os, k, Some(o), added);
    } else {
      AllLast(os, Some(o));
    }
  }

  /** Replacing an order by one with the same contents leaves the books alone. */
  lemma SameContents(os: Slots, k: nat, o: Order)
    requires k < |os| && os[k].Some?
    requires o.lines == os[k].value.lines && o.payments == os[k].value.payments && o.guests == os[k].value.guests
    ensures All(os[k := Some(o)]) == All(os)
  {
    hide All;
    ReplaceOne(os, k, Some(o));
    PlusCancels(All(os[k := Some(o)]), All(os), BooksOf(os[k]));
  }

  /** A fire that states a guest count replaces the order's own. */
  function NewGuests(os: Slots, r: Fire): int {
    var t := Target(os, r);
    if t.None? then r.guests else if r.guests == 0 then 0 else r.guests - os[t.value].value.guests
  }

  /** What a step brings onto the floor: new lines and new payments, nothing else. A fire
      that fails half-way brings the lines it had written. */
  function Added(w: World, tables: set<int>, step: Step): Books {
    if step.DoFire? && (FireOn(w, step.r).1.Fired? || FireOn(w, step.r).1.Failed?) then
      Books(multiset(NewLines(step.r)), multiset{}, Total(NewLines(step.r)), NewGuests(w.orders, step.r))
    else if step.Pay? && IsOpen(w.orders, step.order) then Books(multiset{}, multiset{step.amount}, 0, 0)
    else BooksOf(None)
  }

  lemma LinesBooks(o: Order, r: Fire, before: Option<Order>, after: Order)
    requires before == Some(o) || (before == None && o == Opened(r))
    requires after == (if Resolves(r) then WithLines(o, r) else LeftBehind(o, r))
    ensures BooksOf(Some(after)) == BooksOf(before).Plus(Books(multiset(NewLines(r)), multiset{}, Total(NewLines(r)),
              if before == None then r.guests else if r.guests == 0 then 0 else r.guests - o.guests))
  {
    hide Total, Snapshot, NewLines;
    TotalNone();
    TotalAppend(o.lines, NewLines(r));
  }

  lemma FireBooks(w: World, tables: set<int>, r: Fire)
    ensures All(FireOn(w, r).0.orders) == All(w.orders).Plus(Added(w, tables, DoFire(r)))
  {
    hide Find, FindTicket, NewTickets, FiresOf, All, Total, Target, WithLines, LeftBehind, BooksOf, NewLines,
        Books.Plus;
    PlusNothing(All(w.orders));
    if FireOn(w, r).1.Fired? || FireOn(w, r).1.Failed? {
      HostFits(w.orders, r);
      var (k, o) := Host(w.orders, r);
      var after := if Resolves(r) then WithLines(o, r) else LeftBehind(o, r);
      LinesBooks(o, r, if k < |w.orders| then Some(o) else None, after);
      NothingPlus(Added(w, tables, DoFire(r)));
      PutBooks(w.orders, k, after, Added(w, tables, DoFire(r)));
    }
  }

  lemma NothingPlus(a: Books)
    ensures BooksOf(None).Plus(a) == a
  {
  }

  lemma TotalNone()
    ensures Total([]) == 0
  {
  }

  lemma TransferConserves(w: World, k: nat, table: int)
    requires k < |w.orders| && w.orders[k].Some?
    ensures All(MoveTo(w, k, table).orders) == All(w.orders)
  {
    hide Rehome, All;
    SameContents(w.orders, k, w.orders[k].value.(table := Some(table)));
  }

  lemma PlusNothing(a: Books)
    ensures a.Plus(BooksOf(None)) == a
  {
  }

  lemma TakeAway(a: Books, left: Books, moved: Books, b: Books, c: Books)
    requires a.Plus(left.Plus(moved)) == b.Plus(BooksOf(None)) && b == c.Plus(moved)
    ensures a.Plus(left) == c
  {
    PlusAssociates(a, left, moved);
    PlusSwaps(a, left, moved);
    PlusNothing(b);
    assert a.Plus(left).Plus(moved) == c.Plus(moved);
    PlusCancels(a.Plus(left), c, moved);
  }

  /** Merging keeps every line and the grand total; the payments of the emptied order are
      the only thing that leaves the books. */
  lemma MergeBooks(w: World, from: nat, into: nat)
    requires from != into
    requires from < |w.orders| && w.orders[from].Some? && into < |w.orders| && w.orders[into].Some?
    ensures var c := Combined(w.orders[into].value, w.orders[from].value);
      var left := Books(multiset{}, multiset(w.orders[from].value.payments), 0, 0);
      All(w.orders[into := Some(c)][from := None]).Plus(left) == All(w.orders)
  {
    hide Snapshot, Total, All;
    var s, d := w.orders[from].value, w.orders[into].value;
    var c := Combined(d, s);
    var os := w.orders[into := Some(c)];
    var moved := Books(multiset(s.lines), multiset{}, Total(s.lines), s.guests);
    TotalAppend(d.lines, s.lines);
    ReplaceAdds(w.orders, into, Some(c), moved);
    ReplaceOne(os, from, None);
    var left := Books(multiset{}, multiset(s.payments), 0, 0);
    assert BooksOf(os[from]) == left.Plus(moved);
    TakeAway(All(os[from := None]), left, moved, All(os), All(w.orders));
  }

  /** A transfer or merge conserves all lines, all kitchen tickets and the grand total. It
      conserves the payments exactly when it is not a merge out of an order that has some,
      which only an explicit confirmation lets through. */
  lemma MergeConserves(w: World, tables: set<int>, session: int, src: int, dst: int, confirm: bool)
    requires Inv(w)
    ensures var (v, out) := MergeOn(w, tables, session, src, dst, confirm);
      && All(v.orders).lines == All(w.orders).lines
      && All(v.orders).worth == All(w.orders).worth && All(v.orders).guests == All(w.orders).guests
      && (CachesAgree(w.orders) ==> GrandTotal(v.orders) == GrandTotal(w.orders))
      && Extends(w.tickets, v.tickets) && |v.tickets| == |w.tickets|
      && var s := Find(w.orders, OpenAt(src, session, None));
         && (All(v.orders).payments == All(w.orders).payments
             <==> !(out.Merged? && w.orders[s.value].value.payments != []))
         && (out.Merged? && w.orders[s.value].value.payments != [] ==> confirm)
  {
    hide All, Combined, Inv, Find, CachesAgree, GrandTotal;
    if CachesAgree(w.orders) {
      StepKeepsCaches(w, tables, DoMerge(session, src, dst, confirm));
      GrandTotalIsWorth(w.orders);
      GrandTotalIsWorth(MergeOn(w, tables, session, src, dst, confirm).0.orders);
    }
    var from, into := Find(w.orders, OpenAt(src, session, None)), Find(w.orders, OpenAt(dst, session, None));
    var out := MergeOn(w, tables, session, src, dst, confirm).1;
    if out.Moved? { TransferConserves(w, from.value, dst); }
    if out.Merged? {
      MergeBooks(w, from.value, into.value);
      var payments := w.orders[from.value].value.payments;
      if payments != [] { assert payments[0] in multiset(payments); }
    }
  }

  /** The sum of the stored totals. */
  function GrandTotal(os: Slots): int {
    if os == [] then 0
    else GrandTotal(os[..|os| - 1]) + (if os[|os| - 1].Some? then os[|os| - 1].value.total else 0)
  }

  lemma {:induction false} GrandTotalIsWorth(os: Slots)
    requires CachesAgree(os)
    ensures GrandTotal(os) == All(os).worth
  {
    hide Total;
    if os != [] { GrandTotalIsWorth(os[..|os| - 1]); }
  }

  lemma TransferBooks(w: World, tables: set<int>, session: int, src: int, dst: int, only: Option<string>)
    ensures All(TransferOn(w, tables, session, src, dst, only).0.orders) == All(w.orders)
  {
    hide All, Find, MoveTo;
    if TransferOn(w, tables, session, src, dst, only).1.Moved? {
      TransferConserves(w, Find(w.orders, OpenAt(src, session, only)).value, dst);
    }
  }

  lemma MergeStepBooks(w: World, tables: set<int>, session: int, src: int, dst: int)
    requires Inv(w)
    ensures All(MergeOn(w, tables, session, src, dst, false).0.orders) == All(w.orders)
  {
    hide All, Find, MergeOn, Inv;
    MergeConserves(w, tables, session, src, dst, false);
  }

  lemma PaymentBooks(o: Order, amount: int)
    ensures BooksOf(Some(WithPayment(o, amount))) == BooksOf(Some(o)).Plus(Books(multiset{}, multiset{amount}, 0, 0))
  {
    hide Total, Paid;
  }

  lemma PayBooks(w: World, tables: set<int>, k: nat, amount: int)
    ensures All(Take(w, tables, Pay(k, amount)).0.orders) == All(w.orders).Plus(Added(w, tables, Pay(k, amount)))
  {
    hide All, Paid, WithPayment, BooksOf, Books.Plus;
    if IsOpen(w.orders, k) {
      PaymentBooks(w.orders[k].value, amount);
      PutBooks(w.orders, k, WithPayment(w.orders[k].value, amount), Added(w, tables, Pay(k, amount)));
    } else {
      PlusNothing(All(w.orders));
    }
  }

  lemma CloseBooks(w: World, tables: set<int>, k: nat)
    ensures All(Take(w, tables, Close(k)).0.orders) == All(w.orders)
  {
    hide All;
    if IsOpen(w.orders, k) { SameContents(w.orders, k, w.orders[k].value.(state := Closed)); }
  }

  lemma StepBooks(w: World, tables: set<int>, step: Step)
    requires Inv(w) && (step.DoMerge? ==> !step.confirm)
    ensures All(Take(w, tables, step).0.orders) == All(w.orders).Plus(Added(w, tables, step))
  {
    hide All, FireOn, MergeOn, TransferOn, Inv, Books.Plus;
    PlusNothing(All(w.orders));
    match step
    case DoFire(r) => FireBooks(w, tables, r);
    case DoTransfer(session, src, dst, only) => TransferBooks(w, tables, session, src, dst, only);
    case DoMerge(session, src, dst, confirm) => MergeStepBooks(w, tables, session, src, dst);
    case Pay(k, amount) => PayBooks(w, tables, k, amount);
    case Close(k) => CloseBooks(w, tables, k);
  }

  function AddedByRun(w: World, tables: set<int>, steps: seq<Step>): Books {
    if steps == [] then BooksOf(None)
    else
      var front := steps[..|steps| - 1];
      AddedByRun(w, tables, front).Plus(Added(Run(w, tables, front), tables, steps[|steps| - 1]))
  }

  /** Over any run whose merges are unconfirmed, the floor holds exactly what it held
      before plus the lines written by fires, failed ones included, and the payments taken:
      no line, no payment and no amount is ever lost or doubled. The stored totals add up to
      what the lines are worth as long as every fire was harmless. */
  lemma RunBooks(w: World, tables: set<int>, steps: seq<Step>)
    requires Inv(w) && forall i :: 0 <= i < |steps| && steps[i].DoMerge? ==> !steps[i].confirm
    ensures All(Run(w, tables, steps).orders) == All(w.orders).Plus(AddedByRun(w, tables, steps))
    ensures CachesAgree(w.orders) && AllHarmless(steps) ==>
      GrandTotal(Run(w, tables, steps).orders) == All(w.orders).worth + AddedByRun(w, tables, steps).worth
  {
    RunBooksAdd(w, tables, steps);
    if CachesAgree(w.orders) && AllHarmless(steps) {
      RunsKeepCaches(w, tables, steps);
      GrandTotalIsWorth(Run(w, tables, steps).orders);
    }
  }

  lemma {:induction false} RunBooksAdd(w: World, tables: set<int>, steps: seq<Step>)
    requires Inv(w) && forall i :: 0 <= i < |steps| && steps[i].DoMerge? ==> !steps[i].confirm
    ensures All(Run(w, tables, steps).orders) == All(w.orders).Plus(AddedByRun(w, tables, steps))
  {
    hide All, Added, Take, Inv, Books.Plus;
    if steps == [] {
      PlusNothing(All(w.orders));
    } else {
      var front := steps[..|steps| - 1];
      RunBooksAdd(w, tables, front);
      RunsKeepInv(w, tables, front);
      var last := Run(w, tables, front);
      StepBooks(last, tables, steps[|steps| - 1]);
      var added := Added(last, tables, steps[|steps| - 1]);
      PlusAssociates(All(w.orders), AddedByRun(w, tables, front), added);
      PlusSwaps(All(w.orders), AddedByRun(w, tables, front), added);
    }
  }
}
