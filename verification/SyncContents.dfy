/** What delivered events leave behind, event by event, and what a push reports. */
module SyncContents {
  import opened Common
  import opened SyncWorld
  import opened SyncPush

  // ---- what a sale is worth --------------------------------------------------------------

  predicate AllKnown(cat: Catalogue, lines: seq<SaleLine>) {
    forall i :: 0 <= i < |lines| ==> lines[i].product in cat.prices
  }

  /** No line is worth nothing, one line its quantity at its price, and lines add up. */
  lemma {:induction false} SaleTotalLaws(cat: Catalogue, a: seq<SaleLine>, b: seq<SaleLine>)
    requires AllKnown(cat, a) && AllKnown(cat, b)
    ensures SaleTotal(cat, []) == 0
    ensures |b| == 1 ==> SaleTotal(cat, b) == b[0].qty * cat.prices[b[0].product]
    ensures AllKnown(cat, a + b) && SaleTotal(cat, a + b) == SaleTotal(cat, a) + SaleTotal(cat, b)
  {
    if b == [] {
      assert a + b == a;
    } else {
      var n := |b| - 1;
      assert (a + b)[..|a| + n] == a + b[..n];
      SaleTotalLaws(cat, a, b[..n]);
    }
  }

  // ---- one event -----------------------------------------------------------------------------

  function RowOf(cat: Catalogue, c: Cloud, t: Term, e: Event): Row { Deliver(cat, c, (t, e)).terms[t].ledger[Key(e)] }

  function WorldAfter(cat: Catalogue, c: Cloud, t: Term, e: Event): World { Deliver(cat, c, (t, e)).world }

  /** The event was dead-lettered: recorded as failed, with no effect. */
  predicate DeadLettered(cat: Catalogue, c: Cloud, t: Term, e: Event) {
    RowOf(cat, c, t, e) == Row(e.seqNo, RowFailed) && WorldAfter(cat, c, t, e) == c.world
  }

  /** A sale with a fresh identity stores one order: this terminal's, with just the lines
      sent, their total, the payments sent or else one of the total by the default method,
      and the reference sent or else the minted one. */
  lemma SaleIsStored(cat: Catalogue, c: Cloud, t: Term, e: Event)
    requires e.model == "pos.order" && e.payload.parsable && e.uuid != "" && e.uuid !in c.world.orders
    requires t in cat.branch && AllKnown(cat, e.payload.lines)
    ensures var w := WorldAfter(cat, c, t, e);
      && w.orders.Keys == c.world.orders.Keys + {e.uuid}
      && (forall k :: k in c.world.orders ==> w.orders[k] == c.world.orders[k])
      && w.stock == c.world.stock && w.cards == c.world.cards
      && var sale := w.orders[e.uuid];
         && sale.terminal == t && sale.lines == e.payload.lines
         && sale.total == SaleTotal(cat, e.payload.lines)
         && (e.payload.payments != [] ==> sale.payments == e.payload.payments)
         && (e.payload.payments == [] ==>
               |sale.payments| == 1 && sale.payments[0].paymentMethod == cat.defaultMethod
               && sale.payments[0].amount == sale.total)
         && (e.payload.reference.Some? ==> sale.reference == e.payload.reference.value)
         && (e.payload.reference.None? ==> sale.reference == cat.mintedRef(t, e.seqNo))
    ensures RowOf(cat, c, t, e) == Row(e.seqNo, RowApplied)
  {
    hide SaleTotal;
  }

  /** A sale that is stored already is skipped; one without a branch or with an unknown
      product is dead-lettered. */
  lemma SaleIsNotStored(cat: Catalogue, c: Cloud, t: Term, e: Event)
    requires e.model == "pos.order" && e.payload.parsable && e.uuid != ""
    ensures e.uuid in c.world.orders ==>
      RowOf(cat, c, t, e) == Row(e.seqNo, RowSkipped) && WorldAfter(cat, c, t, e) == c.world
    ensures e.uuid !in c.world.orders && !(t in cat.branch && AllKnown(cat, e.payload.lines)) ==>
      DeadLettered(cat, c, t, e)
  {
    hide SaleTotal;
  }

  predicate StockModel(m: string) { m == "stock" || m == "stock.delta" || m == "mezze.stock.delta" }

  predicate LoyaltyModel(m: string) { m == "loyalty" || m == "loyalty.history" }

  /** An event without identity, without a readable payload, or of an unknown model is
      dead-lettered. */
  lemma UnknownIsDeadLettered(cat: Catalogue, c: Cloud, t: Term, e: Event)
    requires e.uuid == "" || !e.payload.parsable
          || (e.model != "pos.order" && !StockModel(e.model) && !LoyaltyModel(e.model))
    ensures DeadLettered(cat, c, t, e)
    ensures Key(e) == if e.uuid == "" then "(none)" else e.uuid
  {
  }

  /** The cell a stock event names: its product, at its location or else the branch's. */
  predicate Names(cat: Catalogue, t: Term, p: Payload, product: int, location: int) {
    && t in cat.branch
    && p.productId == Some(product) && product in cat.prices
    && if p.locationId.Some? then p.locationId.value == location && location in cat.locations
       else cat.branch[t] in cat.branchLocation && cat.branchLocation[cat.branch[t]] == location
  }

  /** A stock event moves exactly the cell it names by its delta, and is flagged exactly when
      that leaves the cell negative; if it names none it is dead-lettered. */
  lemma StockIsMoved(cat: Catalogue, c: Cloud, t: Term, e: Event)
    requires StockModel(e.model) && e.payload.parsable && e.uuid != ""
    ensures forall product, location :: Names(cat, t, e.payload, product, location) ==>
      var w := WorldAfter(cat, c, t, e); var k := (product, location);
      && OnHand(w, k) == OnHand(c.world, k) + e.payload.delta
      && (forall other :: other != k ==> OnHand(w, other) == OnHand(c.world, other))
      && w.orders == c.world.orders && w.cards == c.world.cards
      && RowOf(cat, c, t, e) == Row(e.seqNo, if OnHand(w, k) < 0 then RowFlagged else RowApplied)
    ensures (forall product, location :: !Names(cat, t, e.payload, product, location)) ==> DeadLettered(cat, c, t, e)
  {
    assert forall k: (int, int) :: Names(cat, t, e.payload, k.0, k.1) <==> StockTarget(cat, t, e.payload) == Success(k);
    if StockTarget(cat, t, e.payload).Success? {
      var k := StockTarget(cat, t, e.payload).value;
      assert Names(cat, t, e.payload, k.0, k.1);
    }
  }

  /** A loyalty event books its points on the card of its known partner, as issued or as
      used by their sign, and is flagged exactly when the balance ends negative; without a
      known partner or a programme it is dead-lettered. */
  lemma PointsAreBooked(cat: Catalogue, c: Cloud, t: Term, e: Event)
    requires LoyaltyModel(e.model) && e.payload.parsable && e.uuid != ""
    ensures e.payload.partnerId.Some? && e.payload.partnerId.value in cat.partners && cat.hasProgram ==>
      var w := WorldAfter(cat, c, t, e); var partner := e.payload.partnerId.value; var points := e.payload.points;
      var before, after := CardOf(c.world, partner), CardOf(w, partner);
      && after.points == before.points + points
      && after.issued == before.issued + (if points >= 0 then points else 0)
      && after.used == before.used - (if points <= 0 then points else 0)
      && RowOf(cat, c, t, e) == Row(e.seqNo, if after.points < 0 then RowFlagged else RowApplied)
      && (forall other :: other != partner ==> CardOf(w, other) == CardOf(c.world, other))
      && w.orders == c.world.orders && w.stock == c.world.stock
    ensures !(e.payload.partnerId.Some? && e.payload.partnerId.value in cat.partners && cat.hasProgram) ==>
      DeadLettered(cat, c, t, e)
  {
  }

  lemma EmptyAtFirst(w: World, k: (int, int), partner: int)
    ensures k !in w.stock ==> OnHand(w, k) == 0
    ensures k in w.stock ==> OnHand(w, k) == w.stock[k]
    ensures partner !in w.cards ==> CardOf(w, partner).points == 0
    ensures partner in w.cards ==> CardOf(w, partner) == w.cards[partner]
  {
  }

  // ---- what a push reports ---------------------------------------------------------------------

  /** The rows in one state that a push added. */
  function NewRows(before: Ledger, after: Ledger, s: RowState): set<string> {
    set k | k in after && k !in before && after[k].state == s
  }

  function Above(events: seq<Event>, cursor: int): nat {
    if events == [] then 0
    else Above(events[..|events| - 1], cursor) + (if events[|events| - 1].seqNo > cursor then 1 else 0)
  }

  /** Earlier rows stay; the counts are those of the new rows, flagged ones counting as
      applied too; and every event above the cursor is counted once. */
  ghost predicate Reported(start: Progress, p: Progress, events: seq<Event>, cursor: int) {
    && (forall k :: k in start.ledger ==> k in p.ledger && p.ledger[k] == start.ledger[k])
    && p.reply.failed == start.reply.failed + |NewRows(start.ledger, p.ledger, RowFailed)|
    && p.reply.flagged == start.reply.flagged + |NewRows(start.ledger, p.ledger, RowFlagged)|
    && p.reply.applied == start.reply.applied + |NewRows(start.ledger, p.ledger, RowApplied)|
                          + |NewRows(start.ledger, p.ledger, RowFlagged)|
    && p.reply.applied + p.reply.skipped + p.reply.failed
       == start.reply.applied + start.reply.skipped + start.reply.failed + Above(events, cursor)
  }

  lemma NewRow(before: Ledger, after: Ledger, k: string, row: Row, s: RowState)
    requires k !in after && k !in before
    ensures |NewRows(before, after[k := row], s)| == |NewRows(before, after, s)| + (if row.state == s then 1 else 0)
  {
    var a, b := NewRows(before, after, s), NewRows(before, after[k := row], s);
    assert b == if row.state == s then a + {k} else a;
  }

  predicate Grows(before: Ledger, after: Ledger, k: string, row: Row, s: RowState) {
    |NewRows(before, after[k := row], s)| == |NewRows(before, after, s)| + (if row.state == s then 1 else 0)
  }

  predicate OneMore(before: Ledger, after: Ledger, k: string, row: Row) {
    && Grows(before, after, k, row, RowApplied) && Grows(before, after, k, row, RowFlagged)
    && Grows(before, after, k, row, RowFailed) && Grows(before, after, k, row, RowSkipped)
  }

  lemma NewRowEverywhere(before: Ledger, after: Ledger, k: string, row: Row)
    requires k !in after && k !in before
    ensures OneMore(before, after, k, row)
  {
    forall s ensures Grows(before, after, k, row, s) { NewRow(before, after, k, row, s); }
  }

  lemma AboveLast(front: seq<Event>, e: Event, cursor: int)
    ensures Above(front + [e], cursor) == Above(front, cursor) + (if e.seqNo > cursor then 1 else 0)
  {
    assert (front + [e])[..|front|] == front;
  }

  lemma StepReports(cat: Catalogue, t: Term, cursor: int, start: Progress, p: Progress, front: seq<Event>, e: Event)
    requires Reported(start, p, front, cursor) && StepEvent(cat, t, cursor, p, e).Some?
    ensures Reported(start, StepEvent(cat, t, cursor, p, e).value, front + [e], cursor)
  {
    hide NewRows, ApplyEvent, Above;
    AboveLast(front, e, cursor);
    if e.seqNo > cursor && Key(e) !in p.ledger {
      NewRowEverywhere(start.ledger, p.ledger, Key(e), Row(e.seqNo, RowApplied));
      NewRowEverywhere(start.ledger, p.ledger, Key(e), Row(e.seqNo, RowSkipped));
      NewRowEverywhere(start.ledger, p.ledger, Key(e), Row(e.seqNo, RowFlagged));
      NewRowEverywhere(start.ledger, p.ledger, Key(e), Row(e.seqNo, RowFailed));
    }
  }

  lemma {:induction false} BatchIsReported(cat: Catalogue, t: Term, cursor: int, start: Progress, events: seq<Event>)
    requires StepAll(cat, t, cursor, start, events).Some?
    ensures Reported(start, StepAll(cat, t, cursor, start, events).value, events, cursor)
  {
    hide StepEvent, Reported;
    if events == [] {
      NothingReported(start, cursor);
    } else {
      var n := |events| - 1;
      BatchIsReported(cat, t, cursor, start, events[..n]);
      assert events == events[..n] + [events[n]];
      StepReports(cat, t, cursor, start, StepAll(cat, t, cursor, start, events[..n]).value, events[..n], events[n]);
    }
  }

  lemma NothingReported(start: Progress, cursor: int)
    ensures Reported(start, start, [], cursor)
  {
    assert forall s :: NewRows(start.ledger, start.ledger, s) == {};
  }

  /** The answer of a push counts what it did to the ledger: failed, flagged and applied are
      the rows it added, and each event above the cursor is counted once. */
  lemma PushIsReported(cat: Catalogue, c: Cloud, t: Term, batch: seq<Event>)
    requires t in c.terms && Push(cat, c, t, batch).Some?
    ensures var (after, reply) := Push(cat, c, t, batch).value;
      var before, ledger := c.terms[t].ledger, after.terms[t].ledger;
      && reply.failed == |NewRows(before, ledger, RowFailed)|
      && reply.flagged == |NewRows(before, ledger, RowFlagged)|
      && reply.applied == |NewRows(before, ledger, RowApplied)| + |NewRows(before, ledger, RowFlagged)|
      && reply.applied + reply.skipped + reply.failed == Above(SortBySeq(batch), c.terms[t].cursor)
  {
    hide StepAll, NewRows, Above, SortBySeq;
    BatchIsReported(cat, t, c.terms[t].cursor, Start(c, t), SortBySeq(batch));
  }
}
