/** Deltas commute, so the order in which terminals are heard does not matter. */
module SyncConvergence {
  import opened Common
  import opened SyncWorld
  import opened SyncPush
  import opened SyncProtocol

  type Delivered = (Term, Event)

  function EffectOf(cat: Catalogue, w: World, x: Delivered): World {
    Effect(cat, x.0, w, x.1)
  }

  function FoldWorld(cat: Catalogue, w: World, hist: History): World {
    if hist == [] then w else EffectOf(cat, FoldWorld(cat, w, hist[..|hist| - 1]), hist[|hist| - 1])
  }

  lemma FoldWorldLast(cat: Catalogue, w: World, h: History, x: Delivered)
    ensures FoldWorld(cat, w, h + [x]) == EffectOf(cat, FoldWorld(cat, w, h), x)
  {
    assert (h + [x])[..|h|] == h;
  }

  lemma {:induction false} DeliveredWorld(cat: Catalogue, c: Cloud, hist: History)
    ensures DeliverAll(cat, c, hist).world == FoldWorld(cat, c.world, hist)
  {
    hide Effect, StateOf;
    if hist != [] { DeliveredWorld(cat, c, hist[..|hist| - 1]); }
  }

  // ---- two effects commute ---------------------------------------------------------

  /** Only two sales under one identity can disagree. */
  ghost predicate Independent(x: Delivered, y: Delivered) {
    x == y || x.1.uuid != y.1.uuid || !IsSale(x.1) || !IsSale(y.1)
  }

  lemma OrdersCommute(cat: Catalogue, w: World, x: Delivered, y: Delivered)
    requires Independent(x, y)
    ensures EffectOf(cat, EffectOf(cat, w, x), y).orders == EffectOf(cat, EffectOf(cat, w, y), x).orders
  {
    hide EffectOf, SaleOf;
    SaleEffect(cat, w, x);
    SaleEffect(cat, w, y);
    SaleEffect(cat, EffectOf(cat, w, x), y);
    SaleEffect(cat, EffectOf(cat, w, y), x);
  }

  /** The order an event would store, if it is a valid sale. */
  function SaleOf(cat: Catalogue, x: Delivered): Option<Sale> {
    if x.1.uuid == "" || !x.1.payload.parsable || !IsSale(x.1) then None
    else match ApplySale(cat, x.0, World(map[], map[], map[]), x.1)
      case Failure(_) => None
      case Success(r) => if x.1.uuid in r.0.orders then Some(r.0.orders[x.1.uuid]) else None
  }

  lemma SaleEffect(cat: Catalogue, w: World, x: Delivered)
    ensures EffectOf(cat, w, x).orders
            == if SaleOf(cat, x).Some? && x.1.uuid !in w.orders
               then w.orders[x.1.uuid := SaleOf(cat, x).value] else w.orders
    ensures SaleOf(cat, x).Some? ==> IsSale(x.1)
  {
    hide SaleTotal;
  }

  /** The stock cell an event moves and by how much, if it is a valid stock event. */
  function StockMove(cat: Catalogue, x: Delivered): Option<((int, int), int)> {
    if x.1.uuid == "" || !x.1.payload.parsable || !IsStock(x.1) then None
    else match StockTarget(cat, x.0, x.1.payload)
      case Failure(_) => None
      case Success(k) => Some((k, x.1.payload.delta))
  }

  lemma StockEffect(cat: Catalogue, w: World, x: Delivered)
    ensures EffectOf(cat, w, x).stock
            == match StockMove(cat, x)
               case None => w.stock
               case Some(m) => w.stock[m.0 := OnHand(w, m.0) + m.1]
  {
    hide SaleTotal, StockTarget;
  }

  /** The card an event moves and by how many points, if it is a valid loyalty event. */
  function PointMove(cat: Catalogue, x: Delivered): Option<(int, int)> {
    if x.1.uuid == "" || !x.1.payload.parsable || !IsLoyalty(x.1) then None
    else match LoyaltyTarget(cat, x.1.payload)
      case Failure(_) => None
      case Success(partner) => Some((partner, x.1.payload.points))
  }

  lemma CardEffect(cat: Catalogue, w: World, x: Delivered)
    ensures EffectOf(cat, w, x).cards
            == match PointMove(cat, x)
               case None => w.cards
               case Some(m) => w.cards[m.0 := Booked(CardOf(w, m.0), m.1)]
  {
    hide SaleTotal, StockTarget, Booked;
  }

  lemma StockCommutes(cat: Catalogue, w: World, x: Delivered, y: Delivered)
    ensures EffectOf(cat, EffectOf(cat, w, x), y).stock == EffectOf(cat, EffectOf(cat, w, y), x).stock
  {
    hide EffectOf, StockMove;
    StockEffect(cat, w, x);
    StockEffect(cat, w, y);
    StockEffect(cat, EffectOf(cat, w, x), y);
    StockEffect(cat, EffectOf(cat, w, y), x);
  }

  lemma CardsCommute(cat: Catalogue, w: World, x: Delivered, y: Delivered)
    ensures EffectOf(cat, EffectOf(cat, w, x), y).cards == EffectOf(cat, EffectOf(cat, w, y), x).cards
  {
    hide EffectOf, PointMove;
    CardEffect(cat, w, x);
    CardEffect(cat, w, y);
    CardEffect(cat, EffectOf(cat, w, x), y);
    CardEffect(cat, EffectOf(cat, w, y), x);
  }

  lemma EffectsCommute(cat: Catalogue, w: World, x: Delivered, y: Delivered)
    requires Independent(x, y)
    ensures EffectOf(cat, EffectOf(cat, w, x), y) == EffectOf(cat, EffectOf(cat, w, y), x)
  {
    hide EffectOf;
    OrdersCommute(cat, w, x, y);
    StockCommutes(cat, w, x, y);
    CardsCommute(cat, w, x, y);
  }

  // ---- any permutation folds to the same world ------------------------------------------

  /** Sale identities are globally unique within the history. */
  ghost predicate UniqueSales(hist: History) {
    forall i, j :: 0 <= i < |hist| && 0 <= j < |hist| ==> Independent(hist[i], hist[j])
  }

  lemma {:induction false} MoveToEnd(cat: Catalogue, w: World, a: History, x: Delivered, b: History)
    requires forall i :: 0 <= i < |b| ==> Independent(x, b[i])
    ensures FoldWorld(cat, w, a + [x] + b) == FoldWorld(cat, w, a + b + [x])
  {
    hide EffectOf, Independent, FoldWorld;
    if b == [] {
      assert a + [x] + b == a + b + [x];
    } else {
      var front, y := b[..|b| - 1], b[|b| - 1];
      assert b == front + [y];
      MoveToEnd(cat, w, a, x, front);
      assert a + [x] + b == (a + [x] + front) + [y];
      assert a + b + [x] == ((a + front) + [y]) + [x];
      FoldWorldLast(cat, w, a + [x] + front, y);
      FoldWorldLast(cat, w, a + front, x);
      FoldWorldLast(cat, w, a + front, y);
      FoldWorldLast(cat, w, (a + front) + [y], x);
      EffectsCommute(cat, FoldWorld(cat, w, a + front), x, y);
    }
  }

  lemma RemoveFromBoth(front: History, x: Delivered, a: History, b: History)
    requires multiset(front + [x]) == multiset(a + [x] + b)
    ensures multiset(front) == multiset(a + b)
  {
    assert multiset(front + [x]) == multiset(front) + multiset{x};
    assert multiset(a + [x] + b) == multiset(a + [x]) + multiset(b) == multiset(a) + multiset{x} + multiset(b);
    assert multiset(front) == multiset(front + [x]) - multiset{x};
    assert multiset(a + b) == multiset(a) + multiset(b);
  }

  lemma UniqueSalesPrefix(front: History, x: Delivered)
    requires UniqueSales(front + [x])
    ensures UniqueSales(front)
  {
    hide Independent;
    var h := front + [x];
    forall i, j | 0 <= i < |front| && 0 <= j < |front| ensures Independent(front[i], front[j]) {
      assert Independent(h[i], h[j]);
    }
  }

  lemma LastIsIndependent(h: History, b: History)
    requires UniqueSales(h) && h != [] && multiset(b) <= multiset(h)
    ensures forall j :: 0 <= j < |b| ==> Independent(h[|h| - 1], b[j])
  {
    hide Independent;
    forall j | 0 <= j < |b| ensures Independent(h[|h| - 1], b[j]) {
      assert b[j] in multiset(b);
      assert b[j] in multiset(h);
      var k :| 0 <= k < |h| && h[k] == b[j];
      assert Independent(h[|h| - 1], h[k]);
    }
  }

  lemma {:induction false} PermutationsAgree(cat: Catalogue, w: World, h: History, g: History)
    requires multiset(h) == multiset(g) && UniqueSales(h)
    ensures FoldWorld(cat, w, h) == FoldWorld(cat, w, g)
  {
    hide EffectOf, Independent, FoldWorld, UniqueSales;
    assert |h| == |multiset(h)| == |multiset(g)| == |g|;
    if h == [] {
      assert g == [];
    } else {
      var front, x := h[..|h| - 1], h[|h| - 1];
      assert h == front + [x];
      assert x in multiset(g);
      var i :| 0 <= i < |g| && g[i] == x;
      var a, b := g[..i], g[i + 1..];
      assert g == a + [x] + b;
      RemoveFromBoth(front, x, a, b);
      assert multiset(b) <= multiset(h) by { assert multiset(g) == multiset(a + [x]) + multiset(b); }
      LastIsIndependent(h, b);
      UniqueSalesPrefix(front, x);
      MoveToEnd(cat, w, a, x, b);
      FoldWorldLast(cat, w, a + b, x);
      FoldWorldLast(cat, w, front, x);
      PermutationsAgree(cat, w, front, a + b);
    }
  }

  // ---- two interleavings of the same logs hold the same events ---------------------------

  lemma {:induction false} OccurrencesOf(hist: History, t: Term, e: Event)
    ensures multiset(hist)[(t, e)] == multiset(Of(hist, t))[e]
  {
    if hist != [] {
      var front, x := hist[..|hist| - 1], hist[|hist| - 1];
      assert hist == front + [x];
      OccurrencesOf(front, t, e);
      OfLast(front, x, t);
    }
  }

  lemma SameLogsSameEvents(h: History, g: History)
    requires forall t :: Of(h, t) == Of(g, t)
    ensures multiset(h) == multiset(g)
  {
    forall x: Delivered ensures multiset(h)[x] == multiset(g)[x] {
      OccurrencesOf(h, x.0, x.1);
      OccurrencesOf(g, x.0, x.1);
    }
  }

  lemma {:induction false} OfForeign(hist: History, t: Term)
    requires forall i :: 0 <= i < |hist| ==> hist[i].0 != t
    ensures Of(hist, t) == []
  {
    if hist != [] { OfForeign(hist[..|hist| - 1], t); }
  }

  /** Two runs that acknowledged the same part of every log end in the same world. */
  lemma RunsConverge(cat: Catalogue, logs: map<Term, seq<Event>>, c0: Cloud, c: Cloud, d: Cloud, h: History, g: History)
    requires ExactlyOnce(cat, logs, c0, c, h) && ExactlyOnce(cat, logs, c0, d, g)
    requires forall t :: t in logs ==> TermOf(c, t).cursor == TermOf(d, t).cursor
    requires UniqueSales(h)
    ensures c.world == d.world
  {
    hide Acked, GoodLog, KeySet, DeliverAll, UniqueSales;
    forall t ensures Of(h, t) == Of(g, t) {
      if t in logs {
        assert TermInv(c, t, logs[t], Of(h, t)) && TermInv(d, t, logs[t], Of(g, t));
      } else {
        OfForeign(h, t);
        OfForeign(g, t);
      }
    }
    SameLogsSameEvents(h, g);
    PermutationsAgree(cat, c0.world, h, g);
    DeliveredWorld(cat, c0, h);
    DeliveredWorld(cat, c0, g);
  }

  /** Stated over requests: any two legal schedules that drain the same logs agree. */
  lemma SchedulesConverge(cat: Catalogue, logs: map<Term, seq<Event>>, c0: Cloud, one: seq<Step>, two: seq<Step>)
    requires Unused(logs, c0) && Legal(cat, logs, c0, one) && Legal(cat, logs, c0, two)
    requires forall t :: t in logs ==> TermOf(Run(cat, c0, one), t).cursor == TermOf(Run(cat, c0, two), t).cursor
    requires GloballyUniqueSales(logs)
    ensures Run(cat, c0, one).world == Run(cat, c0, two).world
  {
    hide ExactlyOnce, Legal, Unused, Run, GloballyUniqueSales;
    var h := EveryRunIsExactlyOnce(cat, logs, c0, one);
    var g := EveryRunIsExactlyOnce(cat, logs, c0, two);
    HistoryOfLogsIsUnique(cat, logs, c0, Run(cat, c0, one), h);
    RunsConverge(cat, logs, c0, Run(cat, c0, one), Run(cat, c0, two), h, g);
  }

  /** No two events of the logs are sales under one identity. */
  ghost predicate GloballyUniqueSales(logs: map<Term, seq<Event>>) {
    forall t, u, i, j :: t in logs && u in logs && 0 <= i < |logs[t]| && 0 <= j < |logs[u]| && (t != u || i != j) ==>
      logs[t][i].uuid != logs[u][j].uuid || !IsSale(logs[t][i]) || !IsSale(logs[u][j])
  }

  lemma HistoryOfLogsIsUnique(cat: Catalogue, logs: map<Term, seq<Event>>, c0: Cloud, c: Cloud, h: History)
    requires ExactlyOnce(cat, logs, c0, c, h) && GloballyUniqueSales(logs)
    ensures UniqueSales(h)
  {
    hide GoodLog, KeySet, DeliverAll, Acked;
    forall i, j | 0 <= i < |h| && 0 <= j < |h| ensures Independent(h[i], h[j]) {
      var p := EventIsInLog(cat, logs, c0, c, h, i);
      var q := EventIsInLog(cat, logs, c0, c, h, j);
    }
  }

  lemma EventIsInLog(cat: Catalogue, logs: map<Term, seq<Event>>, c0: Cloud, c: Cloud, h: History, i: nat)
    returns (p: nat)
    requires ExactlyOnce(cat, logs, c0, c, h) && i < |h|
    ensures h[i].0 in logs && p < |logs[h[i].0]| && logs[h[i].0][p] == h[i].1
  {
    hide GoodLog, KeySet, DeliverAll;
    var t := h[i].0;
    assert TermInv(c, t, logs[t], Of(h, t));
    OccurrencesOf(h, t, h[i].1);
    assert h[i] in multiset(h);
    assert h[i].1 in Of(h, t);
    p :| 0 <= p < |Of(h, t)| && Of(h, t)[p] == h[i].1;
  }

  // ---- balances are sums ---------------------------------------------------------------------

  function StockDelta(cat: Catalogue, hist: History, k: (int, int)): int {
    if hist == [] then 0
    else
      var m := StockMove(cat, hist[|hist| - 1]);
      StockDelta(cat, hist[..|hist| - 1], k) + (if m.Some? && m.value.0 == k then m.value.1 else 0)
  }

  /** Nothing is dropped: on-hand is the start plus every applied delta, negative or not. */
  lemma {:induction false} OnHandIsStartPlusDeltas(cat: Catalogue, w: World, hist: History, k: (int, int))
    ensures OnHand(FoldWorld(cat, w, hist), k) == OnHand(w, k) + StockDelta(cat, hist, k)
  {
    hide StockMove, EffectOf;
    if hist != [] {
      var front := hist[..|hist| - 1];
      OnHandIsStartPlusDeltas(cat, w, front, k);
      StockEffect(cat, FoldWorld(cat, w, front), hist[|hist| - 1]);
    }
  }

  /** A stock event is flagged, never refused, exactly when it leaves the cell negative. */
  lemma NegativeStockIsFlagged(cat: Catalogue, t: Term, w: World, p: Payload)
    ensures StockTarget(cat, t, p).Success? <==> ApplyStock(cat, t, w, p).Success?
    ensures StockTarget(cat, t, p).Success? ==>
              var k, r := StockTarget(cat, t, p).value, ApplyStock(cat, t, w, p).value;
              && OnHand(r.0, k) == OnHand(w, k) + p.delta
              && (r.1.Flagged? <==> OnHand(r.0, k) < 0) && !r.1.Skipped?
  {
    hide StockTarget;
  }

  /** The ledger row a stock event leaves is flagged exactly when on-hand ends negative, and
      the delta counts either way; only an event without a target is dead-lettered. */
  lemma StockRowIsFlagged(cat: Catalogue, c: Cloud, t: Term, e: Event)
    requires e.uuid != "" && e.payload.parsable && IsStock(e)
    ensures var after := Deliver(cat, c, (t, e)); var state := after.terms[t].ledger[Key(e)].state;
      match StockTarget(cat, t, e.payload)
      case Failure(_) => state == RowFailed && after.world == c.world
      case Success(k) =>
        && OnHand(after.world, k) == OnHand(c.world, k) + e.payload.delta
        && state == (if OnHand(after.world, k) < 0 then RowFlagged else RowApplied)
  {
    NegativeStockIsFlagged(cat, t, c.world, e.payload);
    hide StockTarget;
  }

  // ---- loyalty: the balance is issued minus used, on every path ------------------------------

  datatype LoyaltyStep =
    | Synced(x: Delivered)
    | Earn(partner: int, earned: int)
    | Redeem(partner: int, need: int)

  /** Points earned at settlement: nothing is written when none are due. */
  function EarnPoints(w: World, partner: int, earned: int): World {
    if earned <= 0 then w else w.(cards := w.cards[partner := Booked(CardOf(w, partner), earned)])
  }

  /** Redeeming a reward: refused, with no write, when the balance is short. */
  function RedeemPoints(w: World, partner: int, need: int): World {
    var card := CardOf(w, partner);
    if card.points < need then w
    else w.(cards := w.cards[partner := Card(card.points - need, card.issued, card.used + need)])
  }

  function LoyaltyTake(cat: Catalogue, w: World, s: LoyaltyStep): World {
    match s
    case Synced(x) => EffectOf(cat, w, x)
    case Earn(partner, earned) => EarnPoints(w, partner, earned)
    case Redeem(partner, need) => RedeemPoints(w, partner, need)
  }

  /** Positive earnings are issued on the partner's card, and a redemption the balance covers
      is used there; nothing else changes any card. */
  lemma EarnAndRedeemMean(cat: Catalogue, w: World, p: int, n: int)
    ensures var after := LoyaltyTake(cat, w, Earn(p, n));
      && CardOf(after, p) == (if n > 0 then Card(CardOf(w, p).points + n, CardOf(w, p).issued + n, CardOf(w, p).used)
                              else CardOf(w, p))
      && (forall q :: q != p ==> CardOf(after, q) == CardOf(w, q)) && after.orders == w.orders && after.stock == w.stock
    ensures var after := LoyaltyTake(cat, w, Redeem(p, n));
      && CardOf(after, p) == (if CardOf(w, p).points >= n
                              then Card(CardOf(w, p).points - n, CardOf(w, p).issued, CardOf(w, p).used + n)
                              else CardOf(w, p))
      && (forall q :: q != p ==> CardOf(after, q) == CardOf(w, q)) && after.orders == w.orders && after.stock == w.stock
  {
  }

  function LoyaltyRun(cat: Catalogue, w: World, steps: seq<LoyaltyStep>): World {
    if steps == [] then w else LoyaltyTake(cat, LoyaltyRun(cat, w, steps[..|steps| - 1]), steps[|steps| - 1])
  }

  ghost predicate Balanced(w: World) {
    forall partner :: partner in w.cards ==> w.cards[partner].points == w.cards[partner].issued - w.cards[partner].used
  }

  /** Over any mix of synced transactions, earnings and redemptions, every card's balance
      is what its history issued minus what it used. */
  lemma {:induction false} BalanceIsIssuedMinusUsed(cat: Catalogue, w: World, steps: seq<LoyaltyStep>)
    requires Balanced(w)
    ensures Balanced(LoyaltyRun(cat, w, steps))
  {
    hide EffectOf, PointMove;
    if steps != [] {
      var before, s := LoyaltyRun(cat, w, steps[..|steps| - 1]), steps[|steps| - 1];
      BalanceIsIssuedMinusUsed(cat, w, steps[..|steps| - 1]);
      if s.Synced? { CardEffect(cat, before, s.x); }
    }
  }
}
