/** What the cloud stores and what one outbox event does to it. Quantities, points and
    money are integers in their smallest unit; the catalogue is fixed. */
module SyncWorld {
  import opened Common

  type Term = string

  datatype SaleLine = SaleLine(product: int, qty: int)

  datatype Payment = Payment(paymentMethod: int, amount: int)

  datatype Payload = Payload(
    parsable: bool, productId: Option<int>, locationId: Option<int>, delta: int,
    partnerId: Option<int>, points: int,
    lines: seq<SaleLine>, payments: seq<Payment>, reference: Option<string>)

  /** An outbox event; a missing `seq` reads as 0 and a missing `res_uuid` as "". */
  datatype Event = Event(seqNo: int, uuid: string, model: string, payload: Payload)

  datatype Sale = Sale(terminal: Term, lines: seq<SaleLine>, total: int, payments: seq<Payment>, reference: string)

  /** A loyalty card with the running sums of its history rows. */
  datatype Card = Card(points: int, issued: int, used: int)

  datatype World = World(orders: map<string, Sale>, stock: map<(int, int), int>, cards: map<int, Card>)

  datatype Catalogue = Catalogue(
    prices: map<int, int>, partners: set<int>, locations: set<int>,
    branch: map<Term, int>, branchLocation: map<int, int>, defaultMethod: int, hasProgram: bool,
    mintedRef: (Term, int) -> string)

  datatype Outcome = Applied | Skipped | Flagged

  datatype Poison = BadPayload | NoConfig | UnknownProduct | NoLocation | UnknownPartner | NoProgram | UnknownModel

  function OnHand(w: World, k: (int, int)): int {
    if k in w.stock then w.stock[k] else 0
  }

  /** The partner's card; it is minted empty on first use. */
  function CardOf(w: World, partner: int): Card {
    if partner in w.cards then w.cards[partner] else Card(0, 0, 0)
  }

  function SaleTotal(cat: Catalogue, lines: seq<SaleLine>): int
    requires forall i :: 0 <= i < |lines| ==> lines[i].product in cat.prices
  {
    if lines == [] then 0
    else SaleTotal(cat, lines[..|lines| - 1]) + lines[|lines| - 1].qty * cat.prices[lines[|lines| - 1].product]
  }

  function ApplySale(cat: Catalogue, t: Term, w: World, e: Event): Result<(World, Outcome), Poison> {
    if e.uuid in w.orders then Success((w, Skipped))
    else if t !in cat.branch then Failure(NoConfig)
    else if !(forall i :: 0 <= i < |e.payload.lines| ==> e.payload.lines[i].product in cat.prices)
    then Failure(UnknownProduct)
    else
      var total := SaleTotal(cat, e.payload.lines);
      var payments := if e.payload.payments != [] then e.payload.payments else [Payment(cat.defaultMethod, total)];
      var reference := if e.payload.reference.Some? then e.payload.reference.value else cat.mintedRef(t, e.seqNo);
      Success((w.(orders := w.orders[e.uuid := Sale(t, e.payload.lines, total, payments, reference)]), Applied))
  }

  /** The stock cell an event moves, or the reason it is poison. */
  function StockTarget(cat: Catalogue, t: Term, p: Payload): Result<(int, int), Poison> {
    if t !in cat.branch then Failure(NoConfig)
    else if p.productId.None? then Failure(BadPayload)
    else if p.productId.value !in cat.prices then Failure(UnknownProduct)
    else if p.locationId.Some? then
      if p.locationId.value in cat.locations
      then Success((p.productId.value, p.locationId.value))
      else Failure(NoLocation)
    else if cat.branch[t] in cat.branchLocation then Success((p.productId.value, cat.branchLocation[cat.branch[t]]))
    else Failure(NoLocation)
  }

  function ApplyStock(cat: Catalogue, t: Term, w: World, p: Payload): Result<(World, Outcome), Poison> {
    match StockTarget(cat, t, p)
    case Failure(x) => Failure(x)
    case Success(k) =>
      var after := OnHand(w, k) + p.delta;
      Success((w.(stock := w.stock[k := after]), if after < 0 then Flagged else Applied))
  }

  function Booked(c: Card, points: int): Card {
    Card(c.points + points, c.issued + (if points > 0 then points else 0), c.used + (if points < 0 then -points else 0))
  }

  function LoyaltyTarget(cat: Catalogue, p: Payload): Result<int, Poison> {
    if p.partnerId.None? || p.partnerId.value !in cat.partners then Failure(UnknownPartner)
    else if !cat.hasProgram then Failure(NoProgram)
    else Success(p.partnerId.value)
  }

  function ApplyLoyalty(cat: Catalogue, w: World, p: Payload): Result<(World, Outcome), Poison> {
    match LoyaltyTarget(cat, p)
    case Failure(x) => Failure(x)
    case Success(partner) =>
      var card := Booked(CardOf(w, partner), p.points);
      Success((w.(cards := w.cards[partner := card]), if card.points < 0 then Flagged else Applied))
  }

  predicate IsSale(e: Event) { e.model == "pos.order" }

  predicate IsStock(e: Event) { e.model == "stock" || e.model == "stock.delta" || e.model == "mezze.stock.delta" }

  predicate IsLoyalty(e: Event) { e.model == "loyalty" || e.model == "loyalty.history" }

  /** Dispatch by model; a failure is a poison event, rolled back by its savepoint. */
  function ApplyEvent(cat: Catalogue, t: Term, w: World, e: Event): Result<(World, Outcome), Poison> {
    if !e.payload.parsable then Failure(BadPayload)
    else if IsSale(e) then ApplySale(cat, t, w, e)
    else if IsStock(e) then ApplyStock(cat, t, w, e.payload)
    else if IsLoyalty(e) then ApplyLoyalty(cat, w, e.payload)
    else Failure(UnknownModel)
  }

  /** The world after an event, poison or not; an event without an identity is never applied. */
  function Effect(cat: Catalogue, t: Term, w: World, e: Event): World {
    if e.uuid == "" then w
    else match ApplyEvent(cat, t, w, e)
      case Failure(_) => w
      case Success(r) => r.0
  }
}
