/** Paying one order with one or more tenders. Amounts are integers in the smallest unit
    of the currency, so the tolerance of the source is 1. */
module Tender {
  import opened Common

  datatype Payment = Payment(amount: int, key: Option<string>)
  datatype Status = Draft | Paid
  datatype Order = Order(total: int, payments: seq<Payment>, paid: int, status: Status, partner: Option<int>)

  /** `discount` is the tax-included amount of the discount line; `policyOk` and `creditOk`
      are what the payment policy and the credit gate answer. */
  datatype Request = Request(
    amount: Option<int>, key: Option<string>, discount: Option<int>, partner: Option<int>,
    policyOk: bool, creditOk: bool)

  datatype Answer =
    | Repeat | NotOpen
    | PolicyRejects | InvalidAmount | Overpay(remaining: int) | CreditRejects
    | Partial(remaining: int) | Final

  function Sum(ps: seq<Payment>): int {
    if ps == [] then 0 else Sum(ps[..|ps| - 1]) + ps[|ps| - 1].amount
  }

  function Outstanding(o: Order): int { o.total - Sum(o.payments) }

  /** An empty key is no key. */
  function KeyOf(r: Request): Option<string> {
    if r.key == Some("") then None else r.key
  }

  predicate Seen(ps: seq<Payment>, key: Option<string>) {
    key.Some? && exists i :: 0 <= i < |ps| && ps[i].key == key
  }

  /** What a call writes before its first money check. */
  function Prepared(o: Order, r: Request): Order {
    o.(partner := if o.partner.None? then r.partner else o.partner,
       total := if r.discount.Some? then o.total - r.discount.value else o.total)
  }

  function TenderOf(o: Order, r: Request): int {
    if r.amount.Some? then r.amount.value else Outstanding(Prepared(o, r))
  }

  /** Takes one tender and closes the order once at most one unit is outstanding. */
  function Take(o: Order, p: Payment): (Order, Answer) {
    var payments := o.payments + [p];
    var left := o.total - Sum(payments);
    if left <= 1 then (o.(payments := payments, paid := Sum(payments), status := Paid), Final)
    else (o.(payments := payments, paid := Sum(payments)), Partial(left))
  }

  function PayOn(o: Order, r: Request): (Order, Answer) {
    if Seen(o.payments, KeyOf(r)) then (o, Repeat)
    else if o.status != Draft then (o, NotOpen)
    else
      var p, tender := Prepared(o, r), TenderOf(o, r);
      if !r.policyOk then (p, PolicyRejects)
      else if tender <= 0 then (p, InvalidAmount)
      else if tender - Outstanding(p) > 1 then (p, Overpay(Outstanding(p)))
      else if !r.creditOk then (p, CreditRejects)
      else Take(p, Payment(tender, KeyOf(r)))
  }

  predicate Accepted(a: Answer) { a.Partial? || a.Final? }

  class PosOrder {
    var total: int
    var payments: seq<Payment>
    var paid: int
    var status: Status
    var partner: Option<int>

    constructor (total: int)
      ensures Now() == Order(total, [], 0, Draft, None)
    {
      this.total := total;
      payments, paid, status, partner := [], 0, Draft, None;
    }

    function Now(): Order
      reads this
    {
      Order(total, payments, paid, status, partner)
    }

    method SumPayments() returns (sum: int)
      ensures sum == Sum(payments)
    {
      sum := 0;
      for n := 0 to |payments|
        invariant sum == Sum(payments[..n])
      {
        assert payments[..n + 1][..n] == payments[..n];
        sum := sum + payments[n].amount;
      }
      assert payments[..|payments|] == payments;
    }

    method Pay(r: Request) returns (a: Answer)
      modifies this
      ensures (Now(), a) == PayOn(old(Now()), r)
    {
      hide Sum, Seen, KeyOf;
      if Seen(payments, KeyOf(r)) { return Repeat; }
      if status != Draft { return NotOpen; }
      if partner.None? { partner := r.partner; }
      if r.discount.Some? { total := total - r.discount.value; }
      if !r.policyOk { return PolicyRejects; }
      var already := SumPayments();
      var remaining := total - already;
      var tender := if r.amount.Some? then r.amount.value else remaining;
      if tender <= 0 { return InvalidAmount; }
      if tender - remaining > 1 { return Overpay(remaining); }
      if !r.creditOk { return CreditRejects; }
      payments := payments + [Payment(tender, KeyOf(r))];
      paid := SumPayments();
      if total - paid <= 1 {
        status := Paid;
        return Final;
      }
      a := Partial(total - paid);
    }
  }

  // ---- every answer ------------------------------------------------------------------------

  function Owed(o: Order, r: Request): int {
    o.total - Sum(o.payments) - (if r.discount.Some? then r.discount.value else 0)
  }

  function Offered(o: Order, r: Request): int { if r.amount.Some? then r.amount.value else Owed(o, r) }

  ghost predicate Repeats(o: Order, r: Request) {
    r.key.Some? && r.key.value != "" && exists i :: 0 <= i < |o.payments| && o.payments[i].key == r.key
  }

  /** When each answer is given: a repeat first, then the state, the policy, the amount, the
      credit; what is left after the tender decides between partial and final. */
  lemma PayAnswers(o: Order, r: Request)
    ensures var a := PayOn(o, r).1; var owed, tender := Owed(o, r), Offered(o, r);
      if Repeats(o, r) then a == Repeat
      else if o.status == Paid then a == NotOpen
      else if !r.policyOk then a == PolicyRejects
      else if tender <= 0 then a == InvalidAmount
      else if tender > owed + 1 then a == Overpay(owed)
      else if !r.creditOk then a == CreditRejects
      else if owed - tender > 1 then a == Partial(owed - tender)
      else a == Final
  {
    SumLast(o.payments, Payment(TenderOf(o, r), KeyOf(r)));
    hide Sum;
  }

  /** What each call leaves: a repeat or a closed order as it was; else the first customer and
      the discounted total; and of an accepted tender one more payment under its key. */
  lemma PayWrites(o: Order, r: Request)
    ensures var (after, a) := PayOn(o, r);
      if a == Repeat || a == NotOpen then after == o
      else
        && after.partner == (if o.partner.Some? then o.partner else r.partner)
        && after.total == o.total - (if r.discount.Some? then r.discount.value else 0)
        && if Accepted(a)
           then && |after.payments| == |o.payments| + 1 && after.payments[..|o.payments|] == o.payments
                && after.payments[|o.payments|].amount == Offered(o, r)
                && after.payments[|o.payments|].key == (if r.key.Some? && r.key.value != "" then r.key else None)
                && after.paid == Sum(o.payments) + Offered(o, r)
                && (after.status == Paid <==> a == Final)
           else after.payments == o.payments && after.paid == o.paid && after.status == o.status
  {
    SumLast(o.payments, Payment(TenderOf(o, r), KeyOf(r)));
    hide Sum, Seen;
  }

  lemma NothingPaid()
    ensures Sum([]) == 0
  {
  }

  // ---- one call --------------------------------------------------------------------------

  lemma SumLast(ps: seq<Payment>, p: Payment)
    ensures Sum(ps + [p]) == Sum(ps) + p.amount
  {
    assert (ps + [p])[..|ps|] == ps;
  }

  /** A refused call leaves the order as it was unless it reached the money checks and
      brought a discount that is not 0, or the order's first customer. */
  lemma RefusedPayChangesOrderExactlyWhen(o: Order, r: Request)
    requires !Accepted(PayOn(o, r).1)
    ensures PayOn(o, r).0 != o <==>
      && !Seen(o.payments, KeyOf(r)) && o.status == Draft
      && ((r.discount.Some? && r.discount.value != 0) || (o.partner.None? && r.partner.Some?))
  {
  }

  lemma FinalNeedsNoOverpayment(o: Order, r: Request)
    requires r.discount.None? && PayOn(o, r).1 == Final
    ensures Outstanding(o) >= 0
  {
    hide Sum, Seen;
  }

  /** A request that brings an amount and nothing else. */
  function Plain(amount: Option<int>): Request { Request(amount, None, None, None, true, true) }

  lemma PlainTenders(o: Order, amount: Option<int>)
    ensures Prepared(o, Plain(amount)) == o && KeyOf(Plain(amount)) == None
    ensures TenderOf(o, Plain(amount)) == if amount.Some? then amount.value else Outstanding(o)
  {
    hide Sum;
  }

  lemma TakeCloses(o: Order, p: Payment)
    ensures Take(o, p).1 == Final <==> Outstanding(o) - p.amount <= 1
  {
    SumLast(o.payments, p);
    hide Sum;
  }

  lemma PlainAnswer(o: Order, amount: Option<int>)
    requires o.status == Draft
    ensures var tender := TenderOf(o, Plain(amount));
      PayOn(o, Plain(amount)).1 ==
      if tender <= 0 then InvalidAmount
      else if tender - Outstanding(o) > 1 then Overpay(Outstanding(o))
      else Take(o, Payment(tender, None)).1
  {
    PlainTenders(o, amount);
    hide Sum, Take, Outstanding, TenderOf, Prepared, KeyOf;
  }

  lemma ExactTenderCloses(o: Order, amount: Option<int>)
    requires o.status == Draft
    ensures PayOn(o, Plain(amount)).1 == Final
        <==> var tender := if amount.Some? then amount.value else Outstanding(o);
             0 < tender && Outstanding(o) - 1 <= tender <= Outstanding(o) + 1
  {
    hide PayOn, Prepared, Seen, Sum, Take, Plain, TenderOf, Outstanding;
    PlainTenders(o, amount);
    PlainAnswer(o, amount);
    TakeCloses(o, Payment(TenderOf(o, Plain(amount)), None));
  }

  /** Some call without a discount can close an open order exactly when it is not
      overpaid; the default amount does so exactly when something is outstanding. */
  lemma ClosableExactlyWhen(o: Order)
    requires o.status == Draft
    ensures (exists r: Request :: r.discount.None? && PayOn(o, r).1 == Final) <==> Outstanding(o) >= 0
    ensures PayOn(o, Plain(None)).1 == Final <==> Outstanding(o) > 0
  {
    hide PayOn;
    ExactTenderCloses(o, None);
    var amount := if Outstanding(o) == 0 then 1 else Outstanding(o);
    ExactTenderCloses(o, Some(amount));
    if Outstanding(o) >= 0 {
      assert Plain(Some(amount)).discount.None?;
    }
    forall r: Request | r.discount.None? && PayOn(o, r).1 == Final ensures Outstanding(o) >= 0 {
      FinalNeedsNoOverpayment(o, r);
    }
  }

  // ---- runs ---------------------------------------------------------------------------------

  function Run(o: Order, rs: seq<Request>): Order {
    if rs == [] then o else PayOn(Run(o, rs[..|rs| - 1]), rs[|rs| - 1]).0
  }

  /** How often a run closes the order. */
  function Closings(o: Order, rs: seq<Request>): nat {
    if rs == [] then 0
    else
      var front := rs[..|rs| - 1];
      Closings(o, front) + (if PayOn(Run(o, front), rs[|rs| - 1]).1 == Final then 1 else 0)
  }

  ghost predicate KeysOnce(ps: seq<Payment>) {
    forall i, j :: 0 <= i < j < |ps| && ps[i].key.Some? ==> ps[i].key != ps[j].key
  }

  ghost predicate Sound(o: Order) {
    && KeysOnce(o.payments)
    && (forall i :: 0 <= i < |o.payments| ==> o.payments[i].amount > 0)
    && (o.status == Paid ==> -1 <= Outstanding(o) <= 1)
  }

  lemma TakeKeepsSound(o: Order, p: Payment)
    requires Sound(o) && o.status == Draft && p.amount > 0 && !Seen(o.payments, p.key) && p.amount - Outstanding(o) <= 1
    ensures Sound(Take(o, p).0)
  {
    SumLast(o.payments, p);
    hide Sum;
  }

  lemma PreparedIsSound(o: Order, r: Request)
    requires Sound(o) && o.status == Draft
    ensures Sound(Prepared(o, r))
  {
    hide Sum;
  }

  lemma PayKeepsSound(o: Order, r: Request)
    requires Sound(o)
    ensures Sound(PayOn(o, r).0)
  {
    hide Sound, Take, Sum, Seen;
    if o.status == Draft {
      PreparedIsSound(o, r);
      if WillTake(o, r) { TakeKeepsSound(Prepared(o, r), Payment(TenderOf(o, r), KeyOf(r))); }
    }
  }

  /** Over every run, rejected discounts included: a key pays at most once, every payment
      is positive, and a closed order has been paid within one unit of its total. */
  lemma {:induction false} EveryRunIsSound(o: Order, rs: seq<Request>)
    requires Sound(o)
    ensures Sound(Run(o, rs))
  {
    if rs != [] {
      EveryRunIsSound(o, rs[..|rs| - 1]);
      PayKeepsSound(Run(o, rs[..|rs| - 1]), rs[|rs| - 1]);
    }
  }

  lemma {:induction false} ClosedForGood(o: Order, rs: seq<Request>)
    requires o.status == Paid
    ensures Run(o, rs) == o && Closings(o, rs) == 0
  {
    if rs != [] { ClosedForGood(o, rs[..|rs| - 1]); }
  }

  /** An order is closed at most once, and it is closed exactly if it was closed once. */
  lemma {:induction false} ClosedOnce(o: Order, rs: seq<Request>)
    requires o.status == Draft
    ensures Closings(o, rs) == (if Run(o, rs).status == Paid then 1 else 0)
  {
    if rs != [] { ClosedOnce(o, rs[..|rs| - 1]); }
  }

  lemma {:induction false} PaymentsStay(o: Order, rs: seq<Request>)
    ensures o.payments <= Run(o, rs).payments
  {
    if rs != [] { PaymentsStay(o, rs[..|rs| - 1]); }
  }

  /** A keyed tender that was taken is answered as a repeat at every later time. */
  lemma RetryIsNoop(o: Order, r: Request, rs: seq<Request>)
    requires Accepted(PayOn(o, r).1) && r.key.Some? && r.key.value != ""
    ensures var later := Run(PayOn(o, r).0, rs); PayOn(later, r) == (later, Repeat)
  {
    var next := PayOn(o, r).0;
    PaymentsStay(next, rs);
    assert next.payments[|o.payments|].key == KeyOf(r);
    assert Run(next, rs).payments[|o.payments|] == next.payments[|o.payments|];
  }

  /** While the total stands still, a started open order owes more than one unit. */
  ghost predicate Owing(o: Order) {
    o.status == Draft && o.payments != [] ==> Outstanding(o) > 1
  }

  function DiscountOf(r: Request): int { if r.discount.Some? then r.discount.value else 0 }

  /** What a caller can see before the call: it will be taken as a tender. */
  predicate WillTake(o: Order, r: Request) {
    && o.status == Draft && !Seen(o.payments, KeyOf(r))
    && r.policyOk && r.creditOk
    && 0 < TenderOf(o, r) <= Outstanding(o) - DiscountOf(r) + 1
  }

  lemma AcceptedExactlyWhen(o: Order, r: Request)
    ensures Accepted(PayOn(o, r).1) <==> WillTake(o, r)
  {
    hide Sum, Seen;
  }

  /** The call is no tender on an open order, or it will be taken, or there is no payment
      yet, or its discount leaves more than one unit. */
  predicate LeavesOwing(o: Order, r: Request) {
    || o.status == Paid || Seen(o.payments, KeyOf(r))
    || WillTake(o, r) || o.payments == [] || Outstanding(o) - DiscountOf(r) > 1
  }

  /** One call keeps an owing order owing exactly under that condition. */
  lemma PayKeepsOwingExactlyWhen(o: Order, r: Request)
    requires Owing(o)
    ensures Owing(PayOn(o, r).0) <==> LeavesOwing(o, r)
  {
    AcceptedExactlyWhen(o, r);
    hide Sum, Seen;
  }

  predicate AllLeaveOwing(o: Order, rs: seq<Request>) {
    rs == [] || (AllLeaveOwing(o, rs[..|rs| - 1]) && LeavesOwing(Run(o, rs[..|rs| - 1]), rs[|rs| - 1]))
  }

  ghost predicate AlwaysOwing(o: Order, rs: seq<Request>) {
    forall n :: 0 <= n <= |rs| ==> Owing(Run(o, rs[..n]))
  }

  /** An order owes more than one unit whenever it is open with payments, all along a run,
      exactly when every call met the condition on its order. */
  lemma {:induction false} OwingExactlyWhen(total: int, rs: seq<Request>)
    ensures AlwaysOwing(Order(total, [], 0, Draft, None), rs) <==> AllLeaveOwing(Order(total, [], 0, Draft, None), rs)
  {
    hide LeavesOwing, Owing, PayOn;
    var start := Order(total, [], 0, Draft, None);
    StartOwes(total);
    if rs == [] {
      assert rs[..0] == [];
    } else {
      var n := |rs| - 1;
      OwingExactlyWhen(total, rs[..n]);
      assert rs[..n + 1] == rs && forall m :: 0 <= m <= n ==> rs[..n][..m] == rs[..m];
      if AlwaysOwing(start, rs[..n]) {
        assert Owing(Run(start, rs[..n]));
        PayKeepsOwingExactlyWhen(Run(start, rs[..n]), rs[n]);
      }
      assert AlwaysOwing(start, rs) <==> AlwaysOwing(start, rs[..n]) && Owing(Run(start, rs)) by {
        AlwaysOwingLast(start, rs);
      }
    }
  }

  lemma AlwaysOwingLast(o: Order, rs: seq<Request>)
    requires rs != []
    ensures AlwaysOwing(o, rs) <==> AlwaysOwing(o, rs[..|rs| - 1]) && Owing(Run(o, rs))
  {
    hide Owing, Run;
    var n := |rs| - 1;
    assert rs[..n + 1] == rs && forall m :: 0 <= m <= n ==> rs[..n][..m] == rs[..m];
    if AlwaysOwing(o, rs) {
      assert Owing(Run(o, rs[..n + 1]));
      forall m | 0 <= m <= n ensures Owing(Run(o, rs[..n][..m])) {
        assert Owing(Run(o, rs[..m]));
      }
    }
    if AlwaysOwing(o, rs[..n]) && Owing(Run(o, rs)) {
      forall m | 0 <= m <= |rs| ensures Owing(Run(o, rs[..m])) {
        if m <= n { assert Owing(Run(o, rs[..n][..m])); }
      }
    }
  }

  lemma StartOwes(total: int)
    ensures Owing(Order(total, [], 0, Draft, None))
    ensures Run(Order(total, [], 0, Draft, None), []) == Order(total, [], 0, Draft, None)
  {
  }

  /** A started order that owes can always be closed by the default tender. */
  lemma StartedOrdersOwe(total: int, rs: seq<Request>)
    requires AllLeaveOwing(Order(total, [], 0, Draft, None), rs)
    ensures var o := Run(Order(total, [], 0, Draft, None), rs);
      && Owing(o)
      && (o.status == Draft && o.payments != [] ==> PayOn(o, Plain(None)).1 == Final)
  {
    hide AllLeaveOwing, PayOn, Run;
    var start := Order(total, [], 0, Draft, None);
    OwingExactlyWhen(total, rs);
    assert rs[..|rs|] == rs;
    assert Owing(Run(start, rs[..|rs|]));
    if Run(start, rs).status == Draft { ClosableExactlyWhen(Run(start, rs)); }
  }

  /** A refused discount can strand the order: 10 owed, 5 paid, a refused call that
      discounts 6 leaves an open order no later tender can close. */
  lemma RefusedDiscountStrandsOrder()
    ensures var half := Request(Some(5), None, None, None, true, true);
      var refused := Request(Some(1), None, Some(6), None, false, true);
      var o := Run(Order(10, [], 0, Draft, None), [half, refused]);
      o.status == Draft && Outstanding(o) == -1
      && forall r: Request :: r.discount.None? ==> !Accepted(PayOn(o, r).1)
  {
    var half := Request(Some(5), None, None, None, true, true);
    var refused := Request(Some(1), None, Some(6), None, false, true);
    assert [half, refused][..1] == [half] && [half][..0] == [];
    var o1 := PayOn(Order(10, [], 0, Draft, None), half).0;
    SumLast([], Payment(5, None));
    assert [] + [Payment(5, None)] == [Payment(5, None)];
    assert o1 == Order(10, [Payment(5, None)], 5, Draft, None);
    assert Run(Order(10, [], 0, Draft, None), [half]) == o1;
  }

  lemma TenderFalls(u: Order, r: Request)
    requires Sound(u) && r.discount.None?
    ensures var v := PayOn(u, r).0;
      && v.total == u.total && Sound(v)
      && (v.payments == u.payments || (|v.payments| == |u.payments| + 1 && Outstanding(v) <= Outstanding(u) - 1))
  {
    PayKeepsSound(u, r);
    if Accepted(PayOn(u, r).1) { SumLast(u.payments, Payment(TenderOf(u, r), KeyOf(r))); }
  }

  /** Each tender taken without a discount lowers what is outstanding by its amount, so a
      payment count is bounded by the amount owed, plus one. */
  lemma {:induction false} OutstandingFalls(o: Order, rs: seq<Request>)
    requires Sound(o)
    requires forall i :: 0 <= i < |rs| ==> rs[i].discount.None?
    ensures var v := Run(o, rs);
      && v.total == o.total && Sound(v)
      && Outstanding(v) + |v.payments| - |o.payments| <= Outstanding(o)
      && (v.payments != o.payments ==> Outstanding(v) < Outstanding(o))
  {
    hide PayOn, Sum, KeysOnce;
    if rs != [] {
      var front, r := rs[..|rs| - 1], rs[|rs| - 1];
      OutstandingFalls(o, front);
      PaymentsStay(o, front);
      TenderFalls(Run(o, front), r);
    }
  }
}
