/** The refund ceilings of `domain/refund.py`: pure integer rules over quantities in
    unit-of-measure units and money in minor units. */
module RefundRules {
  import opened Rounding

  datatype Reason =
    | Ok
    | NonPositive
    | Exceeds
    | LineMissing
    | LineNotInOriginal
    | ProductMismatch
    | QtyInvalid
    | QtyExceedsRemaining
    | CompanyMismatch
    | CurrencyMismatch
    | RefundFailed   // an uncaught ValueError, reported by the route itself

  datatype Verdict = Verdict(ok: bool, reason: Reason, remaining: int)

  function Pow10(digits: nat): (p: int)
    ensures p >= 1
  {
    if digits == 0 then 1 else 10 * Pow10(digits - 1)
  }

  /** The powers of ten: one digit is a factor of 10, and digits add up. */
  lemma {:induction false} PowersOfTen(a: nat, b: nat)
    ensures Pow10(0) == 1 && Pow10(1) == 10 && Pow10(a + b) == Pow10(a) * Pow10(b)
  {
    if a > 0 { PowersOfTen(a - 1, b); }
  }

  function Scaled(x: real, digits: nat): real {
    x * Pow10(digits) as real
  }

  function QtyToUnits(qty: real, digits: nat): int {
    RoundHalfEven(Scaled(qty, digits))
  }

  function ToMinor(amount: real, decimals: nat): int {
    RoundHalfEven(Scaled(amount, decimals))
  }

  function CheckLineQuantity(requested: int, sold: int, already: int): (v: Verdict)
    ensures v.ok <==> requested > 0 && already + requested <= sold
    ensures v.reason.Ok? <==> v.ok
    ensures v.reason.QtyInvalid? <==> requested <= 0
    ensures v.reason.QtyExceedsRemaining? <==> requested > 0 && already + requested > sold
    ensures v.remaining == sold - already
  {
    var remaining := sold - already;
    if requested <= 0 then Verdict(false, QtyInvalid, remaining)
    else if requested > remaining then Verdict(false, QtyExceedsRemaining, remaining)
    else Verdict(true, Ok, remaining)
  }

  function CheckRefund(requested: int, paid: int, already: int): (v: Verdict)
    ensures v.ok <==> requested > 0 && already + requested <= paid
    ensures v.reason.Ok? <==> v.ok
    ensures v.reason.NonPositive? <==> requested <= 0
    ensures v.reason.Exceeds? <==> requested > 0 && already + requested > paid
    ensures v.remaining == paid - already
  {
    var refundable := paid - already;
    if requested <= 0 then Verdict(false, NonPositive, refundable)
    else if requested > refundable then Verdict(false, Exceeds, refundable)
    else Verdict(true, Ok, refundable)
  }

  /** A quantity is on the grid when scaling it gives a whole number of units. */
  predicate OnGrid(qty: real, digits: nat) {
    Scaled(qty, digits) == Scaled(qty, digits).Floor as real
  }

  lemma UnitsOfGridQuantity(qty: real, digits: nat)
    requires OnGrid(qty, digits)
    ensures QtyToUnits(qty, digits) as real == Scaled(qty, digits)
  {
    RoundHalfEvenOfInt(Scaled(qty, digits).Floor);
  }

  lemma ScaledAdds(a: real, b: real, digits: nat)
    ensures Scaled(a + b, digits) == Scaled(a, digits) + Scaled(b, digits)
  {
  }

  /** One accepted check keeps the true total within one and a half units of the
      quantity sold, whatever the three roundings did, and within the quantity sold itself
      when all three are on the grid. */
  lemma AcceptedQuantityBound(requested: real, sold: real, already: real, digits: nat)
    requires CheckLineQuantity(QtyToUnits(requested, digits), QtyToUnits(sold, digits),
                               QtyToUnits(already, digits)).ok
    ensures Scaled(already + requested, digits) <= Scaled(sold, digits) + 1.5
    ensures OnGrid(requested, digits) && OnGrid(sold, digits) && OnGrid(already, digits) ==>
              Scaled(already + requested, digits) <= Scaled(sold, digits)
  {
    if OnGrid(requested, digits) && OnGrid(sold, digits) && OnGrid(already, digits) {
      UnitsOfGridQuantity(requested, digits);
      UnitsOfGridQuantity(sold, digits);
      UnitsOfGridQuantity(already, digits);
    }
    ScaledAdds(already, requested, digits);
  }
}
