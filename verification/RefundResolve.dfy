/** `_resolve_refund_lines`: rebuild a refund of an original order from server data,
    line by line, under both ceilings. */
module RefundResolve {
  import opened Common
  import opened Rounding
  import opened RefundRules

  // ---- data ----------------------------------------------------------------

  datatype OrigLine = OrigLine(
    product: int, qty: real, priceUnit: real, discount: real, taxes: seq<int>,
    subtotal: real, subtotalIncl: real)

  datatype Original = Original(
    lines: map<int, OrigLine>, amountPaid: real,
    currency: int, company: int, decimals: nat, qtyDigits: nat)

  datatype Session = Session(currency: Option<int>, company: Option<int>)

  /** A client-supplied field: missing, unparsable, or a value. */
  datatype Field<+T> = Absent | Malformed | Given(v: T)

  datatype PayloadLine = PayloadLine(lineId: Field<int>, product: Field<int>, qty: Field<real>)

  datatype RefundLine = RefundLine(
    source: int, product: int, qty: real, priceUnit: real, discount: real, taxes: seq<int>,
    subtotal: real, subtotalIncl: real)

  /** A stored refund order; `amountTotal` is its (negative) total in minor units. */
  datatype Refund = Refund(uuid: string, lines: seq<RefundLine>, amountTotal: int, settled: bool)

  datatype Plan = Plan(lines: seq<RefundLine>, total: int)

  function Abs(x: real): (r: real)
    ensures r >= 0.0 && (r == x || r == -x)
  {
    if x < 0.0 then -x else x
  }

  // ---- reading the payload ---------------------------------------------------

  function ReadLine(orig: Original, p: PayloadLine): Result<(int, real), Reason> {
    if !p.lineId.Given? || p.lineId.v == 0 then Failure(LineMissing)
    else if p.lineId.v !in orig.lines then Failure(LineNotInOriginal)
    else
      var ol := orig.lines[p.lineId.v];
      if p.product.Malformed? then Failure(RefundFailed)
      else if p.product.Given? && p.product.v != 0 && p.product.v != ol.product then Failure(ProductMismatch)
      else match p.qty
        case Malformed => Failure(QtyInvalid)
        case Absent => Success((p.lineId.v, Abs(ol.qty)))
        case Given(q) => Success((p.lineId.v, Abs(q)))
  }

  predicate NamesLine(orig: Original, p: PayloadLine) {
    p.lineId.Given? && p.lineId.v != 0 && p.lineId.v in orig.lines
  }

  predicate ProductFits(orig: Original, p: PayloadLine)
    requires NamesLine(orig, p)
  {
    p.product.Absent? || (p.product.Given? && (p.product.v == 0 || p.product.v == orig.lines[p.lineId.v].product))
  }

  /** An entry reads as a quantity of the line it names: the given one or else the whole
      line, without its sign. Each failure has its own reason, the earlier field first. */
  lemma ReadLineMeans(orig: Original, p: PayloadLine)
    ensures ReadLine(orig, p).Success? <==> NamesLine(orig, p) && ProductFits(orig, p) && !p.qty.Malformed?
    ensures ReadLine(orig, p).Success? ==>
      var (lid, q) := ReadLine(orig, p).value;
      && lid == p.lineId.v && q >= 0.0
      && var sent := if p.qty.Given? then p.qty.v else orig.lines[lid].qty;
         q == sent || q == -sent
    ensures ReadLine(orig, p) == Failure(LineMissing) <==> !p.lineId.Given? || p.lineId.v == 0
    ensures ReadLine(orig, p) == Failure(LineNotInOriginal) <==>
      p.lineId.Given? && p.lineId.v != 0 && p.lineId.v !in orig.lines
    ensures ReadLine(orig, p) == Failure(RefundFailed) <==> NamesLine(orig, p) && p.product.Malformed?
    ensures ReadLine(orig, p) == Failure(ProductMismatch) <==>
      NamesLine(orig, p) && !p.product.Malformed? && !ProductFits(orig, p)
    ensures ReadLine(orig, p) == Failure(QtyInvalid) <==>
      NamesLine(orig, p) && ProductFits(orig, p) && p.qty.Malformed?
  {
  }

  /** Requested quantity per source line, keys in order of first appearance. */
  datatype Requests = Requests(order: seq<int>, qty: map<int, real>) {
    ghost predicate Valid() {
      && (forall i, j :: 0 <= i < j < |order| ==> order[i] != order[j])
      && (forall l :: l in order <==> l in qty)
    }

    function Add(lid: int, q: real): Requests {
      if lid in qty then Requests(order, qty[lid := qty[lid] + q])
      else Requests(order + [lid], qty[lid := q])
    }
  }

  function Collect(orig: Original, payload: seq<PayloadLine>): (r: Result<Requests, Reason>)
    ensures r.Success? ==> r.value.Valid()
    ensures r.Success? ==> forall l :: l in r.value.qty ==> l in orig.lines
  {
    if payload == [] then Success(Requests([], map[]))
    else
      var n := |payload| - 1;
      match Collect(orig, payload[..n])
      case Failure(e) => Failure(e)
      case Success(rs) =>
        match ReadLine(orig, payload[n])
        case Failure(e) => Failure(e)
        case Success(lq) => Success(rs.Add(lq.0, lq.1))
  }

  /** The loop that aggregates the payload per source line. */
  method CollectRequests(orig: Original, payload: seq<PayloadLine>) returns (r: Result<Requests, Reason>)
    ensures r == Collect(orig, payload)
  {
    var reqByLine := Requests([], map[]);
    for i := 0 to |payload|
      invariant Collect(orig, payload[..i]) == Success(reqByLine)
    {
      assert payload[..i + 1][..i] == payload[..i];
      match ReadLine(orig, payload[i]) {
        case Failure(e) =>
          CollectFailsEarly(orig, payload, i + 1);
          return Failure(e);
        case Success(lq) =>
          reqByLine := reqByLine.Add(lq.0, lq.1);
      }
    }
    assert payload[..|payload|] == payload;
    r := Success(reqByLine);
  }

  lemma {:induction false} CollectFailsEarly(orig: Original, payload: seq<PayloadLine>, i: nat)
    requires i <= |payload|
    requires Collect(orig, payload[..i]).Failure?
    ensures Collect(orig, payload) == Collect(orig, payload[..i])
    decreases |payload|
  {
    if i == |payload| {
      assert payload[..i] == payload;
    } else {
      var n := |payload| - 1;
      assert payload[..n][..i] == payload[..i];
      CollectFailsEarly(orig, payload[..n], i);
    }
  }

  // ---- what earlier refunds already took -------------------------------------

  function LineQty(lines: seq<RefundLine>, lid: int): real {
    if lines == [] then 0.0
    else LineQty(lines[..|lines| - 1], lid)
         + (if lines[|lines| - 1].source == lid then -lines[|lines| - 1].qty else 0.0)
  }

  function AlreadyQty(history: seq<Refund>, lid: int): real {
    if history == [] then 0.0
    else AlreadyQty(history[..|history| - 1], lid)
         + (if history[|history| - 1].settled then LineQty(history[|history| - 1].lines, lid) else 0.0)
  }

  function AlreadyMinor(history: seq<Refund>): int {
    if history == [] then 0
    else AlreadyMinor(history[..|history| - 1])
         + (if history[|history| - 1].settled then -history[|history| - 1].amountTotal else 0)
  }

  // ---- rebuilding the lines --------------------------------------------------

  function Ratio(ol: OrigLine, q: real): real {
    if ol.qty != 0.0 then q / ol.qty else 0.0
  }

  /** The part of `amount` that `q` units of the line stand for. */
  function Share(ol: OrigLine, amount: real, q: real): real {
    Abs(amount) * Ratio(ol, q)
  }

  function RebuildLine(ol: OrigLine, lid: int, q: real): RefundLine {
    RefundLine(lid, ol.product, -q, ol.priceUnit, ol.discount, ol.taxes,
               -Share(ol, ol.subtotal, q), -Share(ol, ol.subtotalIncl, q))
  }

  function CheckLine(orig: Original, history: seq<Refund>, lid: int, q: real): Verdict
    requires lid in orig.lines
  {
    CheckLineQuantity(QtyToUnits(q, orig.qtyDigits),
                      QtyToUnits(orig.lines[lid].qty, orig.qtyDigits),
                      QtyToUnits(AlreadyQty(history, lid), orig.qtyDigits))
  }

  function Total(lines: seq<RefundLine>): real {
    if lines == [] then 0.0 else Total(lines[..|lines| - 1]) + lines[|lines| - 1].subtotalIncl
  }

  ghost predicate Known(orig: Original, rs: Requests) {
    rs.Valid() && forall l :: l in rs.qty ==> l in orig.lines
  }

  /** The first `n` requested lines, checked and rebuilt in order. */
  function Rebuild(orig: Original, history: seq<Refund>, rs: Requests, n: nat): (r: Result<seq<RefundLine>, Reason>)
    requires Known(orig, rs) && n <= |rs.order|
    ensures r.Success? <==> forall i :: 0 <= i < n ==> CheckLine(orig, history, rs.order[i], rs.qty[rs.order[i]]).ok
    ensures r.Success? ==> |r.value| == n
    ensures r.Success? ==> forall i :: 0 <= i < n ==>
              r.value[i] == RebuildLine(orig.lines[rs.order[i]], rs.order[i], rs.qty[rs.order[i]])
  {
    if n == 0 then Success([])
    else
      match Rebuild(orig, history, rs, n - 1)
      case Failure(e) => Failure(e)
      case Success(done) =>
        var lid := rs.order[n - 1];
        var v := CheckLine(orig, history, lid, rs.qty[lid]);
        if !v.ok then Failure(v.reason)
        else Success(done + [RebuildLine(orig.lines[lid], lid, rs.qty[lid])])
  }

  /** The two checks that come before the lock. */
  function SessionError(orig: Original, s: Session): Option<Reason> {
    if s.currency.Some? && s.currency.value != orig.currency then Some(CurrencyMismatch)
    else if s.company.Some? && s.company.value != orig.company then Some(CompanyMismatch)
    else None
  }

  /** The money ceiling over the rebuilt lines. */
  function Settle(orig: Original, history: seq<Refund>, lines: seq<RefundLine>, total: real): Result<Plan, Reason> {
    var requested := ToMinor(-total, orig.decimals);
    var v := CheckRefund(requested, ToMinor(orig.amountPaid, orig.decimals), AlreadyMinor(history));
    if v.ok then Success(Plan(lines, RoundHalfEven(Scaled(total, orig.decimals)))) else Failure(v.reason)
  }

  /** The whole resolution, in the order the route performs its checks. */
  function Resolve(orig: Original, history: seq<Refund>, s: Session, payload: seq<PayloadLine>): Result<Plan, Reason> {
    if SessionError(orig, s).Some? then Failure(SessionError(orig, s).value)
    else if payload == [] then Failure(LineMissing)
    else match Collect(orig, payload)
      case Failure(e) => Failure(e)
      case Success(rs) =>
        match Rebuild(orig, history, rs, |rs.order|)
        case Failure(e) => Failure(e)
        case Success(lines) => Settle(orig, history, lines, Total(lines))
  }

  method ResolveRefundLines(orig: Original, history: seq<Refund>, s: Session, payload: seq<PayloadLine>)
    returns (r: Result<Plan, Reason>)
    ensures r == Resolve(orig, history, s, payload)
  {
    hide Collect, Rebuild, Settle, Total;
    if s.currency.Some? && s.currency.value != orig.currency { return Failure(CurrencyMismatch); }
    if s.company.Some? && s.company.value != orig.company { return Failure(CompanyMismatch); }
    if payload == [] { return Failure(LineMissing); }
    var collected := CollectRequests(orig, payload);
    if collected.Failure? { return Failure(collected.error); }
    var rebuilt, total := RebuildLines(orig, history, collected.value);
    if rebuilt.Failure? { return Failure(rebuilt.error); }
    r := SettleRefund(orig, history, rebuilt.value, total);
  }

  method SettleRefund(orig: Original, history: seq<Refund>, lines: seq<RefundLine>, total: real)
      returns (r: Result<Plan, Reason>)
    ensures r == Settle(orig, history, lines, total)
  {
    hide ToMinor, RoundHalfEven, Scaled, AlreadyMinor;
    var requested := ToMinor(-total, orig.decimals);
    var v := CheckRefund(requested, ToMinor(orig.amountPaid, orig.decimals), AlreadyMinor(history));
    if !v.ok { return Failure(v.reason); }
    r := Success(Plan(lines, RoundHalfEven(Scaled(total, orig.decimals))));
  }

  /** The loop that checks and rebuilds each requested line and adds up the total. */
  method RebuildLines(orig: Original, history: seq<Refund>, rs: Requests)
      returns (r: Result<seq<RefundLine>, Reason>, total: real)
    requires Known(orig, rs)
    ensures r == Rebuild(orig, history, rs, |rs.order|)
    ensures r.Success? ==> total == Total(r.value)
  {
    hide CheckLine, RebuildLine, Total;
    var lines: seq<RefundLine> := [];
    total := 0.0;
    TotalNone();
    for i := 0 to |rs.order|
      invariant Rebuild(orig, history, rs, i) == Success(lines)
      invariant total == Total(lines)
    {
      var lid := rs.order[i];
      var v := CheckLine(orig, history, lid, rs.qty[lid]);
      if !v.ok {
        RebuildFailsEarly(orig, history, rs, i + 1, |rs.order|);
        return Failure(v.reason), total;
      }
      var line := RebuildLine(orig.lines[lid], lid, rs.qty[lid]);
      TotalLast(lines, line);
      total := total + line.subtotalIncl;
      lines := lines + [line];
    }
    r := Success(lines);
  }

  lemma TotalNone()
    ensures Total([]) == 0.0
  {
  }

  lemma TotalLast(lines: seq<RefundLine>, line: RefundLine)
    ensures Total(lines + [line]) == Total(lines) + line.subtotalIncl
  {
    assert (lines + [line])[..|lines|] == lines;
  }

  lemma {:induction false} RebuildFailsEarly(orig: Original, history: seq<Refund>, rs: Requests, i: nat, n: nat)
    requires Known(orig, rs) && i <= n <= |rs.order|
    requires Rebuild(orig, history, rs, i).Failure?
    ensures Rebuild(orig, history, rs, n) == Rebuild(orig, history, rs, i)
    decreases n
  {
    hide CheckLine, RebuildLine;
    if i < n { RebuildFailsEarly(orig, history, rs, i, n - 1); }
  }

  // ---- what the payload asks for, stated without the aggregation -------------

  ghost predicate AllReadable(orig: Original, payload: seq<PayloadLine>) {
    forall i :: 0 <= i < |payload| ==> ReadLine(orig, payload[i]).Success?
  }

  /** Quantity the payload asks for on one source line, duplicates added up. */
  ghost function Asked(orig: Original, payload: seq<PayloadLine>, lid: int): real
    requires AllReadable(orig, payload)
  {
    if payload == [] then 0.0
    else
      var n := |payload| - 1;
      var lq := ReadLine(orig, payload[n]).value;
      Asked(orig, payload[..n], lid) + (if lq.0 == lid then lq.1 else 0.0)
  }

  /** Money the payload is worth: every entry's proportion of what its line cost. */
  ghost function Worth(orig: Original, payload: seq<PayloadLine>): real
    requires AllReadable(orig, payload)
  {
    if payload == [] then 0.0
    else
      var n := |payload| - 1;
      var lq := ReadLine(orig, payload[n]).value;
      var ol := orig.lines[lq.0];
      Worth(orig, payload[..n]) + Share(ol, ol.subtotalIncl, lq.1)
  }

  ghost predicate Mentions(orig: Original, payload: seq<PayloadLine>, lid: int)
    requires AllReadable(orig, payload)
  {
    exists i :: 0 <= i < |payload| && ReadLine(orig, payload[i]).value.0 == lid
  }

  /** Aggregation succeeds exactly on readable payloads, and it adds up duplicates. */
  lemma {:induction false} CollectMeans(orig: Original, payload: seq<PayloadLine>)
    ensures Collect(orig, payload).Success? <==> AllReadable(orig, payload)
    ensures AllReadable(orig, payload) ==>
              forall l :: (l in Collect(orig, payload).value.qty <==> Mentions(orig, payload, l))
    ensures AllReadable(orig, payload) ==>
              forall l :: l in Collect(orig, payload).value.qty ==>
                Collect(orig, payload).value.qty[l] == Asked(orig, payload, l)
    ensures AllReadable(orig, payload) ==> forall l :: !Mentions(orig, payload, l) ==> Asked(orig, payload, l) == 0.0
  {
    hide ReadLine;
    if payload != [] {
      var n := |payload| - 1;
      var front := payload[..n];
      CollectMeans(orig, front);
      assert AllReadable(orig, payload) <==> AllReadable(orig, front) && ReadLine(orig, payload[n]).Success? by {
        assert forall i :: 0 <= i < n ==> front[i] == payload[i];
      }
      if AllReadable(orig, payload) {
        forall l ensures Mentions(orig, payload, l) <==>
                         Mentions(orig, front, l) || ReadLine(orig, payload[n]).value.0 == l
        {
          if Mentions(orig, front, l) {
            var i :| 0 <= i < n && ReadLine(orig, front[i]).value.0 == l;
            assert payload[i] == front[i];
          }
          if Mentions(orig, payload, l) {
            var i :| 0 <= i <= n && ReadLine(orig, payload[i]).value.0 == l;
            if i < n { assert front[i] == payload[i]; }
          }
        }
      }
    }
  }

  /** The rebuilt total of a set of requests, line by line. */
  ghost function Value(orig: Original, rs: Requests, n: nat): real
    requires Known(orig, rs) && n <= |rs.order|
  {
    if n == 0 then 0.0
    else
      var lid := rs.order[n - 1];
      Value(orig, rs, n - 1) + Share(orig.lines[lid], orig.lines[lid].subtotalIncl, rs.qty[lid])
  }

  lemma ShareAdds(ol: OrigLine, amount: real, a: real, b: real)
    ensures Share(ol, amount, a + b) == Share(ol, amount, a) + Share(ol, amount, b)
  {
    assert Ratio(ol, a + b) == Ratio(ol, a) + Ratio(ol, b);
  }

  lemma {:induction false} ValueAfterAdd(orig: Original, rs: Requests, lid: int, q: real, n: nat)
    requires Known(orig, rs) && lid in orig.lines && n <= |rs.order|
    requires Known(orig, rs.Add(lid, q))
    ensures Value(orig, rs.Add(lid, q), n)
            == Value(orig, rs, n)
               + (if lid in rs.order[..n] then Share(orig.lines[lid], orig.lines[lid].subtotalIncl, q) else 0.0)
  {
    hide Share;
    if n > 0 {
      ValueAfterAdd(orig, rs, lid, q, n - 1);
      assert rs.order[..n] == rs.order[..n - 1] + [rs.order[n - 1]];
      assert rs.Add(lid, q).order[n - 1] == rs.order[n - 1];
      if rs.order[n - 1] == lid {
        ShareAdds(orig.lines[lid], orig.lines[lid].subtotalIncl, rs.qty[lid], q);
      }
    }
  }

  lemma {:induction false} CollectedValueIsWorth(orig: Original, payload: seq<PayloadLine>)
    requires AllReadable(orig, payload)
    ensures Collect(orig, payload).Success?
    ensures Value(orig, Collect(orig, payload).value, |Collect(orig, payload).value.order|) == Worth(orig, payload)
  {
    hide Share;
    CollectMeans(orig, payload);
    if payload != [] {
      var n := |payload| - 1;
      var front := payload[..n];
      assert AllReadable(orig, front) by {
        assert forall i :: 0 <= i < n ==> front[i] == payload[i];
      }
      CollectedValueIsWorth(orig, front);
      var rs := Collect(orig, front).value;
      var lq := ReadLine(orig, payload[n]).value;
      ValueAfterAdd(orig, rs, lq.0, lq.1, |rs.order|);
      assert rs.order[..|rs.order|] == rs.order;
    }
  }

  lemma {:induction false} TotalIsValue(orig: Original, history: seq<Refund>, rs: Requests, n: nat)
    requires Known(orig, rs) && n <= |rs.order|
    requires Rebuild(orig, history, rs, n).Success?
    ensures Total(Rebuild(orig, history, rs, n).value) == -Value(orig, rs, n)
  {
    if n > 0 {
      TotalIsValue(orig, history, rs, n - 1);
      var lines := Rebuild(orig, history, rs, n).value;
      assert lines[..n - 1] == Rebuild(orig, history, rs, n - 1).value;
    }
  }

  /** Every line the payload names stays within what is left of it. */
  ghost predicate LinesWithin(orig: Original, history: seq<Refund>, payload: seq<PayloadLine>)
    requires AllReadable(orig, payload)
  {
    forall l :: l in orig.lines && Mentions(orig, payload, l) ==>
      var req := QtyToUnits(Asked(orig, payload, l), orig.qtyDigits);
      && 0 < req
      && QtyToUnits(AlreadyQty(history, l), orig.qtyDigits) + req <= QtyToUnits(orig.lines[l].qty, orig.qtyDigits)
  }

  /** The amount is positive and stays within what is left of the money. */
  ghost predicate MoneyWithin(orig: Original, history: seq<Refund>, worth: real) {
    && 0 < ToMinor(worth, orig.decimals)
    && AlreadyMinor(history) + ToMinor(worth, orig.decimals) <= ToMinor(orig.amountPaid, orig.decimals)
  }

  /** What a resolution accepts, without naming its steps. */
  ghost predicate Acceptable(orig: Original, history: seq<Refund>, s: Session, payload: seq<PayloadLine>) {
    && (s.currency.Some? ==> s.currency.value == orig.currency)
    && (s.company.Some? ==> s.company.value == orig.company)
    && payload != []
    && AllReadable(orig, payload)
    && LinesWithin(orig, history, payload)
    && MoneyWithin(orig, history, Worth(orig, payload))
  }

  lemma MinorOfNegated(total: real, decimals: nat)
    ensures RoundHalfEven(Scaled(total, decimals)) == -ToMinor(-total, decimals)
  {
    assert Scaled(total, decimals) == -Scaled(-total, decimals);
    RoundHalfEvenNegates(Scaled(-total, decimals));
  }

  lemma RebuildSucceedsWhen(orig: Original, history: seq<Refund>, rs: Requests)
    requires Known(orig, rs)
    ensures Rebuild(orig, history, rs, |rs.order|).Success?
            <==> forall l :: l in rs.qty ==> CheckLine(orig, history, l, rs.qty[l]).ok
  {
    hide CheckLine;
    if Rebuild(orig, history, rs, |rs.order|).Success? {
      forall l | l in rs.qty ensures CheckLine(orig, history, l, rs.qty[l]).ok {
        var i :| 0 <= i < |rs.order| && rs.order[i] == l;
      }
    }
  }

  lemma LinesAccept(orig: Original, history: seq<Refund>, payload: seq<PayloadLine>)
    requires AllReadable(orig, payload)
    ensures Collect(orig, payload).Success?
    ensures var rs := Collect(orig, payload).value;
      Rebuild(orig, history, rs, |rs.order|).Success? <==> LinesWithin(orig, history, payload)
  {
    hide Collect, Rebuild, AllReadable, Mentions, Asked, QtyToUnits, AlreadyQty;
    CollectMeans(orig, payload);
    RebuildSucceedsWhen(orig, history, Collect(orig, payload).value);
  }

  lemma SettleAccepts(orig: Original, history: seq<Refund>, lines: seq<RefundLine>, worth: real)
    ensures Settle(orig, history, lines, -worth).Success? <==> MoneyWithin(orig, history, worth)
    ensures MoneyWithin(orig, history, worth) ==>
      Settle(orig, history, lines, -worth) == Success(Plan(lines, -ToMinor(worth, orig.decimals)))
  {
    MinorOfNegated(-worth, orig.decimals);
    hide ToMinor, RoundHalfEven, Scaled, AlreadyMinor;
  }

  lemma RebuiltTotal(orig: Original, history: seq<Refund>, payload: seq<PayloadLine>)
    requires AllReadable(orig, payload) && Collect(orig, payload).Success?
    requires var rs := Collect(orig, payload).value; Rebuild(orig, history, rs, |rs.order|).Success?
    ensures var rs := Collect(orig, payload).value;
      Total(Rebuild(orig, history, rs, |rs.order|).value) == -Worth(orig, payload)
  {
    hide Collect, Rebuild, AllReadable, Total, Worth;
    CollectedValueIsWorth(orig, payload);
    var rs := Collect(orig, payload).value;
    TotalIsValue(orig, history, rs, |rs.order|);
  }

  /** A refund is accepted exactly when it is acceptable, and then its total is the
      proportional worth of the payload, rounded once. */
  lemma ResolveAccepts(orig: Original, history: seq<Refund>, s: Session, payload: seq<PayloadLine>)
    ensures Resolve(orig, history, s, payload).Success? <==> Acceptable(orig, history, s, payload)
    ensures Acceptable(orig, history, s, payload) ==>
              Resolve(orig, history, s, payload).value.total == -ToMinor(Worth(orig, payload), orig.decimals)
  {
    hide Collect, Rebuild, AllReadable, LinesWithin, MoneyWithin, Settle, Total, Worth, ToMinor;
    CollectReadable(orig, payload);
    if AllReadable(orig, payload) {
      LinesAccept(orig, history, payload);
      var rs := Collect(orig, payload).value;
      var rebuilt := Rebuild(orig, history, rs, |rs.order|);
      if rebuilt.Success? {
        RebuiltTotal(orig, history, payload);
        SettleAccepts(orig, history, rebuilt.value, Worth(orig, payload));
      }
    }
  }

  lemma CollectReadable(orig: Original, payload: seq<PayloadLine>)
    ensures Collect(orig, payload).Success? <==> AllReadable(orig, payload)
  {
    CollectMeans(orig, payload);
    hide Collect, AllReadable;
  }

  // ---- every stored refund is a faithful negative of original lines ----------

  /** `part` is to `whole` as `q` is to the line's quantity; nothing of a line without one. */
  ghost predicate Proportional(ol: OrigLine, whole: real, q: real, part: real) {
    if ol.qty != 0.0 then part * ol.qty == Abs(whole) * q else part == 0.0
  }

  /** A stored refund line books its original line's product, price, discount and taxes, and
      of its two subtotals what is proportional to the quantity taken back. */
  ghost predicate Faithful(orig: Original, rl: RefundLine) {
    && rl.source in orig.lines
    && rl.qty <= 0.0
    && var ol := orig.lines[rl.source];
       && rl.product == ol.product && rl.priceUnit == ol.priceUnit
       && rl.discount == ol.discount && rl.taxes == ol.taxes
       && Proportional(ol, ol.subtotal, rl.qty, rl.subtotal)
       && Proportional(ol, ol.subtotalIncl, rl.qty, rl.subtotalIncl)
  }

  lemma ShareIsProportional(ol: OrigLine, whole: real, q: real)
    ensures Proportional(ol, whole, -q, -Share(ol, whole, q))
  {
    if ol.qty != 0.0 {
      assert q / ol.qty * ol.qty == q;
      assert Share(ol, whole, q) * ol.qty == Abs(whole) * (q / ol.qty * ol.qty);
    }
  }

  lemma ProportionalIsShare(ol: OrigLine, whole: real, q: real, part: real)
    requires Proportional(ol, whole, -q, part)
    ensures part == -Share(ol, whole, q)
  {
    ShareIsProportional(ol, whole, q);
    if ol.qty != 0.0 { CancelFactor(part, -Share(ol, whole, q), ol.qty); }
  }

  lemma CancelFactor(a: real, b: real, c: real)
    requires c != 0.0 && a * c == b * c
    ensures a == b
  {
    assert a == a * c / c && b == b * c / c;
  }

  lemma RebuiltLineIsFaithful(orig: Original, lid: int, q: real)
    requires lid in orig.lines && q >= 0.0
    ensures Faithful(orig, RebuildLine(orig.lines[lid], lid, q))
  {
    hide Proportional, Share;
    ShareIsProportional(orig.lines[lid], orig.lines[lid].subtotal, q);
    ShareIsProportional(orig.lines[lid], orig.lines[lid].subtotalIncl, q);
  }

  ghost predicate FaithfulPlan(orig: Original, lines: seq<RefundLine>, total: int) {
    && (forall i :: 0 <= i < |lines| ==> Faithful(orig, lines[i]))
    && (forall i, j :: 0 <= i < j < |lines| ==> lines[i].source != lines[j].source)
    && total == -ToMinor(-Total(lines), orig.decimals)
    && total < 0
  }

  lemma {:induction false} AskedNonNegative(orig: Original, payload: seq<PayloadLine>, lid: int)
    requires AllReadable(orig, payload)
    ensures Asked(orig, payload, lid) >= 0.0
  {
    if payload != [] {
      var n := |payload| - 1;
      assert AllReadable(orig, payload[..n]) by {
        assert forall i :: 0 <= i < n ==> payload[..n][i] == payload[i];
      }
      AskedNonNegative(orig, payload[..n], lid);
    }
  }

  /** Every accepted plan links each line to a distinct line of this original and
      copies that line's server-side economics, whatever the client sent. */
  lemma ResolvedIsFaithful(orig: Original, history: seq<Refund>, s: Session, payload: seq<PayloadLine>)
    requires Resolve(orig, history, s, payload).Success?
    ensures var plan := Resolve(orig, history, s, payload).value;
            FaithfulPlan(orig, plan.lines, plan.total)
  {
    hide Resolve, Settle, Rebuild, Collect, Total, AllReadable, FaithfulPlan, Faithful, ToMinor, RoundHalfEven, Scaled;
    ResolvedStages(orig, history, s, payload);
    var plan := Resolve(orig, history, s, payload).value;
    SettledTotal(orig, history, plan.lines, plan);
    RebuiltIsFaithful(orig, history, payload);
    PlanFromParts(orig, plan);
  }

  lemma ResolvedStages(orig: Original, history: seq<Refund>, s: Session, payload: seq<PayloadLine>)
    requires Resolve(orig, history, s, payload).Success?
    ensures AllReadable(orig, payload) && Collect(orig, payload).Success?
    ensures var plan := Resolve(orig, history, s, payload).value; var rs := Collect(orig, payload).value;
      && Settle(orig, history, plan.lines, Total(plan.lines)) == Success(plan)
      && Rebuild(orig, history, rs, |rs.order|) == Success(plan.lines)
  {
    hide Collect, Rebuild, AllReadable, Total, ToMinor, RoundHalfEven, Scaled;
    CollectReadable(orig, payload);
  }

  lemma SettledTotal(orig: Original, history: seq<Refund>, lines: seq<RefundLine>, plan: Plan)
    requires Settle(orig, history, lines, Total(lines)) == Success(plan)
    ensures plan.lines == lines && plan.total == -ToMinor(-Total(lines), orig.decimals) && plan.total < 0
  {
    MinorOfNegated(Total(lines), orig.decimals);
    hide ToMinor, RoundHalfEven, Scaled, AlreadyMinor, Total;
  }

  lemma RebuiltIsFaithful(orig: Original, history: seq<Refund>, payload: seq<PayloadLine>)
    requires AllReadable(orig, payload) && Collect(orig, payload).Success?
    requires var rs := Collect(orig, payload).value; Rebuild(orig, history, rs, |rs.order|).Success?
    ensures var rs := Collect(orig, payload).value; var lines := Rebuild(orig, history, rs, |rs.order|).value;
      && (forall i :: 0 <= i < |lines| ==> Faithful(orig, lines[i]))
      && (forall i, j :: 0 <= i < j < |lines| ==> lines[i].source != lines[j].source)
  {
    hide Collect, Rebuild, AllReadable, Asked, CheckLine, Faithful;
    CollectMeans(orig, payload);
    var rs := Collect(orig, payload).value;
    var lines := Rebuild(orig, history, rs, |rs.order|).value;
    forall i | 0 <= i < |lines| ensures Faithful(orig, lines[i]) {
      AskedNonNegative(orig, payload, rs.order[i]);
      RebuiltLineIsFaithful(orig, rs.order[i], rs.qty[rs.order[i]]);
    }
    RebuiltSources(orig, history, rs);
  }

  lemma RebuiltSources(orig: Original, history: seq<Refund>, rs: Requests)
    requires Known(orig, rs) && Rebuild(orig, history, rs, |rs.order|).Success?
    ensures var lines := Rebuild(orig, history, rs, |rs.order|).value;
      && |lines| == |rs.order|
      && forall i :: 0 <= i < |lines| ==> lines[i].source == rs.order[i] && lines[i].qty == -rs.qty[rs.order[i]]
  {
    hide CheckLine, Rebuild, Share;
  }

  /** An accepted plan has exactly one line for each source line the payload names, taking
      back the sum of what it asked for there. */
  lemma PlanTakesBackWhatWasAsked(orig: Original, history: seq<Refund>, s: Session, payload: seq<PayloadLine>)
    requires Resolve(orig, history, s, payload).Success?
    ensures AllReadable(orig, payload)
    ensures var lines := Resolve(orig, history, s, payload).value.lines;
      && (forall i :: 0 <= i < |lines| ==>
            Mentions(orig, payload, lines[i].source) && lines[i].qty == -Asked(orig, payload, lines[i].source))
      && (forall l :: Mentions(orig, payload, l) ==> exists i :: 0 <= i < |lines| && lines[i].source == l)
  {
    hide Resolve, Settle, Rebuild, Collect, Total, AllReadable, Mentions, Asked;
    ResolvedStages(orig, history, s, payload);
    CollectMeans(orig, payload);
    var rs := Collect(orig, payload).value;
    RebuiltSources(orig, history, rs);
    var lines := Resolve(orig, history, s, payload).value.lines;
    forall l | Mentions(orig, payload, l) ensures exists i :: 0 <= i < |lines| && lines[i].source == l {
      var i :| 0 <= i < |rs.order| && rs.order[i] == l;
      assert lines[i].source == l;
    }
  }

  // ---- why a refund is refused ------------------------------------------------------

  /** The first entry that cannot be read. */
  ghost predicate FirstUnreadable(orig: Original, payload: seq<PayloadLine>, i: nat) {
    && i < |payload| && ReadLine(orig, payload[i]).Failure?
    && forall j :: 0 <= j < i ==> ReadLine(orig, payload[j]).Success?
  }

  lemma {:induction false} CollectReason(orig: Original, payload: seq<PayloadLine>) returns (i: nat)
    requires Collect(orig, payload).Failure?
    ensures FirstUnreadable(orig, payload, i) && Collect(orig, payload).error == ReadLine(orig, payload[i]).error
  {
    hide ReadLine;
    var n := |payload| - 1;
    if Collect(orig, payload[..n]).Failure? {
      i := CollectReason(orig, payload[..n]);
    } else {
      i := n;
      CollectReadable(orig, payload[..n]);
    }
  }

  lemma {:induction false} RebuildReason(orig: Original, history: seq<Refund>, rs: Requests, n: nat) returns (i: nat)
    requires Known(orig, rs) && n <= |rs.order| && Rebuild(orig, history, rs, n).Failure?
    ensures i < n && !CheckLine(orig, history, rs.order[i], rs.qty[rs.order[i]]).ok
    ensures Rebuild(orig, history, rs, n).error == CheckLine(orig, history, rs.order[i], rs.qty[rs.order[i]]).reason
  {
    hide CheckLine, RebuildLine;
    if Rebuild(orig, history, rs, n - 1).Failure? {
      i := RebuildReason(orig, history, rs, n - 1);
    } else {
      i := n - 1;
    }
  }

  /** A line of which too little or too much is asked, and the reason that goes with it. */
  ghost predicate LineRefused(orig: Original, history: seq<Refund>, payload: seq<PayloadLine>, l: int, why: Reason)
    requires AllReadable(orig, payload)
  {
    && l in orig.lines && Mentions(orig, payload, l)
    && var req := QtyToUnits(Asked(orig, payload, l), orig.qtyDigits);
       var left := QtyToUnits(orig.lines[l].qty, orig.qtyDigits) - QtyToUnits(AlreadyQty(history, l), orig.qtyDigits);
       if req <= 0 then why == QtyInvalid else req > left && why == QtyExceedsRemaining
  }

  lemma LineReason(orig: Original, history: seq<Refund>, payload: seq<PayloadLine>) returns (l: int)
    requires AllReadable(orig, payload) && Collect(orig, payload).Success?
    requires var rs := Collect(orig, payload).value; Rebuild(orig, history, rs, |rs.order|).Failure?
    ensures var rs := Collect(orig, payload).value;
      LineRefused(orig, history, payload, l, Rebuild(orig, history, rs, |rs.order|).error)
  {
    hide Collect, Rebuild, AllReadable, Mentions, Asked, QtyToUnits, AlreadyQty;
    CollectMeans(orig, payload);
    var rs := Collect(orig, payload).value;
    var i := RebuildReason(orig, history, rs, |rs.order|);
    l := rs.order[i];
  }

  lemma MoneyReason(orig: Original, history: seq<Refund>, lines: seq<RefundLine>, worth: real)
    ensures Settle(orig, history, lines, -worth).Failure? ==>
      Settle(orig, history, lines, -worth)
      == Failure(if ToMinor(worth, orig.decimals) <= 0 then NonPositive else Exceeds)
  {
    hide ToMinor, RoundHalfEven, Scaled, AlreadyMinor;
  }

  /** Why a refund is refused, the checks in their order: currency, company, no entry, the
      first entry that cannot be read, a line, the money. */
  lemma ResolveReasons(orig: Original, history: seq<Refund>, s: Session, payload: seq<PayloadLine>)
    ensures var r := Resolve(orig, history, s, payload);
      if s.currency.Some? && s.currency.value != orig.currency then r == Failure(CurrencyMismatch)
      else if s.company.Some? && s.company.value != orig.company then r == Failure(CompanyMismatch)
      else if payload == [] then r == Failure(LineMissing)
      else if !AllReadable(orig, payload) then
        exists i: nat :: FirstUnreadable(orig, payload, i) && r == Failure(ReadLine(orig, payload[i]).error)
      else if !LinesWithin(orig, history, payload) then
        r.Failure? && exists l :: LineRefused(orig, history, payload, l, r.error)
      else if !MoneyWithin(orig, history, Worth(orig, payload)) then
        r == Failure(if ToMinor(Worth(orig, payload), orig.decimals) <= 0 then NonPositive else Exceeds)
      else r.Success?
  {
    hide Collect, Rebuild, AllReadable, LinesWithin, MoneyWithin, Settle, Total, Worth, ToMinor, ReadLine;
    hide FirstUnreadable, LineRefused;
    CollectReadable(orig, payload);
    if !AllReadable(orig, payload) {
      var i := CollectReason(orig, payload);
    } else {
      LinesAccept(orig, history, payload);
      var rs := Collect(orig, payload).value;
      var rebuilt := Rebuild(orig, history, rs, |rs.order|);
      if rebuilt.Failure? {
        var l := LineReason(orig, history, payload);
      } else {
        RebuiltTotal(orig, history, payload);
        SettleAccepts(orig, history, rebuilt.value, Worth(orig, payload));
        MoneyReason(orig, history, rebuilt.value, Worth(orig, payload));
      }
    }
  }

  lemma PlanFromParts(orig: Original, plan: Plan)
    requires forall i :: 0 <= i < |plan.lines| ==> Faithful(orig, plan.lines[i])
    requires forall i, j :: 0 <= i < j < |plan.lines| ==> plan.lines[i].source != plan.lines[j].source
    requires plan.total == -ToMinor(-Total(plan.lines), orig.decimals) && plan.total < 0
    ensures FaithfulPlan(orig, plan.lines, plan.total)
  {
  }
}
