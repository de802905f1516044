/** Two loops in which the last item absorbs the rounding of the others: the child prices
    of a combo, and the payments of a split bill. Amounts are real numbers counted in the
    smallest unit of their grid. */
module Drift {
  import opened Common
  import opened Rounding

  function Sum(xs: seq<real>): real {
    if xs == [] then 0.0 else Sum(xs[..|xs| - 1]) + xs[|xs| - 1]
  }

  lemma SumNone()
    ensures Sum([]) == 0.0
  {
  }

  lemma SumLast(xs: seq<real>, x: real)
    ensures Sum(xs + [x]) == Sum(xs) + x
  {
    assert (xs + [x])[..|xs|] == xs;
  }

  // ---- combos ------------------------------------------------------------------------------

  /** The chosen item of one group: the group's base price and the item's surcharge. */
  datatype Pick = Pick(base: real, extra: real)

  function Bases(chosen: seq<Pick>): real {
    if chosen == [] then 0.0 else Bases(chosen[..|chosen| - 1]) + chosen[|chosen| - 1].base
  }

  function Extras(chosen: seq<Pick>): real {
    if chosen == [] then 0.0 else Extras(chosen[..|chosen| - 1]) + chosen[|chosen| - 1].extra
  }

  /** A group's unrounded part of the list price. */
  function Share(base: real, list: real, total: real): real {
    if total == 0.0 then 0.0 else base * list / total
  }

  /** The part of the price is to the price as the base is to all bases; bases and
      surcharges are plain sums. */
  lemma ShareMeans(front: seq<Pick>, p: Pick, list: real, total: real)
    ensures total != 0.0 ==> Share(p.base, list, total) * total == p.base * list
    ensures Bases([]) == 0.0 && Bases(front + [p]) == Bases(front) + p.base
    ensures Extras([]) == 0.0 && Extras(front + [p]) == Extras(front) + p.extra
  {
    assert (front + [p])[..|front|] == front;
  }

  /** The list price not yet given away after the first children were rounded. */
  function Unspent(chosen: seq<Pick>, list: real, total: real): real {
    if chosen == [] then list
    else
      Unspent(chosen[..|chosen| - 1], list, total)
      - RoundHalfUp(Share(chosen[|chosen| - 1].base, list, total)) as real
  }

  lemma ShareDistributes(a: real, b: real, list: real, total: real)
    requires total != 0.0
    ensures Share(a, list, total) + Share(b, list, total) == Share(a + b, list, total)
  {
    assert a * list / total + b * list / total == (a * list + b * list) / total;
  }

  /** Rounding `n` children leaves their part of the price off by at most n/2. */
  lemma {:induction false} UnspentBound(chosen: seq<Pick>, list: real, total: real)
    requires total != 0.0
    ensures var d := Unspent(chosen, list, total) - (list - Share(Bases(chosen), list, total));
      -(|chosen| as real) / 2.0 <= d <= (|chosen| as real) / 2.0
  {
    if chosen != [] {
      var n := |chosen| - 1;
      UnspentBound(chosen[..n], list, total);
      ShareDistributes(Bases(chosen[..n]), chosen[n].base, list, total);
      hide Share;
    }
  }

  lemma WholeShare(list: real, total: real)
    requires total != 0.0
    ensures Share(total, list, total) == list
  {
  }

  lemma LastShare(chosen: seq<Pick>, list: real)
    requires chosen != [] && Bases(chosen) != 0.0
    ensures var n := |chosen| - 1; var total := Bases(chosen);
      var d := Unspent(chosen[..n], list, total) - Share(chosen[n].base, list, total);
      -(n as real) / 2.0 <= d <= (n as real) / 2.0
  {
    var n, total := |chosen| - 1, Bases(chosen);
    UnspentBound(chosen[..n], list, total);
    ShareDistributes(Bases(chosen[..n]), chosen[n].base, list, total);
    WholeShare(list, total);
    hide Share;
  }

  method SumBases(chosen: seq<Pick>) returns (total: real)
    ensures total == Bases(chosen)
  {
    total := 0.0;
    for n := 0 to |chosen|
      invariant total == Bases(chosen[..n])
    {
      assert chosen[..n + 1][..n] == chosen[..n];
      total := total + chosen[n].base;
    }
    assert chosen[..|chosen|] == chosen;
  }

  /** Every child but the last at its rounded share, the last at what is left; surcharges
      on top. */
  function Prices(chosen: seq<Pick>, list: real): seq<real> {
    seq(|chosen|, i requires 0 <= i < |chosen| => chosen[i].extra +
      (if i < |chosen| - 1 then RoundHalfUp(Share(chosen[i].base, list, Bases(chosen))) as real
       else Unspent(chosen[..i], list, Bases(chosen))))
  }

  /** Child prices add up to the list price plus the surcharges, exactly. Every child but
      the last is its share rounded to the grid, so within half a unit of it; the last is
      within (n - 1)/2 units of its share. A combo without a positive base is refused. */
  method ChildPrices(chosen: seq<Pick>, list: real) returns (prices: Option<seq<real>>)
    ensures prices.Some? <==> Bases(chosen) > 0.0
    ensures prices.Some? ==> prices.value == Prices(chosen, list)
    ensures prices.Some? ==> |prices.value| == |chosen| && Sum(prices.value) == list + Extras(chosen)
    ensures prices.Some? ==> (forall i :: 0 <= i < |chosen| - 1 ==> (
      && prices.value[i] - chosen[i].extra == RoundHalfUp(Share(chosen[i].base, list, Bases(chosen))) as real
      && -0.5 <= prices.value[i] - chosen[i].extra - Share(chosen[i].base, list, Bases(chosen)) <= 0.5))
    ensures prices.Some? ==> chosen != []
    ensures prices.Some? ==> var n := |chosen| - 1;
      var off := prices.value[n] - chosen[n].extra - Share(chosen[n].base, list, Bases(chosen));
      -(n as real) / 2.0 <= off <= (n as real) / 2.0
  {
    var total := SumBases(chosen);
    if total <= 0.0 { return None; }
    hide Share, RoundHalfUp, Sum, Extras, Unspent, Bases, Prices;
    NothingYet(list, total);
    var remaining, out := list, [];
    for i := 0 to |chosen|
      invariant |out| == i
      invariant remaining == Unspent(chosen[..i], list, total)
      invariant Sum(out) == Extras(chosen[..i]) + (if i == |chosen| then list else list - remaining)
      invariant forall j :: 0 <= j < i && j < |chosen| - 1 ==>
        out[j] - chosen[j].extra == RoundHalfUp(Share(chosen[j].base, list, total)) as real
      invariant i == |chosen| ==> out[i - 1] == Unspent(chosen[..i - 1], list, total) + chosen[i - 1].extra
    {
      assert chosen[..i + 1] == chosen[..i] + [chosen[i]];
      OneMore(chosen[..i], chosen[i], list, total);
      var price := RoundHalfUp(Share(chosen[i].base, list, total)) as real;
      remaining := remaining - price;
      if i == |chosen| - 1 { price := price + remaining; }
      price := price + chosen[i].extra;
      SumLast(out, price);
      out := out + [price];
    }
    assert chosen[..|chosen|] == chosen;
    LastShare(chosen, list);
    ArePrices(chosen, list, out);
    prices := Some(out);
  }

  lemma ArePrices(chosen: seq<Pick>, list: real, out: seq<real>)
    requires |out| == |chosen| > 0
    requires forall j :: 0 <= j < |chosen| - 1 ==>
      out[j] - chosen[j].extra == RoundHalfUp(Share(chosen[j].base, list, Bases(chosen))) as real
    requires out[|out| - 1] == Unspent(chosen[..|out| - 1], list, Bases(chosen)) + chosen[|out| - 1].extra
    ensures out == Prices(chosen, list)
  {
    hide Share, RoundHalfUp, Unspent, Bases;
  }

  lemma NothingYet(list: real, total: real)
    ensures Sum([]) == 0.0 && Extras([]) == 0.0 && Unspent([], list, total) == list && Bases([]) == 0.0
  {
  }

  lemma OneMore(front: seq<Pick>, p: Pick, list: real, total: real)
    ensures Extras(front + [p]) == Extras(front) + p.extra
    ensures Unspent(front + [p], list, total) ==
        Unspent(front, list, total) - RoundHalfUp(Share(p.base, list, total)) as real
  {
    assert (front + [p])[..|front|] == front;
  }

  /** The bound on the last child is reached: four equal groups at a price of 2 units are
      sold at 1, 1, 1 and -1. */
  lemma LastChildCanBeNegative()
    ensures var p := Pick(1.0, 0.0);
      && Bases([p, p, p, p]) > 0.0
      && Prices([p, p, p, p], 2.0) == [1.0, 1.0, 1.0, -1.0]
      && -1.0 - Share(1.0, 2.0, Bases([p, p, p, p])) == -3.0 / 2.0
  {
    var p := Pick(1.0, 0.0);
    FourBases(p);
    HalfEach();
    var four := [p, p, p, p];
    assert four[..3] == [p, p, p] && [p, p, p][..2] == [p, p] && [p, p][..1] == [p] && [p][..0] == [];
    assert Unspent([p], 2.0, 4.0) == 1.0;
    assert Unspent([p, p], 2.0, 4.0) == 0.0;
    assert Unspent(four[..3], 2.0, 4.0) == -1.0;
    hide Share, RoundHalfUp, Unspent, Bases;
    assert Prices(four, 2.0)[3] == -1.0;
  }

  lemma HalfEach()
    ensures Share(1.0, 2.0, 4.0) == 0.5 && RoundHalfUp(0.5) == 1
  {
  }

  lemma FourBases(p: Pick)
    requires p.base == 1.0
    ensures Bases([p, p, p, p]) == 4.0
  {
    assert [p, p, p, p][..3] == [p, p, p] && [p, p, p][..2] == [p, p] && [p, p][..1] == [p] && [p][..0] == [];
    assert Bases([p]) == 1.0;
    assert Bases([p, p]) == 2.0;
    assert Bases([p, p, p]) == 3.0;
  }

  // ---- split bills and gift cards -------------------------------------------------------------

  /** A gift card tender: the requested amount if any, and the card's balance. */
  datatype Gift = Gift(asked: Option<real>, points: real)

  function Min(a: real, b: real): real { if a <= b then a else b }

  /** A requested amount of 0 counts as none. */
  function Applied(g: Gift, total: real): real {
    var asked := if g.asked.Some? && g.asked.value != 0.0 then RoundHalfEven(g.asked.value) as real else g.points;
    Min(Min(asked, g.points), RoundHalfEven(total) as real)
  }

  /** The card pays no more than was asked for, than it holds, and than the rounded bill, and
      one of the three in full; an amount of 0 asks for nothing in particular. */
  lemma AppliedMeans(g: Gift, total: real)
    ensures Applied(g, total) <= g.points && Applied(g, total) <= RoundHalfEven(total) as real
    ensures g.asked.Some? && g.asked.value != 0.0 ==> Applied(g, total) <= RoundHalfEven(g.asked.value) as real
    ensures Applied(g, total) == g.points || Applied(g, total) == RoundHalfEven(total) as real
         || (g.asked.Some? && g.asked.value != 0.0 && Applied(g, total) == RoundHalfEven(g.asked.value) as real)
  {
  }

  function AppliedOr0(gift: Option<Gift>, total: real): real {
    if gift.Some? then Applied(gift.value, total) else 0.0
  }

  function Target(gift: Option<Gift>, total: real): int {
    RoundHalfEven(total - AppliedOr0(gift, total))
  }

  datatype Built = Built(payments: seq<real>, left: Option<real>)

  method Positive(tenders: seq<real>) returns (plist: seq<real>)
    ensures plist == Filtered(tenders)
  {
    plist := [];
    for n := 0 to |tenders|
      invariant plist == Filtered(tenders[..n])
    {
      assert tenders[..n + 1][..n] == tenders[..n];
      if tenders[n] > 0.0 { plist := plist + [tenders[n]]; }
    }
    assert tenders[..|tenders|] == tenders;
  }

  function Filtered(tenders: seq<real>): seq<real> {
    if tenders == [] then []
    else
      var front := Filtered(tenders[..|tenders| - 1]);
      if tenders[|tenders| - 1] > 0.0 then front + [tenders[|tenders| - 1]] else front
  }

  /** Only the positive tenders count, in the order they were sent. */
  lemma {:induction false} FilteredLaws(a: seq<real>, b: seq<real>)
    ensures Filtered([]) == []
    ensures |b| == 1 ==> Filtered(b) == if b[0] > 0.0 then b else []
    ensures Filtered(a + b) == Filtered(a) + Filtered(b)
  {
    if b == [] {
      assert a + b == a;
    } else {
      var n := |b| - 1;
      assert (a + b)[..|a| + n] == a + b[..n];
      FilteredLaws(a, b[..n]);
      if n == 0 { assert b[..0] == []; }
    }
  }

  function Rounded(tenders: seq<real>): int {
    if tenders == [] then 0 else Rounded(tenders[..|tenders| - 1]) + RoundHalfEven(tenders[|tenders| - 1])
  }

  lemma RoundedLast(tenders: seq<real>, n: nat)
    requires n < |tenders|
    ensures Rounded(tenders[..n + 1]) == Rounded(tenders[..n]) + RoundHalfEven(tenders[n])
  {
    assert tenders[..n + 1][..n] == tenders[..n];
  }

  lemma RoundedNone()
    ensures Rounded([]) == 0
  {
  }

  /** Splits `target` over the tenders: each but the last as sent, the last what is left. */
  method Split(plist: seq<real>, target: int) returns (out: seq<real>)
    requires |plist| >= 2
    ensures |out| == |plist| && Sum(out) == target as real
    ensures forall i :: 0 <= i < |plist| - 1 ==> out[i] == RoundHalfEven(plist[i]) as real
    ensures out[|out| - 1] == (target - Rounded(plist[..|plist| - 1])) as real
  {
    hide RoundHalfEven, Rounded, Sum;
    out := [];
    SumNone();
    RoundedNone();
    assert plist[..0] == [];
    var running := 0;
    for i := 0 to |plist|
      invariant |out| == i && Sum(out) == running as real
      invariant i < |plist| ==> running == Rounded(plist[..i])
      invariant i == |plist| ==> out[i - 1] == (target - Rounded(plist[..i - 1])) as real
      invariant i == |plist| ==> running == target
      invariant forall j :: 0 <= j < i && j < |plist| - 1 ==> out[j] == RoundHalfEven(plist[j]) as real
    {
      var amount := RoundHalfEven(plist[i]);
      if i == |plist| - 1 {
        amount := RoundHalfEven((target - running) as real);
        RoundHalfEvenOfInt(target - running);
      }
      RoundedLast(plist, i);
      SumLast(out, amount as real);
      running := running + amount;
      out := out + [amount as real];
    }
  }

  /** The payments of a bill settled at once: they add up to the target plus the card's
      part, and the card is refused or keeps a balance of at least 0. The last of several
      tenders is recorded as a positive amount exactly when the earlier ones, rounded, stay
      below the target; otherwise it is 0 or negative. */
  method BuildPayments(total: real, gift: Option<Gift>, tenders: seq<real>) returns (r: Option<Built>)
    ensures r.None? <==> gift.Some? && Applied(gift.value, total) <= 0.0
    ensures r.Some? ==> (Sum(r.value.payments) ==
      AppliedOr0(gift, total) + (if Target(gift, total) > 0 then Target(gift, total) as real else 0.0))
    ensures r.Some? ==> r.value.left.Some? == gift.Some?
    ensures r.Some? && gift.Some? ==>
      r.value.payments != [] && r.value.payments[|r.value.payments| - 1] == Applied(gift.value, total)
    ensures r.Some? && gift.Some? ==> 0.0 <= r.value.left.value < gift.value.points
    ensures r.Some? && gift.Some? ==> r.value.left.value + AppliedOr0(gift, total) == gift.value.points
    ensures r.Some? ==> (|r.value.payments| ==
      (if Target(gift, total) <= 0 then 0 else if |Filtered(tenders)| >= 2 then |Filtered(tenders)| else 1)
      + (if gift.Some? then 1 else 0))
    ensures r.Some? && Target(gift, total) > 0 && |Filtered(tenders)| >= 2 ==>
      var plist := Filtered(tenders); var n := |plist| - 1;
      && (forall i :: 0 <= i < n ==> r.value.payments[i] == RoundHalfEven(plist[i]) as real)
      && r.value.payments[n] == (Target(gift, total) - Rounded(plist[..n])) as real
      && (r.value.payments[n] > 0.0 <==> Rounded(plist[..n]) < Target(gift, total))
  {
    hide Filtered, Rounded, RoundHalfEven, Sum;
    SumNone();
    var applied := AppliedOr0(gift, total);
    if gift.Some? && applied <= 0.0 { return None; }
    var target := RoundHalfEven(total - applied);
    var plist := Positive(tenders);
    var out := [];
    if target > 0 {
      if |plist| >= 2 {
        out := Split(plist, target);
      } else {
        SumLast([], target as real);
        out := out + [target as real];
      }
    }
    if gift.Some? {
      SumLast(out, applied);
      out := out + [applied];
    }
    r := Some(Built(out, if gift.Some? then Some(gift.value.points - applied) else None));
  }

  /** The payments add up to the rounded bill exactly when the bill is not negative, the
      card's part is a whole number of units, and that number is even or the bill is not
      half-way between two units. */
  lemma PaymentsMatchBillExactlyWhen(total: real, gift: Option<Gift>)
    requires gift.Some? ==> Applied(gift.value, total) > 0.0
    ensures var applied := AppliedOr0(gift, total); var target := Target(gift, total);
      applied + (if target > 0 then target as real else 0.0) == RoundHalfEven(total) as real
      <==> RoundHalfEven(total) >= 0 && applied == applied.Floor as real && (applied.Floor % 2 == 0 || !IsTie(total))
  {
    var applied, target := AppliedOr0(gift, total), Target(gift, total);
    var k, rest := applied.Floor, if target > 0 then target else 0;
    assert (if target > 0 then target as real else 0.0) == rest as real;
    if applied == k as real {
      RoundHalfEvenShift(total, k);
      assert target == RoundHalfEven(total - k as real);
      TieBounds(total, k);
    } else {
      WholeDifference(applied, RoundHalfEven(total), rest);
    }
  }

  lemma WholeDifference(x: real, m: int, n: int)
    requires x != x.Floor as real
    ensures x + n as real != m as real
  {
    if x + n as real == m as real { IsWhole(x, m - n); }
  }

  lemma IsWhole(x: real, d: int)
    requires x == d as real
    ensures x == x.Floor as real
  {
  }

  /** Rounding a shifted tie is off by exactly one unit, and never falls below the shift. */
  lemma TieBounds(total: real, k: int)
    requires k <= RoundHalfEven(total) || k == 0
    ensures k % 2 != 0 && IsTie(total) ==> RoundHalfEven(total - k as real) >= 0
  {
    if k % 2 != 0 && IsTie(total) {
      assert RoundHalfEven(total) % 2 == 0;
      assert total - k as real >= 0.5;
      RoundHalfEvenMonotone(0.5, total - k as real);
    }
  }
}
