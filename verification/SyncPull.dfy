/** `pull`: a terminal pages through one configuration table by watermark until the
    server reports no more, while the table stands still. A write date is a whole
    second plus a fraction in ticks; the echoed watermark keeps only the second. */
module SyncPull {
  import opened Common

  datatype Rec = Rec(id: int, sec: int, frac: nat)

  datatype PageResult = PageResult(rows: seq<Rec>, mark: Option<int>, hasMore: bool)

  predicate NotAfter(a: Rec, b: Rec) {
    a.sec < b.sec || (a.sec == b.sec && a.frac <= b.frac)
  }

  predicate SameDate(a: Rec, b: Rec) {
    a.sec == b.sec && a.frac == b.frac
  }

  /** `write_date > watermark`. */
  predicate Above(r: Rec, mark: Option<int>) {
    mark.None? || r.sec > mark.value || (r.sec == mark.value && r.frac > 0)
  }

  /** Above a watermark means written after the beginning of its second. */
  lemma AboveMeans(r: Rec, m: int)
    ensures Above(r, None)
    ensures Above(r, Some(m)) <==> !NotAfter(r, Rec(r.id, m, 0))
  {
  }

  /** Rows in query order: write date, then id. */
  ghost predicate Ordered(rows: seq<Rec>) {
    forall i, j :: 0 <= i < j < |rows| ==>
      NotAfter(rows[i], rows[j]) && (SameDate(rows[i], rows[j]) ==> rows[i].id < rows[j].id)
  }

  /** Where the rows above the watermark begin. */
  function From(rows: seq<Rec>, mark: Option<int>): (k: nat)
    ensures k <= |rows|
  {
    if rows == [] || Above(rows[0], mark) then 0 else 1 + From(rows[1..], mark)
  }

  lemma {:induction false} FromSplits(rows: seq<Rec>, mark: Option<int>)
    requires Ordered(rows)
    ensures forall i :: 0 <= i < |rows| ==> (i >= From(rows, mark) <==> Above(rows[i], mark))
  {
    if rows != [] && !Above(rows[0], mark) {
      FromSplits(rows[1..], mark);
      assert forall i :: 1 <= i < |rows| ==> rows[i] == rows[1..][i - 1];
    }
  }

  lemma {:induction false} LaterStarts(rows: seq<Rec>, m: Option<int>, n: Option<int>)
    requires Later(m, n) || m == n
    ensures From(rows, m) <= From(rows, n)
  {
    if rows != [] && !Above(rows[0], m) { LaterStarts(rows[1..], m, n); }
  }

  predicate Later(m: Option<int>, n: Option<int>) {
    n.Some? && (m.Some? ==> m.value <= n.value)
  }

  /** One terminal's pull of one table: its rows, its first watermark, the page size. */
  datatype Pull = Pull(rows: seq<Rec>, mark: Option<int>, limit: nat) {

    ghost predicate Valid() {
      limit > 0 && Ordered(rows)
    }

    function Page(m: Option<int>): PageResult {
      var k := From(rows, m);
      var e := if k + limit <= |rows| then k + limit else |rows|;
      PageResult(rows[k..e], if e > k then Some(rows[e - 1].sec) else m, e - k == limit)
    }

    /** The watermark of the n-th request, counted from 0. */
    function MarkAt(n: nat): Option<int> {
      if n == 0 then mark else Page(MarkAt(n - 1)).mark
    }

    function StartAt(n: nat): (k: nat)
      ensures k <= |rows|
    {
      From(rows, MarkAt(n))
    }

    function EndAt(n: nat): (e: nat)
      ensures StartAt(n) <= e <= |rows|
      ensures e == StartAt(n) + limit || (e == |rows| && e < StartAt(n) + limit)
    {
      if StartAt(n) + limit <= |rows| then StartAt(n) + limit else |rows|
    }

    predicate FullAt(n: nat) {
      Page(MarkAt(n)).hasMore
    }

    /** The loop ends with its n-th page: that one is the first that is short. */
    ghost predicate StopsAfter(n: nat) {
      n > 0 && !FullAt(n - 1) && forall m :: 0 <= m < n - 1 ==> FullAt(m)
    }

    function Delivered(n: nat): seq<Rec> {
      if n == 0 then [] else Delivered(n - 1) + rows[StartAt(n - 1)..EndAt(n - 1)]
    }

    /** What one request does to the position and to the watermark. */
    lemma Request(n: nat)
      requires Valid()
      ensures FullAt(n) <==> EndAt(n) == StartAt(n) + limit
      ensures forall i :: 0 <= i < |rows| ==> (i >= StartAt(n) <==> Above(rows[i], MarkAt(n)))
      ensures EndAt(n) > StartAt(n) ==> MarkAt(n + 1) == Some(rows[EndAt(n) - 1].sec) && Later(MarkAt(n), MarkAt(n + 1))
      ensures EndAt(n) == StartAt(n) ==> MarkAt(n + 1) == MarkAt(n)
    {
      PageMark(n);
      FromSplits(rows, MarkAt(n));
      hide From, Page, FullAt, MarkAt, EndAt;
    }

    lemma PageMark(n: nat)
      ensures FullAt(n) <==> EndAt(n) == StartAt(n) + limit
      ensures MarkAt(n + 1) == if EndAt(n) > StartAt(n) then Some(rows[EndAt(n) - 1].sec) else MarkAt(n)
    {
      hide From;
    }

    lemma StartsRise(n: nat)
      requires Valid()
      ensures StartAt(n) <= StartAt(n + 1) && EndAt(n) <= EndAt(n + 1)
    {
      hide From, MarkAt, Page;
      Request(n);
      LaterStarts(rows, MarkAt(n), MarkAt(n + 1));
    }

    lemma {:induction false} StartsRiseTo(m: nat, n: nat)
      requires Valid() && m <= n
      ensures StartAt(m) <= StartAt(n) && EndAt(m) <= EndAt(n)
    {
      hide StartAt, EndAt;
      if m < n {
        StartsRiseTo(m, n - 1);
        StartsRise(n - 1);
      }
    }

    // ---- when the loop ends ------------------------------------------------------

    /** A whole page of rows written within second `u`, after its first tick. */
    ghost predicate CrowdedAt(u: int, i: nat) {
      && (mark.Some? ==> mark.value <= u)
      && i + limit <= |rows| && limit > 0
      && rows[i].sec == u && rows[i].frac > 0 && rows[i + limit - 1].sec == u
    }

    ghost predicate Crowded() {
      exists u: int, i: nat :: CrowdedAt(u, i)
    }

    /** The mark cannot leave a crowded second, and every page there is full. */
    lemma {:induction false} CrowdHoldsTheMark(u: int, i: nat, n: nat)
      requires Valid() && CrowdedAt(u, i)
      ensures MarkAt(n).Some? ==> MarkAt(n).value <= u
      ensures FullAt(n)
    {
      hide Page, FullAt, StartAt;
      if n > 0 {
        CrowdHoldsTheMark(u, i, n - 1);
        CrowdStep(u, i, n - 1);
      }
      CrowdFillsThePage(u, i, n);
    }

    lemma CrowdFillsThePage(u: int, i: nat, n: nat)
      requires Valid() && CrowdedAt(u, i)
      requires MarkAt(n).Some? ==> MarkAt(n).value <= u
      ensures FullAt(n) && EndAt(n) <= i + limit
    {
      hide From, StartAt, MarkAt, Page;
      Request(n);
      assert Above(rows[i], MarkAt(n));
    }

    lemma CrowdStep(u: int, i: nat, n: nat)
      requires Valid() && CrowdedAt(u, i) && (MarkAt(n).Some? ==> MarkAt(n).value <= u)
      ensures MarkAt(n + 1).Some? ==> MarkAt(n + 1).value <= u
    {
      hide From, StartAt, MarkAt, Page;
      Request(n);
      CrowdFillsThePage(u, i, n);
      assert EndAt(n) - 1 < i + limit - 1 ==> NotAfter(rows[EndAt(n) - 1], rows[i + limit - 1]);
    }

    lemma {:induction false} MarkNeverFalls(n: nat)
      requires Valid()
      ensures mark.Some? ==> MarkAt(n).Some? && mark.value <= MarkAt(n).value
    {
      hide From;
      if n > 0 {
        MarkNeverFalls(n - 1);
        Request(n - 1);
      }
    }

    /** Without a crowded second every full page moves the mark forward. */
    lemma FullPageMovesTheMark(n: nat)
      requires Valid() && !Crowded() && FullAt(n)
      ensures MarkAt(n + 1).Some? && (MarkAt(n).Some? ==> MarkAt(n).value < MarkAt(n + 1).value)
      ensures EndAt(n) > StartAt(n)
    {
      hide From, StartAt, Crowded;
      Request(n);
      if MarkAt(n).Some? && MarkAt(n).value == MarkAt(n + 1).value { StuckPageIsCrowded(n); }
    }

    lemma StuckPageIsCrowded(n: nat)
      requires Valid() && FullAt(n) && MarkAt(n).Some? && MarkAt(n + 1) == MarkAt(n)
      ensures Crowded()
    {
      hide From, StartAt;
      Request(n);
      MarkNeverFalls(n);
      var k := StartAt(n);
      assert Above(rows[k], MarkAt(n)) && (k < EndAt(n) - 1 ==> NotAfter(rows[k], rows[EndAt(n) - 1]));
      assert CrowdedAt(MarkAt(n).value, k);
    }

    /** Distance left for the mark to travel. */
    function Left(n: nat): int
      requires rows != []
    {
      if MarkAt(n).None? then rows[|rows| - 1].sec - rows[0].sec + 1 else rows[|rows| - 1].sec - MarkAt(n).value
    }

    lemma LeftShrinks(n: nat)
      requires Valid() && !Crowded() && FullAt(n) && rows != []
      ensures 0 <= Left(n + 1) < Left(n)
    {
      hide From, StartAt;
      FullPageMovesTheMark(n);
      Request(n);
      var e := EndAt(n);
      assert e - 1 < |rows| - 1 ==> NotAfter(rows[e - 1], rows[|rows| - 1]);
      assert 0 < e - 1 ==> NotAfter(rows[0], rows[e - 1]);
    }

    lemma {:induction false} FindStop(n: nat) returns (stop: nat)
      requires Valid() && !Crowded()
      requires forall m :: 0 <= m < n ==> FullAt(m)
      ensures StopsAfter(stop)
      decreases if FullAt(n) && rows != [] then Left(n) + 1 else 0
    {
      hide From, StartAt, MarkAt, Page;
      Request(n);
      if !FullAt(n) {
        stop := n + 1;
      } else {
        FullPageMovesTheMark(n);
        LeftShrinks(n);
        if FullAt(n + 1) { LeftShrinks(n + 1); }
        stop := FindStop(n + 1);
      }
    }

    /** The loop ends exactly when no second above the first watermark is crowded. With
        write dates in whole seconds it always ends. */
    lemma EndsUnlessCrowded()
      requires Valid()
      ensures (exists n: nat :: StopsAfter(n)) <==> !Crowded()
      ensures WholeSeconds() ==> !Crowded()
    {
      hide FullAt;
      if Crowded() {
        var u: int, i: nat :| CrowdedAt(u, i);
        forall n: nat ensures !StopsAfter(n) {
          if n > 0 { CrowdHoldsTheMark(u, i, n - 1); }
        }
      } else {
        var n := FindStop(0);
      }
    }

    // ---- what the loop delivers -----------------------------------------------------

    ghost predicate InPage(x: nat, n: nat) {
      StartAt(n) <= x < EndAt(n)
    }

    ghost predicate DeliveredBy(x: nat, n: nat) {
      exists m: nat :: m < n && InPage(x, m)
    }

    /** Row `x` follows the last row of the m-th page, a full one, with the same write
        date, and that date is a whole second. */
    ghost predicate TiesPast(x: nat, m: nat) {
      && FullAt(m) && EndAt(m) > 0 && EndAt(m) <= x < |rows|
      && SameDate(rows[EndAt(m) - 1], rows[x]) && rows[x].frac == 0
    }

    ghost predicate LostBy(x: nat, n: nat) {
      exists m: nat :: m < n && TiesPast(x, m)
    }

    /** Rows jumped over between one page and the next are exactly the tied ones. */
    lemma GapIsTie(x: nat, m: nat)
      requires Valid() && x < |rows|
      ensures TiesPast(x, m) <==> EndAt(m) <= x < StartAt(m + 1)
    {
      hide From, StartAt;
      Request(m);
      Request(m + 1);
      if EndAt(m) <= x {
        var last := EndAt(m) - 1;
        if last >= 0 && EndAt(m) > StartAt(m) {
          assert NotAfter(rows[last], rows[x]);
        }
      }
    }

    /** The request whose page begins at or before row `x` and whose successor begins after it. */
    lemma {:induction false} RequestAround(x: nat, n: nat) returns (m: nat)
      requires Valid() && StartAt(0) <= x < StartAt(n)
      ensures m < n && StartAt(m) <= x < StartAt(m + 1)
    {
      if x < StartAt(n - 1) { m := RequestAround(x, n - 1); } else { m := n - 1; }
    }

    /** After the last page, a row above the first watermark was delivered, or else it
        tied past the end of a full page; never both. */
    lemma DeliveredUnlessTied(x: nat, n: nat)
      requires Valid() && StopsAfter(n) && StartAt(0) <= x < |rows|
      ensures DeliveredBy(x, n) <==> !LostBy(x, n)
    {
      hide *;
      DeliveredOrLost(x, n);
      if LostBy(x, n) && DeliveredBy(x, n) { NeverBoth(x, n); }
    }

    lemma DeliveredOrLost(x: nat, n: nat)
      requires Valid() && StopsAfter(n) && StartAt(0) <= x < |rows|
      ensures DeliveredBy(x, n) || LostBy(x, n)
    {
      hide From, StartAt, EndAt, FullAt, TiesPast;
      Request(n - 1);
      if x >= StartAt(n - 1) {
        LastPageReachesTheEnd(n);
        assert InPage(x, n - 1);
      } else {
        var m := RequestAround(x, n - 1);
        GapIsTie(x, m);
        if x < EndAt(m) { assert InPage(x, m); }
      }
    }

    lemma NeverBoth(x: nat, n: nat)
      requires Valid() && x < |rows| && LostBy(x, n)
      ensures !DeliveredBy(x, n)
    {
      hide From, StartAt, EndAt, FullAt, TiesPast;
      var m: nat :| m < n && TiesPast(x, m);
      GapIsTie(x, m);
      forall j: nat | j < n ensures !InPage(x, j) {
        if j <= m { StartsRiseTo(j, m); } else { StartsRiseTo(m + 1, j); }
      }
    }

    lemma LastPageReachesTheEnd(n: nat)
      requires Valid() && StopsAfter(n)
      ensures EndAt(n - 1) == |rows|
    {
      Request(n - 1);
    }

    ghost predicate WholeSeconds() {
      forall i :: 0 <= i < |rows| ==> rows[i].frac == 0
    }

    lemma WholeSecondsMovePast(m: nat)
      requires Valid() && WholeSeconds()
      ensures EndAt(m) <= StartAt(m + 1)
    {
      hide From, StartAt, Page;
      Request(m);
      Request(m + 1);
      if EndAt(m) > StartAt(m) {
        var last := EndAt(m) - 1;
        assert !Above(rows[last], MarkAt(m + 1));
      }
    }

    /** With write dates in whole seconds no row is delivered twice. */
    lemma WholeSecondsNeverRepeat(x: nat, j: nat, m: nat)
      requires Valid() && WholeSeconds() && j < m && InPage(x, j)
      ensures !InPage(x, m)
    {
      hide StartAt, EndAt, WholeSeconds;
      WholeSecondsMovePast(j);
      StartsRiseTo(j + 1, m);
    }

    /** No full page ends inside a tie. */
    ghost predicate NoSplitTies(n: nat) {
      forall m: nat, x: nat :: m < n ==> !TiesPast(x, m)
    }

    /** Whole seconds and no split tie: every row above the first watermark is delivered
        exactly once, in order. */
    lemma {:induction false} CompleteAndInOrder(n: nat)
      requires Valid() && NoSplitTies(n) && n > 0
      requires forall m :: 0 <= m < n - 1 ==> FullAt(m)
      requires WholeSeconds()
      ensures StartAt(0) <= EndAt(n - 1) && Delivered(n) == rows[StartAt(0)..EndAt(n - 1)]
    {
      hide From, StartAt, FullAt, EndAt;
      if n > 1 {
        CompleteAndInOrder(n - 1);
        NextStartsWhereThisEnds(n - 2);
        StartsRiseTo(0, n - 2);
        assert rows[StartAt(0)..EndAt(n - 2)] + rows[StartAt(n - 1)..EndAt(n - 1)] == rows[StartAt(0)..EndAt(n - 1)];
      }
    }

    lemma NextStartsWhereThisEnds(m: nat)
      requires Valid() && FullAt(m) && NoSplitTies(m + 1)
      requires WholeSeconds()
      ensures StartAt(m + 1) == EndAt(m)
    {
      hide StartAt, EndAt, TiesPast;
      WholeSecondsMovePast(m);
      if StartAt(m + 1) > EndAt(m) { GapIsTie(EndAt(m), m); }
    }

    lemma WholeTableDelivered(n: nat)
      requires Valid() && StopsAfter(n) && NoSplitTies(n)
      requires WholeSeconds()
      ensures Delivered(n) == rows[StartAt(0)..]
    {
      hide From, StartAt, FullAt;
      CompleteAndInOrder(n);
      LastPageReachesTheEnd(n);
    }
  }

  lemma PageStep(p: Pull, n: nat)
    ensures p.Page(p.MarkAt(n)).mark == p.MarkAt(n + 1)
    ensures p.Page(p.MarkAt(n)).hasMore == p.FullAt(n)
    ensures p.Delivered(n + 1) == p.Delivered(n) + p.Page(p.MarkAt(n)).rows
  {
  }

  /** The terminal's loop: pull, keep the page, advance the watermark, until complete. */
  method PullUntilComplete(p: Pull) returns (delivered: seq<Rec>, mark: Option<int>)
    requires p.Valid() && !p.Crowded()
    ensures exists pages: nat :: p.StopsAfter(pages) && delivered == p.Delivered(pages) && mark == p.MarkAt(pages)
    ensures p.WholeSeconds() && (forall pages: nat :: p.NoSplitTies(pages)) ==> delivered == p.rows[p.StartAt(0)..]
  {
    hide Pull.Page, Pull.FullAt, Pull.Crowded, Pull.Left, Pull.MarkAt, Pull.Delivered;
    delivered, mark := [], p.mark;
    ghost var pages: nat := 0;
    NothingPulled(p);
    var hasMore := true;
    while hasMore
      invariant mark == p.MarkAt(pages) && delivered == p.Delivered(pages)
      invariant hasMore ==> forall m :: 0 <= m < pages ==> p.FullAt(m)
      invariant !hasMore ==> p.StopsAfter(pages)
      decreases hasMore, Fuel(p, pages)
    {
      var page := p.Page(mark);
      PageStep(p, pages);
      if page.hasMore { FuelShrinks(p, pages); }
      delivered := delivered + page.rows;
      mark := page.mark;
      hasMore := page.hasMore;
      pages := pages + 1;
    }
    if p.WholeSeconds() && (forall n: nat :: p.NoSplitTies(n)) { p.WholeTableDelivered(pages); }
  }

  lemma NothingPulled(p: Pull)
    ensures p.MarkAt(0) == p.mark && p.Delivered(0) == []
  {
  }

  function Fuel(p: Pull, n: nat): int {
    if p.rows != [] && p.FullAt(n) then p.Left(n) + 1 else 0
  }

  lemma FuelShrinks(p: Pull, n: nat)
    requires p.Valid() && !p.Crowded() && p.FullAt(n)
    ensures 0 <= Fuel(p, n + 1) < Fuel(p, n)
  {
    hide Pull.FullAt, Pull.Crowded, Pull.Left;
    p.FullPageMovesTheMark(n);
    p.LeftShrinks(n);
    if p.FullAt(n + 1) { p.LeftShrinks(n + 1); }
  }

  /** One answer of the server: the first rows above the watermark, at most a page of them,
      with the second of the last one, and whether the page is full. */
  lemma PageMeans(p: Pull, m: Option<int>)
    requires p.Valid()
    ensures var page := p.Page(m);
      && |page.rows| <= p.limit && (page.hasMore <==> |page.rows| == p.limit)
      && page.mark == (if page.rows == [] then m else Some(page.rows[|page.rows| - 1].sec))
      && exists k :: FirstAbove(p.rows, m, k) && k + |page.rows| <= |p.rows| && page.rows == p.rows[k..k + |page.rows|]
           && (|page.rows| < p.limit ==> k + |page.rows| == |p.rows|)
  {
    FromSplits(p.rows, m);
    hide From;
    var k := From(p.rows, m);
    assert FirstAbove(p.rows, m, k);
    assert p.Page(m).rows == p.rows[k..k + |p.Page(m).rows|];
  }

  /** Row `k` is the first above the watermark. */
  ghost predicate FirstAbove(rows: seq<Rec>, m: Option<int>, k: int) {
    && 0 <= k <= |rows|
    && (forall i :: 0 <= i < k ==> !Above(rows[i], m)) && (forall i :: k <= i < |rows| ==> Above(rows[i], m))
  }
}
