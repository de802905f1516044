/** `push`: an ordered outbox batch is applied exactly once, by a cursor and a ledger. */
module SyncPush {
  import opened Common
  import opened SyncWorld

  const NO_UUID: string := "(none)"

  datatype RowState = RowApplied | RowSkipped | RowFlagged | RowFailed

  datatype Row = Row(seqNo: int, state: RowState)

  /** Ledger rows are unique per terminal and identity, so a ledger is a map. */
  type Ledger = map<string, Row>

  /** A registered terminal: its cursor and its part of the ledger. */
  datatype Terminal = Terminal(cursor: int, ledger: Ledger)

  datatype Cloud = Cloud(terms: map<Term, Terminal>, world: World)

  /** A terminal the cloud has not seen yet starts at 0 with no rows. */
  function TermOf(c: Cloud, t: Term): Terminal {
    if t in c.terms then c.terms[t] else Terminal(0, map[])
  }

  datatype Reply = Reply(upTo: int, applied: nat, skipped: nat, flagged: nat, failed: nat)

  datatype Progress = Progress(reply: Reply, ledger: Ledger, world: World)

  function Key(e: Event): string {
    if e.uuid == "" then NO_UUID else e.uuid
  }

  function Max(a: int, b: int): int { if a > b then a else b }

  // ---- sorting the batch --------------------------------------------------------

  function Insert(e: Event, s: seq<Event>): (r: seq<Event>)
    ensures multiset(r) == multiset(s) + multiset{e}
  {
    if s == [] then [e]
    else
      var n := |s| - 1;
      assert s == s[..n] + [s[n]];
      if s[n].seqNo <= e.seqNo then s + [e] else Insert(e, s[..n]) + [s[n]]
  }

  /** Stable sort by sequence number. */
  function SortBySeq(s: seq<Event>): (r: seq<Event>)
    ensures multiset(r) == multiset(s)
  {
    if s == [] then []
    else
      assert s == s[..|s| - 1] + [s[|s| - 1]];
      Insert(s[|s| - 1], SortBySeq(s[..|s| - 1]))
  }

  ghost predicate Ascending(s: seq<Event>) {
    forall i, j :: 0 <= i < j < |s| ==> s[i].seqNo <= s[j].seqNo
  }

  ghost predicate StrictlyAscending(s: seq<Event>) {
    forall i, j :: 0 <= i < j < |s| ==> s[i].seqNo < s[j].seqNo
  }

  lemma {:induction false} InsertAscends(e: Event, s: seq<Event>)
    requires Ascending(s)
    ensures Ascending(Insert(e, s))
  {
    if s != [] {
      var n := |s| - 1;
      if s[n].seqNo > e.seqNo {
        InsertAscends(e, s[..n]);
        var r := Insert(e, s[..n]);
        forall i | 0 <= i < |r| ensures r[i].seqNo <= s[n].seqNo {
          assert r[i] in multiset(r);
          assert r[i] == e || r[i] in s[..n];
        }
      }
    }
  }

  lemma {:induction false} SortAscends(s: seq<Event>)
    ensures Ascending(SortBySeq(s))
  {
    if s != [] {
      SortAscends(s[..|s| - 1]);
      InsertAscends(s[|s| - 1], SortBySeq(s[..|s| - 1]));
    }
  }

  /** Any order of the same events sorts to the one strictly ascending sequence. */
  lemma {:induction false} AscendingUnique(a: seq<Event>, b: seq<Event>)
    requires Ascending(a) && StrictlyAscending(b) && multiset(a) == multiset(b)
    ensures a == b
  {
    hide Ascending, StrictlyAscending;
    SameLength(a, b);
    if b != [] {
      LastOfBoth(a, b);
      AscendingPrefix(a, b, |a| - 1);
      DropLast(a);
      DropLast(b);
      AscendingUnique(a[..|a| - 1], b[..|b| - 1]);
      Glue(a, b);
    }
  }

  lemma Glue(a: seq<Event>, b: seq<Event>)
    requires |a| == |b| > 0
    requires a[..|a| - 1] == b[..|b| - 1] && a[|a| - 1] == b[|b| - 1]
    ensures a == b
  {
    assert a == a[..|a| - 1] + [a[|a| - 1]];
    assert b == b[..|b| - 1] + [b[|b| - 1]];
  }

  lemma LastOfBoth(a: seq<Event>, b: seq<Event>)
    requires Ascending(a) && StrictlyAscending(b) && multiset(a) == multiset(b) && |a| == |b| > 0
    ensures a[|a| - 1] == b[|b| - 1]
  {
    var n := |b| - 1;
    assert a[n] in multiset(b) && b[n] in multiset(a);
    var i :| 0 <= i <= n && b[i] == a[n];
    var j :| 0 <= j <= n && a[j] == b[n];
  }

  lemma AscendingPrefix(a: seq<Event>, b: seq<Event>, n: nat)
    requires Ascending(a) && StrictlyAscending(b) && n <= |a| && n <= |b|
    ensures Ascending(a[..n]) && StrictlyAscending(b[..n])
  {
  }

  lemma SameLength(a: seq<Event>, b: seq<Event>)
    requires multiset(a) == multiset(b)
    ensures |a| == |b|
  {
    assert |multiset(a)| == |a| && |multiset(b)| == |b|;
  }

  lemma DropLast(a: seq<Event>)
    requires a != []
    ensures multiset(a[..|a| - 1]) == multiset(a) - multiset{a[|a| - 1]}
  {
    assert a == a[..|a| - 1] + [a[|a| - 1]];
  }

  // ---- one event, one batch -------------------------------------------------------

  /** One turn of the loop. `None` is the ledger's uniqueness constraint refusing a
      second row for an event without identity; it escapes and aborts the batch. */
  function StepEvent(cat: Catalogue, t: Term, cursor: int, p: Progress, e: Event): Option<Progress> {
    if e.seqNo <= cursor then Some(p)
    else
      var r := p.reply.(upTo := Max(p.reply.upTo, e.seqNo));
      if e.uuid == "" then
        if NO_UUID in p.ledger then None
        else Some(Progress(r.(failed := r.failed + 1), p.ledger[NO_UUID := Row(e.seqNo, RowFailed)], p.world))
      else if e.uuid in p.ledger then Some(p.(reply := r.(skipped := r.skipped + 1)))
      else match ApplyEvent(cat, t, p.world, e)
        case Failure(_) =>
          Some(Progress(r.(failed := r.failed + 1), p.ledger[e.uuid := Row(e.seqNo, RowFailed)], p.world))
        case Success((w, Skipped)) =>
          Some(Progress(r.(skipped := r.skipped + 1), p.ledger[e.uuid := Row(e.seqNo, RowSkipped)], w))
        case Success((w, Flagged)) =>
          Some(Progress(r.(flagged := r.flagged + 1, applied := r.applied + 1),
              p.ledger[e.uuid := Row(e.seqNo, RowFlagged)], w))
        case Success((w, Applied)) =>
          Some(Progress(r.(applied := r.applied + 1), p.ledger[e.uuid := Row(e.seqNo, RowApplied)], w))
  }

  function StepAll(cat: Catalogue, t: Term, cursor: int, p: Progress, events: seq<Event>): Option<Progress> {
    if events == [] then Some(p)
    else match StepAll(cat, t, cursor, p, events[..|events| - 1])
      case None => None
      case Some(q) => StepEvent(cat, t, cursor, q, events[|events| - 1])
  }

  function Start(c: Cloud, t: Term): Progress {
    Progress(Reply(TermOf(c, t).cursor, 0, 0, 0, 0), TermOf(c, t).ledger, c.world)
  }

  function Finish(c: Cloud, t: Term, p: Progress): Cloud {
    Cloud(c.terms[t := Terminal(Max(TermOf(c, t).cursor, p.reply.upTo), p.ledger)], p.world)
  }

  /** The whole push: `None` when the batch aborts and everything is rolled back. */
  function Push(cat: Catalogue, c: Cloud, t: Term, batch: seq<Event>): Option<(Cloud, Reply)> {
    match StepAll(cat, t, TermOf(c, t).cursor, Start(c, t), SortBySeq(batch))
    case None => None
    case Some(p) => Some((Finish(c, t, p), p.reply))
  }

  datatype PushResponse = Unauthorized | BatchAborted | Accepted(reply: Reply)

  /** The endpoint, updating the stored terminals and world in place. */
  class CloudServer {
    const cat: Catalogue
    var terms: map<Term, Terminal>
    var world: World

    ghost function Contents(): Cloud
      reads this
    {
      Cloud(terms, world)
    }

    constructor (cat: Catalogue, world: World)
      ensures this.cat == cat && Contents() == Cloud(map[], world)
    {
      this.cat := cat;
      this.world := world;
      terms := map[];
    }

    /** Mint a terminal, or return the known one unchanged. */
    method Register(t: Term)
      modifies this`terms
      ensures t in terms
      ensures terms == if t in old(terms) then old(terms) else old(terms)[t := Terminal(0, map[])]
    {
      if t !in terms { terms := terms[t := Terminal(0, map[])]; }
    }

    method PushBatch(t: Term, batch: seq<Event>) returns (resp: PushResponse)
      modifies this
      ensures resp.Unauthorized? <==> t !in old(terms)
      ensures resp.Unauthorized? ==> Contents() == old(Contents())
      ensures t in old(terms) ==>
                match Push(cat, old(Contents()), t, batch)
                case None => resp == BatchAborted && Contents() == old(Contents())
                case Some(r) => resp == Accepted(r.1) && Contents() == r.0
    {
      if t !in terms { return Unauthorized; }
      var events := SortBySeq(batch);
      var cursor := terms[t].cursor;
      var p := Progress(Reply(cursor, 0, 0, 0, 0), terms[t].ledger, world);
      for i := 0 to |events|
        invariant StepAll(cat, t, cursor, Start(old(Contents()), t), events[..i]) == Some(p)
        invariant Contents() == old(Contents())
      {
        assert events[..i + 1][..i] == events[..i];
        var next := StepEvent(cat, t, cursor, p, events[i]);
        if next.None? {
          StepAllAborts(cat, t, cursor, Start(Contents(), t), events, i + 1);
          return BatchAborted;
        }
        p := next.value;
      }
      assert events[..|events|] == events;
      terms := terms[t := Terminal(Max(cursor, p.reply.upTo), p.ledger)];
      world := p.world;
      resp := Accepted(p.reply);
    }
  }

  lemma {:induction false} StepAllAborts(cat: Catalogue, t: Term, cursor: int, p: Progress, events: seq<Event>, i: nat)
    requires i <= |events| && StepAll(cat, t, cursor, p, events[..i]).None?
    ensures StepAll(cat, t, cursor, p, events).None?
    decreases |events|
  {
    if i == |events| {
      assert events[..i] == events;
    } else {
      assert events[..|events| - 1][..i] == events[..i];
      StepAllAborts(cat, t, cursor, p, events[..|events| - 1], i);
    }
  }

  // ---- delivering one new event ------------------------------------------------------

  /** The ledger state a first application leaves. */
  function StateOf(cat: Catalogue, t: Term, w: World, e: Event): RowState {
    if e.uuid == "" then RowFailed
    else match ApplyEvent(cat, t, w, e)
      case Failure(_) => RowFailed
      case Success((_, Skipped)) => RowSkipped
      case Success((_, Flagged)) => RowFlagged
      case Success((_, Applied)) => RowApplied
  }

  /** The simple form: apply one event, record it, move the cursor. No dedupe at all. */
  function Deliver(cat: Catalogue, c: Cloud, x: (Term, Event)): Cloud {
    var row := Row(x.1.seqNo, StateOf(cat, x.0, c.world, x.1));
    Cloud(c.terms[x.0 := Terminal(x.1.seqNo, TermOf(c, x.0).ledger[Key(x.1) := row])],
          Effect(cat, x.0, c.world, x.1))
  }

  type History = seq<(Term, Event)>

  function DeliverAll(cat: Catalogue, c: Cloud, hist: History): Cloud {
    if hist == [] then c else Deliver(cat, DeliverAll(cat, c, hist[..|hist| - 1]), hist[|hist| - 1])
  }

  function Tag(t: Term, s: seq<Event>): (r: seq<(Term, Event)>)
    ensures |r| == |s| && forall i :: 0 <= i < |s| ==> r[i] == (t, s[i])
  {
    seq(|s|, i requires 0 <= i < |s| => (t, s[i]))
  }

  ghost function KeySet(events: seq<Event>): set<string> {
    if events == [] then {} else KeySet(events[..|events| - 1]) + {Key(events[|events| - 1])}
  }

  lemma {:induction false} KeySetMeans(events: seq<Event>, k: string)
    ensures k in KeySet(events) <==> exists i :: 0 <= i < |events| && Key(events[i]) == k
  {
    if events != [] {
      KeySetMeans(events[..|events| - 1], k);
      assert forall i :: 0 <= i < |events| - 1 ==> events[..|events| - 1][i] == events[i];
    }
  }

  /** A turn of the loop on an event the ledger does not know is one delivery. */
  lemma StepEventDelivers(cat: Catalogue, t: Term, cursor: int, p: Progress, e: Event)
    requires e.seqNo > cursor && Key(e) !in p.ledger
    ensures var q := StepEvent(cat, t, cursor, p, e);
            && q.Some?
            && q.value.world == Effect(cat, t, p.world, e)
            && q.value.ledger == p.ledger[Key(e) := Row(e.seqNo, StateOf(cat, t, p.world, e))]
            && q.value.reply.upTo == Max(p.reply.upTo, e.seqNo)
  {
    hide ApplySale, ApplyStock, ApplyLoyalty;
  }

  lemma DeliverAllLast(cat: Catalogue, c: Cloud, h: History, x: (Term, Event))
    ensures DeliverAll(cat, c, h + [x]) == Deliver(cat, DeliverAll(cat, c, h), x)
  {
    assert (h + [x])[..|h|] == h;
  }

  lemma StepAllLast(cat: Catalogue, t: Term, cursor: int, p: Progress, front: seq<Event>, e: Event)
    ensures StepAll(cat, t, cursor, p, front + [e])
            == match StepAll(cat, t, cursor, p, front) case None => None case Some(q) => StepEvent(cat, t, cursor, q, e)
  {
    assert (front + [e])[..|front|] == front;
  }

  lemma KeySetLast(front: seq<Event>, e: Event)
    ensures KeySet(front + [e]) == KeySet(front) + {Key(e)}
  {
    assert (front + [e])[..|front|] == front;
  }

  lemma TagLast(t: Term, front: seq<Event>, e: Event)
    ensures Tag(t, front + [e]) == Tag(t, front) + [(t, e)]
  {
  }

  /** Every event is beyond the cursor and unknown to the ledger. */
  ghost predicate Unseen(here: Terminal, s: seq<Event>) {
    && StrictlyAscending(s)
    && (forall i :: 0 <= i < |s| ==> s[i].seqNo > here.cursor && Key(s[i]) !in here.ledger)
    && (forall i, j :: 0 <= i < j < |s| ==> Key(s[i]) != Key(s[j]))
  }

  lemma UnseenSplit(here: Terminal, front: seq<Event>, e: Event)
    requires Unseen(here, front + [e])
    ensures Unseen(here, front)
    ensures e.seqNo > here.cursor && Key(e) !in here.ledger && Key(e) !in KeySet(front)
    ensures front != [] ==> front[|front| - 1].seqNo < e.seqNo
  {
    var s := front + [e];
    assert s[|front|] == e;
    assert forall i :: 0 <= i < |front| ==> s[i] == front[i];
    KeySetMeans(front, Key(e));
  }

  function LastSeq(cursor: int, s: seq<Event>): int {
    if s == [] then cursor else s[|s| - 1].seqNo
  }

  /** New events are all delivered, in order: the guarded loop is the simple form. */
  lemma {:induction false} StepAllDelivers(cat: Catalogue, c: Cloud, t: Term, unseen: seq<Event>)
    requires t in c.terms && Unseen(c.terms[t], unseen)
    ensures var p := StepAll(cat, t, c.terms[t].cursor, Start(c, t), unseen);
            && p.Some?
            && Finish(c, t, p.value) == DeliverAll(cat, c, Tag(t, unseen))
            && p.value.reply.upTo == LastSeq(c.terms[t].cursor, unseen)
            && p.value.ledger.Keys == c.terms[t].ledger.Keys + KeySet(unseen)
  {
    hide StepAll, StepEvent, Deliver, DeliverAll, Finish, KeySet, Tag, Unseen;
    if unseen == [] {
      NothingDelivers(cat, c, t);
    } else {
      var front, e := unseen[..|unseen| - 1], unseen[|unseen| - 1];
      assert unseen == front + [e];
      UnseenSplit(c.terms[t], front, e);
      StepAllDelivers(cat, c, t, front);
      var p := StepAll(cat, t, c.terms[t].cursor, Start(c, t), front).value;
      FinishIsDelivery(cat, c, t, p, e);
      StepAllLast(cat, t, c.terms[t].cursor, Start(c, t), front, e);
      TagLast(t, front, e);
      DeliverAllLast(cat, c, Tag(t, front), (t, e));
      KeySetLast(front, e);
    }
  }

  lemma NothingDelivers(cat: Catalogue, c: Cloud, t: Term)
    requires t in c.terms
    ensures StepAll(cat, t, c.terms[t].cursor, Start(c, t), []) == Some(Start(c, t))
    ensures Finish(c, t, Start(c, t)) == c == DeliverAll(cat, c, Tag(t, []))
    ensures KeySet([]) == {}
  {
    assert c.terms[t := c.terms[t]] == c.terms;
  }

  lemma FinishIsDelivery(cat: Catalogue, c: Cloud, t: Term, p: Progress, e: Event)
    requires t in c.terms && e.seqNo > c.terms[t].cursor && e.seqNo > p.reply.upTo && Key(e) !in p.ledger
    ensures var q := StepEvent(cat, t, c.terms[t].cursor, p, e);
            && q.Some?
            && Finish(c, t, q.value) == Deliver(cat, Finish(c, t, p), (t, e))
            && q.value.reply.upTo == e.seqNo
            && q.value.ledger.Keys == p.ledger.Keys + {Key(e)}
  {
    StepEventDelivers(cat, t, c.terms[t].cursor, p, e);
    hide StepEvent, Effect, StateOf;
    var q, d := StepEvent(cat, t, c.terms[t].cursor, p, e).value, Finish(c, t, p);
    assert Finish(c, t, q).terms == d.terms[t := Terminal(e.seqNo, q.ledger)];
  }

  lemma {:induction false} StepAllIgnoresStale(cat: Catalogue, t: Term, cursor: int, p: Progress, stale: seq<Event>,
      rest: seq<Event>)
    requires forall i :: 0 <= i < |stale| ==> stale[i].seqNo <= cursor
    ensures StepAll(cat, t, cursor, p, stale + rest) == StepAll(cat, t, cursor, p, rest)
    decreases |stale| + |rest|
  {
    if rest != [] {
      var n := |rest| - 1;
      assert (stale + rest)[..|stale| + n] == stale + rest[..n];
      StepAllIgnoresStale(cat, t, cursor, p, stale, rest[..n]);
    } else if stale != [] {
      var n := |stale| - 1;
      assert stale + rest == stale && stale[..n] + rest == stale[..n];
      StepAllIgnoresStale(cat, t, cursor, p, stale[..n], rest);
    }
  }
}
