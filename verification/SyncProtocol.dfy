/** Many terminals pushing slices of their logs, in any order, repeated or aborted. */
module SyncProtocol {
  import opened Common
  import opened SyncWorld
  import opened SyncPush

  datatype Step =
    | PushStep(t: Term, batch: seq<Event>)
    | AbortedPush(t: Term, batch: seq<Event>)   // a concurrency error: rolled back, retried later

  /** One request against the cloud; an unknown terminal or an abort changes nothing. */
  function Take(cat: Catalogue, c: Cloud, step: Step): Cloud {
    if step.AbortedPush? || step.t !in c.terms then c
    else match Push(cat, c, step.t, step.batch)
      case None => c
      case Some(r) => r.0
  }

  function Run(cat: Catalogue, c: Cloud, steps: seq<Step>): Cloud {
    if steps == [] then c else Take(cat, Run(cat, c, steps[..|steps| - 1]), steps[|steps| - 1])
  }

  // ---- logs, slices and the position of a cursor ---------------------------------

  /** Sequence numbers rise from 1 and no two events share an identity; so at most one
      event lacks one. */
  ghost predicate GoodLog(log: seq<Event>) {
    && StrictlyAscending(log)
    && (forall i :: 0 <= i < |log| ==> log[i].seqNo > 0)
    && (forall i, j :: 0 <= i < j < |log| ==> Key(log[i]) != Key(log[j]))
  }

  /** How many events of the log the cursor has passed. */
  function Acked(log: seq<Event>, cursor: int): (n: nat)
    ensures n <= |log|
  {
    if log == [] then 0
    else if log[|log| - 1].seqNo <= cursor then |log|
    else Acked(log[..|log| - 1], cursor)
  }

  lemma {:induction false} AckedSplits(log: seq<Event>, cursor: int)
    requires StrictlyAscending(log)
    ensures forall i :: 0 <= i < |log| ==> (log[i].seqNo <= cursor <==> i < Acked(log, cursor))
  {
    if log != [] && log[|log| - 1].seqNo > cursor {
      AckedSplits(log[..|log| - 1], cursor);
      assert forall i :: 0 <= i < |log| - 1 ==> log[..|log| - 1][i] == log[i];
    }
  }

  /** The batch holds the events `a..b` of the log in some order, and leaves no gap
      after the cursor. */
  ghost predicate IsSlice(log: seq<Event>, cursor: int, batch: seq<Event>, a: nat, b: nat) {
    a <= b <= |log| && multiset(batch) == multiset(log[a..b]) && (a == 0 || log[a - 1].seqNo <= cursor)
  }

  ghost predicate Contiguous(log: seq<Event>, cursor: int, batch: seq<Event>) {
    exists a: nat, b: nat :: IsSlice(log, cursor, batch, a, b)
  }

  lemma SliceSorts(log: seq<Event>, cursor: int, batch: seq<Event>, a: nat, b: nat)
    requires StrictlyAscending(log) && IsSlice(log, cursor, batch, a, b)
    ensures SortBySeq(batch) == log[a..b]
  {
    SortAscends(batch);
    AscendingUnique(SortBySeq(batch), log[a..b]);
  }

  // ---- what any batch does to cursor and ledger --------------------------------------

  /** An event beyond the cursor carries the identity `k`. */
  ghost predicate Recorded(events: seq<Event>, cursor: int, k: string) {
    exists i :: 0 <= i < |events| && events[i].seqNo > cursor && Key(events[i]) == k
  }

  ghost predicate NamelessRepeat(events: seq<Event>, cursor: int, ledger: Ledger, i: nat) {
    && i < |events| && events[i].seqNo > cursor && events[i].uuid == ""
    && (NO_UUID in ledger || Recorded(events[..i], cursor, NO_UUID))
  }

  /** Some event without identity meets the ledger row of another one. */
  ghost predicate Repeats(events: seq<Event>, cursor: int, ledger: Ledger) {
    exists i: nat :: NamelessRepeat(events, cursor, ledger, i)
  }

  lemma RecordedLast(front: seq<Event>, e: Event, cursor: int, k: string)
    ensures Recorded(front + [e], cursor, k) <==> Recorded(front, cursor, k) || (e.seqNo > cursor && Key(e) == k)
  {
    var s := front + [e];
    if Recorded(front, cursor, k) {
      var i :| 0 <= i < |front| && front[i].seqNo > cursor && Key(front[i]) == k;
      assert s[i] == front[i];
    }
    assert s[|front|] == e;
  }

  lemma RepeatsLast(front: seq<Event>, e: Event, cursor: int, ledger: Ledger)
    ensures Repeats(front + [e], cursor, ledger)
            <==> Repeats(front, cursor, ledger)
                 || (e.seqNo > cursor && e.uuid == "" && (NO_UUID in ledger || Recorded(front, cursor, NO_UUID)))
  {
    hide Recorded;
    var s := front + [e];
    assert s[..|front|] == front;
    forall i: nat | i < |front|
      ensures NamelessRepeat(s, cursor, ledger, i) <==> NamelessRepeat(front, cursor, ledger, i)
    {
      assert s[..i] == front[..i];
    }
    assert NamelessRepeat(s, cursor, ledger, |front|)
      <==> e.seqNo > cursor && e.uuid == "" && (NO_UUID in ledger || Recorded(front, cursor, NO_UUID));
    if Repeats(front, cursor, ledger) {
      var i: nat :| NamelessRepeat(front, cursor, ledger, i);
      assert NamelessRepeat(s, cursor, ledger, i);
    }
  }

  function MaxSeq(n: int, events: seq<Event>): int {
    if events == [] then n else Max(MaxSeq(n, events[..|events| - 1]), events[|events| - 1].seqNo)
  }

  lemma {:induction false} MaxSeqBounds(n: int, events: seq<Event>)
    ensures n <= MaxSeq(n, events)
    ensures forall i :: 0 <= i < |events| ==> events[i].seqNo <= MaxSeq(n, events)
    ensures Ascending(events) ==> MaxSeq(n, events) == if events == [] then n else Max(n, events[|events| - 1].seqNo)
  {
    if events != [] {
      var front := events[..|events| - 1];
      MaxSeqBounds(n, front);
      assert forall i :: 0 <= i < |front| ==> events[i] == front[i];
    }
  }

  lemma MaxSeqLast(n: int, front: seq<Event>, e: Event)
    ensures MaxSeq(n, front + [e]) == Max(MaxSeq(n, front), e.seqNo)
  {
    assert (front + [e])[..|front|] == front;
  }

  lemma StepEventOutcome(cat: Catalogue, t: Term, cursor: int, p: Progress, e: Event)
    ensures StepEvent(cat, t, cursor, p, e).None? <==> e.seqNo > cursor && e.uuid == "" && NO_UUID in p.ledger
    ensures StepEvent(cat, t, cursor, p, e).Some? ==>
              var q := StepEvent(cat, t, cursor, p, e).value;
              && (forall k :: k in q.ledger <==> k in p.ledger || (e.seqNo > cursor && Key(e) == k))
              && q.reply.upTo == (if e.seqNo > cursor then Max(p.reply.upTo, e.seqNo) else p.reply.upTo)
  {
    hide ApplyEvent;
  }

  lemma NoEventsOutcome(cat: Catalogue, t: Term, cursor: int, p: Progress)
    ensures StepAll(cat, t, cursor, p, []) == Some(p)
    ensures MaxSeq(p.reply.upTo, []) == p.reply.upTo
    ensures forall k :: !Recorded([], cursor, k)
    ensures !Repeats([], cursor, p.ledger)
  {
  }

  /** A batch aborts exactly when an event without identity meets the ledger row of
      another one; otherwise every event beyond the cursor gets a ledger row and the
      acknowledged number covers the whole batch. */
  lemma {:induction false} StepAllOutcome(cat: Catalogue, t: Term, cursor: int, p: Progress, events: seq<Event>)
    requires p.reply.upTo >= cursor
    ensures StepAll(cat, t, cursor, p, events).None? <==> Repeats(events, cursor, p.ledger)
    ensures StepAll(cat, t, cursor, p, events).Some? ==>
              var q := StepAll(cat, t, cursor, p, events).value;
              && (forall k :: k in q.ledger <==> k in p.ledger || Recorded(events, cursor, k))
              && q.reply.upTo == MaxSeq(p.reply.upTo, events)
  {
    hide StepAll, StepEvent, Recorded, Repeats, MaxSeq;
    if events == [] {
      NoEventsOutcome(cat, t, cursor, p);
    } else {
      var front, e := events[..|events| - 1], events[|events| - 1];
      assert events == front + [e];
      StepAllOutcome(cat, t, cursor, p, front);
      StepAllLast(cat, t, cursor, p, front, e);
      RepeatsLast(front, e, cursor, p.ledger);
      MaxSeqLast(p.reply.upTo, front, e);
      MaxSeqBounds(p.reply.upTo, front);
      forall k
        ensures Recorded(events, cursor, k) <==> Recorded(front, cursor, k) || (e.seqNo > cursor && Key(e) == k)
      {
        RecordedLast(front, e, cursor, k);
      }
      var done := StepAll(cat, t, cursor, p, front);
      if done.Some? { StepEventOutcome(cat, t, cursor, done.value, e); }
    }
  }

  /** Stated for the endpoint: when a push aborts. */
  lemma PushAbortsWhen(cat: Catalogue, c: Cloud, t: Term, batch: seq<Event>)
    ensures Push(cat, c, t, batch).None? <==> Repeats(SortBySeq(batch), TermOf(c, t).cursor, TermOf(c, t).ledger)
  {
    StepAllOutcome(cat, t, TermOf(c, t).cursor, Start(c, t), SortBySeq(batch));
  }

  /** An event at or below the cursor is never applied, so a skipped one is lost for ever. */
  lemma StaleBatchIsNoop(cat: Catalogue, c: Cloud, t: Term, batch: seq<Event>)
    requires t in c.terms
    requires forall i :: 0 <= i < |SortBySeq(batch)| ==> SortBySeq(batch)[i].seqNo <= c.terms[t].cursor
    ensures Push(cat, c, t, batch).Some? && Push(cat, c, t, batch).value.0 == c
  {
    var events := SortBySeq(batch);
    StepAllIgnoresStale(cat, t, c.terms[t].cursor, Start(c, t), events, []);
    NothingDelivers(cat, c, t);
    assert events + [] == events;
  }

  /** Pushing any accepted batch again changes nothing at all. */
  lemma RepushIsNoop(cat: Catalogue, c: Cloud, t: Term, batch: seq<Event>)
    requires Push(cat, c, t, batch).Some?
    ensures var c' := Push(cat, c, t, batch).value.0;
            Push(cat, c', t, batch).Some? && Push(cat, c', t, batch).value.0 == c'
  {
    var c', events := Push(cat, c, t, batch).value.0, SortBySeq(batch);
    StepAllOutcome(cat, t, TermOf(c, t).cursor, Start(c, t), events);
    MaxSeqBounds(TermOf(c, t).cursor, events);
    hide StepAll;
    StaleBatchIsNoop(cat, c', t, batch);
  }

  /** Why batches must be contiguous: once a later event is accepted, an earlier one that
      was left out is never applied. */
  lemma SkippedEventIsLost(cat: Catalogue, c: Cloud, t: Term, batch: seq<Event>, later: Event, e: Event)
    requires Push(cat, c, t, batch).Some? && later in batch && e.seqNo <= later.seqNo
    ensures var c' := Push(cat, c, t, batch).value.0;
            Push(cat, c', t, [e]).Some? && Push(cat, c', t, [e]).value.0 == c'
  {
    var c', events := Push(cat, c, t, batch).value.0, SortBySeq(batch);
    assert later in multiset(events);
    StepAllOutcome(cat, t, TermOf(c, t).cursor, Start(c, t), events);
    MaxSeqBounds(TermOf(c, t).cursor, events);
    hide StepAll;
    assert SortBySeq([e]) == [e];
    StaleBatchIsNoop(cat, c', t, [e]);
  }

  // ---- exactly once -------------------------------------------------------------------

  /** The events of one terminal in a history. */
  function Of(hist: History, t: Term): seq<Event> {
    if hist == [] then []
    else Of(hist[..|hist| - 1], t) + (if hist[|hist| - 1].0 == t then [hist[|hist| - 1].1] else [])
  }

  lemma OfLast(h: History, x: (Term, Event), u: Term)
    ensures Of(h + [x], u) == Of(h, u) + (if x.0 == u then [x.1] else [])
  {
    assert (h + [x])[..|h|] == h;
  }

  /** Delivering a tagged run after a history: both views extend by the run. */
  lemma {:induction false} TaggedRun(cat: Catalogue, c: Cloud, h: History, t: Term, s: seq<Event>, u: Term)
    ensures DeliverAll(cat, c, h + Tag(t, s)) == DeliverAll(cat, DeliverAll(cat, c, h), Tag(t, s))
    ensures Of(h + Tag(t, s), u) == Of(h, u) + (if u == t then s else [])
    ensures u != t ==> TermOf(DeliverAll(cat, c, Tag(t, s)), u) == TermOf(c, u)
    ensures u in c.terms ==> u in DeliverAll(cat, c, Tag(t, s)).terms
  {
    hide Tag, Of, Effect, StateOf, Key;
    if s == [] {
      assert Tag(t, s) == [] && h + Tag(t, s) == h;
    } else {
      hide DeliverAll;
      var front, e := s[..|s| - 1], s[|s| - 1];
      assert s == front + [e];
      TaggedRun(cat, c, h, t, front, u);
      TagLast(t, front, e);
      assert h + (Tag(t, front) + [(t, e)]) == (h + Tag(t, front)) + [(t, e)];
      DeliverAllLast(cat, c, h + Tag(t, front), (t, e));
      DeliverAllLast(cat, DeliverAll(cat, c, h), Tag(t, front), (t, e));
      DeliverAllLast(cat, c, Tag(t, front), (t, e));
      OfLast(h + Tag(t, front), (t, e), u);
    }
  }

  /** The terminal's stored state and the events delivered for it agree with its log. */
  ghost predicate TermInv(c: Cloud, t: Term, log: seq<Event>, done: seq<Event>) {
    && t in c.terms && GoodLog(log)
    && c.terms[t].cursor >= 0
    && done == log[..Acked(log, c.terms[t].cursor)]
    && c.terms[t].ledger.Keys == KeySet(done)
  }

  /** The cloud is what delivering `hist`, once and in order, makes of the start; and
      `hist` holds exactly each terminal's log up to its cursor, in log order. */
  ghost predicate ExactlyOnce(cat: Catalogue, logs: map<Term, seq<Event>>, c0: Cloud, c: Cloud, hist: History) {
    && c == DeliverAll(cat, c0, hist)
    && (forall i :: 0 <= i < |hist| ==> hist[i].0 in logs)
    && (forall t :: t in logs ==> TermInv(c, t, logs[t], Of(hist, t)))
  }

  ghost predicate Unused(logs: map<Term, seq<Event>>, c: Cloud) {
    forall t :: t in logs ==> t in c.terms && GoodLog(logs[t]) && c.terms[t] == Terminal(0, map[])
  }

  /** Every push carries a contiguous slice of its terminal's log. */
  ghost predicate Legal(cat: Catalogue, logs: map<Term, seq<Event>>, c: Cloud, steps: seq<Step>) {
    steps == [] ||
    (var front, last := steps[..|steps| - 1], steps[|steps| - 1];
     && Legal(cat, logs, c, front)
     && last.t in logs
     && (last.PushStep? ==> Contiguous(logs[last.t], TermOf(Run(cat, c, front), last.t).cursor, last.batch)))
  }

  lemma {:induction false} KeySetJoins(log: seq<Event>, n: nat, b: nat)
    requires n <= b <= |log|
    ensures KeySet(log[..b]) == KeySet(log[..n]) + KeySet(log[n..b])
  {
    if n < b {
      KeySetJoins(log, n, b - 1);
      assert log[..b][..b - 1] == log[..b - 1];
      assert log[n..b][..b - 1 - n] == log[n..b - 1];
    }
  }

  lemma RestIsUnseen(c: Cloud, t: Term, log: seq<Event>, done: seq<Event>, b: nat)
    requires TermInv(c, t, log, done) && |done| <= b <= |log|
    ensures Unseen(c.terms[t], log[|done|..b])
  {
    var n, rest := |done|, log[|done|..b];
    AckedSplits(log, c.terms[t].cursor);
    forall i | 0 <= i < |rest| ensures rest[i].seqNo > c.terms[t].cursor && Key(rest[i]) !in c.terms[t].ledger {
      assert rest[i] == log[n + i];
      KeySetMeans(done, Key(rest[i]));
    }
  }

  lemma SliceIsStaleThenRest(c: Cloud, t: Term, log: seq<Event>, done: seq<Event>, a: nat, b: nat)
    requires TermInv(c, t, log, done)
    requires a <= b <= |log| && (a == 0 || log[a - 1].seqNo <= c.terms[t].cursor)
    ensures b <= |done| ==> forall i :: a <= i < b ==> log[i].seqNo <= c.terms[t].cursor
    ensures b > |done| ==> a <= |done| && log[a..b] == log[a..|done|] + log[|done|..b]
                           && forall i :: a <= i < |done| ==> log[i].seqNo <= c.terms[t].cursor
  {
    AckedSplits(log, c.terms[t].cursor);
  }

  /** What of the slice is still to be delivered. */
  function Rest(log: seq<Event>, n: nat, b: nat): seq<Event>
    requires n <= |log| && b <= |log|
  {
    if b > n then log[n..b] else []
  }

  /** A contiguous push delivers exactly the events between the cursor and its end. */
  lemma PushDelivers(cat: Catalogue, c: Cloud, t: Term, log: seq<Event>, done: seq<Event>,
                     batch: seq<Event>, a: nat, b: nat)
    requires TermInv(c, t, log, done) && IsSlice(log, c.terms[t].cursor, batch, a, b)
    ensures var r := Push(cat, c, t, batch);
            && r.Some?
            && r.value.0 == DeliverAll(cat, c, Tag(t, Rest(log, |done|, b)))
            && TermInv(r.value.0, t, log, done + Rest(log, |done|, b))
  {
    hide StepAll, DeliverAll, SortBySeq, Tag, Start, Finish, TermInv, Unseen, KeySet, StrictlyAscending;
    TermInvBasics(c, t, log, done);
    var here := c.terms[t];
    SliceSorts(log, here.cursor, batch, a, b);
    SliceIsStaleThenRest(c, t, log, done, a, b);
    if b <= |done| {
      StaleBatchIsNoop(cat, c, t, batch);
      NothingDelivers(cat, c, t);
      assert done + [] == done;
    } else {
      var rest := log[|done|..b];
      RestIsUnseen(c, t, log, done, b);
      StepAllIgnoresStale(cat, t, here.cursor, Start(c, t), log[a..|done|], rest);
      StepAllDelivers(cat, c, t, rest);
      var p := StepAll(cat, t, here.cursor, Start(c, t), rest).value;
      AdvanceKeepsTermInv(c, t, log, done, b, p);
    }
  }

  lemma TermInvBasics(c: Cloud, t: Term, log: seq<Event>, done: seq<Event>)
    requires TermInv(c, t, log, done)
    ensures t in c.terms && StrictlyAscending(log) && |done| <= |log| && done == log[..|done|]
  {
  }

  lemma AdvanceKeepsTermInv(c: Cloud, t: Term, log: seq<Event>, done: seq<Event>, b: nat, p: Progress)
    requires TermInv(c, t, log, done) && |done| < b <= |log|
    requires p.reply.upTo == log[b - 1].seqNo
    requires p.ledger.Keys == c.terms[t].ledger.Keys + KeySet(log[|done|..b])
    ensures TermInv(Finish(c, t, p), t, log, done + log[|done|..b])
  {
    hide Acked, KeySet, GoodLog, StrictlyAscending;
    TermInvBasics(c, t, log, done);
    AckedAt(log, b);
    CursorBefore(c, t, log, done, b);
    KeySetJoins(log, |done|, b);
    PrefixJoins(log, done, b);
  }

  lemma PrefixJoins(log: seq<Event>, done: seq<Event>, b: nat)
    requires |done| <= b <= |log| && done == log[..|done|]
    ensures done + log[|done|..b] == log[..b]
  {
  }

  lemma AckedAt(log: seq<Event>, b: nat)
    requires StrictlyAscending(log) && 0 < b <= |log|
    ensures Acked(log, log[b - 1].seqNo) == b
  {
    AckedSplits(log, log[b - 1].seqNo);
  }

  lemma CursorBefore(c: Cloud, t: Term, log: seq<Event>, done: seq<Event>, b: nat)
    requires TermInv(c, t, log, done) && |done| < b <= |log|
    ensures c.terms[t].cursor < log[b - 1].seqNo
  {
    AckedSplits(log, c.terms[t].cursor);
  }

  lemma PushKeepsExactlyOnce(cat: Catalogue, logs: map<Term, seq<Event>>, c0: Cloud, c: Cloud, hist: History,
                             t: Term, batch: seq<Event>) returns (hist': History)
    requires ExactlyOnce(cat, logs, c0, c, hist) && t in logs
    requires Contiguous(logs[t], TermOf(c, t).cursor, batch)
    ensures ExactlyOnce(cat, logs, c0, Take(cat, c, PushStep(t, batch)), hist')
  {
    hide Push, Acked, KeySet, DeliverAll, Of, IsSlice, GoodLog;
    var log, done := logs[t], Of(hist, t);
    assert TermInv(c, t, log, done);
    var a: nat, b: nat :| IsSlice(log, c.terms[t].cursor, batch, a, b);
    assert b <= |log| by { SliceBound(log, c.terms[t].cursor, batch, a, b); }
    var rest := Rest(log, |done|, b);
    PushDelivers(cat, c, t, log, done, batch, a, b);
    var c' := Take(cat, c, PushStep(t, batch));
    hist' := hist + Tag(t, rest);
    TaggedRun(cat, c0, hist, t, rest, t);
    forall u | u in logs ensures TermInv(c', u, logs[u], Of(hist', u)) {
      TaggedRun(cat, c0, hist, t, rest, u);
      TaggedRun(cat, c, hist, t, rest, u);
      assert TermInv(c, u, logs[u], Of(hist, u));
      if u != t {
        assert Of(hist, u) + [] == Of(hist, u);
      }
    }
  }

  lemma SliceBound(log: seq<Event>, cursor: int, batch: seq<Event>, a: nat, b: nat)
    requires IsSlice(log, cursor, batch, a, b)
    ensures b <= |log|
  {
  }

  lemma UnusedIsExactlyOnce(cat: Catalogue, logs: map<Term, seq<Event>>, c0: Cloud)
    requires Unused(logs, c0)
    ensures ExactlyOnce(cat, logs, c0, c0, [])
  {
    forall t | t in logs ensures TermInv(c0, t, logs[t], Of([], t)) {
      AckedSplits(logs[t], 0);
      assert logs[t] != [] ==> logs[t][0].seqNo > 0;
    }
  }

  /** Exactly once, over every run: however batches were reordered, overlapped, repeated
      or aborted, the cloud equals one in-order delivery of each log up to its cursor. */
  lemma {:induction false} EveryRunIsExactlyOnce(cat: Catalogue, logs: map<Term, seq<Event>>, c0: Cloud,
      steps: seq<Step>)
    returns (hist: History)
    requires Unused(logs, c0) && Legal(cat, logs, c0, steps)
    ensures ExactlyOnce(cat, logs, c0, Run(cat, c0, steps), hist)
  {
    hide ExactlyOnce, Push, Contiguous;
    if steps == [] {
      UnusedIsExactlyOnce(cat, logs, c0);
      hist := [];
    } else {
      var front, last := steps[..|steps| - 1], steps[|steps| - 1];
      hist := EveryRunIsExactlyOnce(cat, logs, c0, front);
      if last.PushStep? {
        hist := PushKeepsExactlyOnce(cat, logs, c0, Run(cat, c0, front), hist, last.t, last.batch);
      }
    }
  }

  // ---- two events without identity block a terminal for ever ---------------------------

  ghost predicate BlockedAt(c: Cloud, t: Term, log: seq<Event>, i: nat, j: nat) {
    && i < j < |log| && StrictlyAscending(log)
    && log[i].uuid == "" && log[j].uuid == ""
    && t in c.terms
    && c.terms[t].cursor < log[j].seqNo
    && (log[i].seqNo <= c.terms[t].cursor ==> NO_UUID in c.terms[t].ledger)
  }

  lemma SliceHitsTheRepeat(log: seq<Event>, cursor: int, ledger: Ledger, i: nat, j: nat, a: nat, b: nat)
    requires i < j < b <= |log| && a <= b && StrictlyAscending(log)
    requires a == 0 || log[a - 1].seqNo <= cursor
    requires log[i].uuid == "" && log[j].uuid == "" && cursor < log[j].seqNo
    requires log[i].seqNo <= cursor ==> NO_UUID in ledger
    ensures Repeats(log[a..b], cursor, ledger)
  {
    var events := log[a..b];
    assert a <= j && events[j - a] == log[j];
    if log[i].seqNo > cursor {
      assert a <= i && events[..j - a][i - a] == log[i] && Key(log[i]) == NO_UUID;
    }
    assert NamelessRepeat(events, cursor, ledger, j - a);
  }

  lemma ContiguousPushStaysBlocked(cat: Catalogue, c: Cloud, t: Term, log: seq<Event>, i: nat, j: nat,
      batch: seq<Event>)
    requires BlockedAt(c, t, log, i, j) && Contiguous(log, c.terms[t].cursor, batch)
    ensures BlockedAt(Take(cat, c, PushStep(t, batch)), t, log, i, j)
  {
    hide StepAll, SortBySeq, Repeats, MaxSeq, Recorded;
    var cursor := c.terms[t].cursor;
    var a: nat, b: nat :| IsSlice(log, cursor, batch, a, b);
    SliceSorts(log, cursor, batch, a, b);
    StepAllOutcome(cat, t, cursor, Start(c, t), log[a..b]);
    if b > j {
      SliceHitsTheRepeat(log, cursor, c.terms[t].ledger, i, j, a, b);
    } else {
      SliceBeforeTheRepeat(log, cursor, i, j, a, b);
    }
  }

  lemma SliceBeforeTheRepeat(log: seq<Event>, cursor: int, i: nat, j: nat, a: nat, b: nat)
    requires StrictlyAscending(log) && a <= b <= j < |log| && i < j && log[i].uuid == ""
    requires a == 0 || log[a - 1].seqNo <= cursor
    requires cursor < log[j].seqNo
    ensures cursor <= MaxSeq(cursor, log[a..b]) < log[j].seqNo
    ensures cursor < log[i].seqNo <= MaxSeq(cursor, log[a..b]) ==> Recorded(log[a..b], cursor, NO_UUID)
  {
    var events := log[a..b];
    MaxSeqBounds(cursor, events);
    if cursor < log[i].seqNo <= MaxSeq(cursor, events) {
      assert a <= i < b;
      assert events[i - a] == log[i];
    }
  }

  ghost predicate ContiguousFor(cat: Catalogue, c: Cloud, t: Term, log: seq<Event>, steps: seq<Step>) {
    steps == [] ||
    (var front, last := steps[..|steps| - 1], steps[|steps| - 1];
     && ContiguousFor(cat, c, t, log, front)
     && (last.PushStep? && last.t == t ==> Contiguous(log, TermOf(Run(cat, c, front), t).cursor, last.batch)))
  }

  lemma OtherPushKeepsTerminal(cat: Catalogue, c: Cloud, step: Step, t: Term)
    requires t in c.terms && step.t != t
    ensures t in Take(cat, c, step).terms && Take(cat, c, step).terms[t] == c.terms[t]
  {
    hide StepAll;
  }

  /** A second event without identity is never passed: whatever the terminals push, the
      cursor stays below it, so the rest of that log is never applied. */
  lemma {:induction false} SecondNamelessEventBlocksForEver(cat: Catalogue, c: Cloud, t: Term, log: seq<Event>,
                                                            i: nat, j: nat, steps: seq<Step>)
    requires BlockedAt(c, t, log, i, j) && ContiguousFor(cat, c, t, log, steps)
    ensures BlockedAt(Run(cat, c, steps), t, log, i, j)
  {
    hide Push, StrictlyAscending, Contiguous;
    if steps != [] {
      var front, last := steps[..|steps| - 1], steps[|steps| - 1];
      SecondNamelessEventBlocksForEver(cat, c, t, log, i, j, front);
      var d := Run(cat, c, front);
      if last.PushStep? && last.t == t {
        ContiguousPushStaysBlocked(cat, d, t, log, i, j, last.batch);
        assert last == PushStep(t, last.batch);
      } else if last.PushStep? {
        OtherPushKeepsTerminal(cat, d, last, t);
      }
    }
  }

  /** A request of a terminal the cloud does not know, and an aborted one, change nothing;
      such a terminal counts as standing at 0 with no rows. */
  lemma UnknownTerminalIsIgnored(cat: Catalogue, c: Cloud, t: Term, batch: seq<Event>)
    ensures Take(cat, c, AbortedPush(t, batch)) == c
    ensures t !in c.terms ==> Take(cat, c, PushStep(t, batch)) == c
    ensures t !in c.terms ==> TermOf(c, t).cursor == 0 && TermOf(c, t).ledger == map[]
    ensures t in c.terms && Push(cat, c, t, batch).Some? ==>
      Take(cat, c, PushStep(t, batch)) == Push(cat, c, t, batch).value.0
  {
    hide Push;
  }
}
