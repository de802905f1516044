/** Advisory locks on tables. A transfer or merge takes its tables' locks in ascending
    order without repeats; a fire takes one lock in the same namespace. All are held to
    the end of the transaction. */
module TableLocks {
  import opened Common

  ghost predicate Increasing(s: seq<int>) {
    forall i, j :: 0 <= i < j < |s| ==> s[i] < s[j]
  }

  /** The keys a request needs: every given table id that is neither absent nor 0. */
  ghost function Wanted(ids: seq<Option<int>>): set<int> {
    set i | 0 <= i < |ids| && ids[i].Some? && ids[i].value != 0 :: ids[i].value
  }

  /** The stable order in which `_lock_tables` takes the locks. */
  method LockOrder(ids: seq<Option<int>>) returns (keys: seq<int>)
    ensures Increasing(keys)
    ensures forall k :: k in keys <==> k in Wanted(ids)
  {
    keys := [];
    for n := 0 to |ids|
      invariant Increasing(keys)
      invariant forall k :: k in keys <==> k in Wanted(ids[..n])
    {
      ghost var added := if ids[n].Some? && ids[n].value != 0 then {ids[n].value} else {};
      assert Wanted(ids[..n + 1]) == Wanted(ids[..n]) + added by {
        assert ids[..n + 1] == ids[..n] + [ids[n]];
        WantedGrows(ids[..n], ids[n]);
      }
      if ids[n].Some? && ids[n].value != 0 {
        keys := InsertKey(keys, ids[n].value);
      }
    }
    assert ids[..|ids|] == ids;
  }

  lemma WantedGrows(front: seq<Option<int>>, id: Option<int>)
    ensures Wanted(front + [id]) == Wanted(front) + (if id.Some? && id.value != 0 then {id.value} else {})
  {
    var s := front + [id];
    assert s[|front|] == id;
    forall k | k in Wanted(front) ensures k in Wanted(s) {
      var i :| 0 <= i < |front| && front[i].Some? && front[i].value != 0 && front[i].value == k;
      assert s[i] == front[i];
    }
  }

  method InsertKey(keys: seq<int>, k: int) returns (r: seq<int>)
    requires Increasing(keys)
    ensures Increasing(r)
    ensures forall x :: x in r <==> x in keys || x == k
  {
    var i := 0;
    while i < |keys| && keys[i] < k
      invariant i <= |keys| && forall j :: 0 <= j < i ==> keys[j] < k
    {
      i := i + 1;
    }
    if i < |keys| && keys[i] == k { return keys; }
    r := keys[..i] + [k] + keys[i..];
    forall x ensures x in r <==> x in keys || x == k {
      assert keys == keys[..i] + keys[i..];
    }
  }

  // ---- transactions -----------------------------------------------------------------

  /** A transaction holds the first `held` of its keys until it ends. */
  datatype Txn = Txn(keys: seq<int>, held: nat, ended: bool) {
    ghost predicate Valid() { Increasing(keys) && held <= |keys| }

    ghost predicate Holds(k: int)
      requires Valid()
    {
      !ended && exists p :: 0 <= p < held && keys[p] == k
    }

    predicate Wants() { !ended && held < |keys| }
  }

  type State = seq<Txn>

  datatype Step = Acquire(i: nat) | End(i: nat)   // End: commit, or abort at any point

  ghost predicate Free(s: State, i: nat, k: int)
    requires forall j :: 0 <= j < |s| ==> s[j].Valid()
  {
    forall j :: 0 <= j < |s| && j != i ==> !s[j].Holds(k)
  }

  ghost predicate Valid(s: State) {
    && (forall i :: 0 <= i < |s| ==> s[i].Valid())
    && (forall i, j, k :: 0 <= i < j < |s| && s[i].Holds(k) ==> !s[j].Holds(k))
  }

  /** What the lock manager can let happen next. */
  ghost predicate Enabled(s: State, step: Step)
    requires forall j :: 0 <= j < |s| ==> s[j].Valid()
  {
    && step.i < |s| && !s[step.i].ended
    && (step.Acquire? ==> s[step.i].Wants() && Free(s, step.i, s[step.i].keys[s[step.i].held]))
  }

  ghost function Apply(s: State, step: Step): State
    requires Valid(s) && Enabled(s, step)
  {
    match step
    case Acquire(i) => s[i := s[i].(held := s[i].held + 1)]
    case End(i) => s[i := s[i].(ended := true)]
  }

  /** A live transaction that lacks a lock can take its next one exactly when no other live
      one holds it, and then holds one more; it can end at any time, and holds nothing then. */
  lemma StepsMean(s: State, i: nat, k: int)
    requires Valid(s) && i < |s|
    ensures Enabled(s, Acquire(i)) <==>
      && !s[i].ended && s[i].held < |s[i].keys|
      && forall j, p :: 0 <= j < |s| && j != i && !s[j].ended && 0 <= p < s[j].held ==>
           s[j].keys[p] != s[i].keys[s[i].held]
    ensures Enabled(s, Acquire(i)) ==>
      var t := Apply(s, Acquire(i));
      t == s[i := Txn(s[i].keys, s[i].held + 1, false)] && t[i].Valid() && t[i].Holds(s[i].keys[s[i].held])
    ensures Enabled(s, End(i)) <==> !s[i].ended
    ensures Enabled(s, End(i)) ==>
      var t := Apply(s, End(i)); t == s[i := Txn(s[i].keys, s[i].held, true)] && t[i].Valid() && !t[i].Holds(k)
  {
    if Enabled(s, Acquire(i)) {
      var t := Apply(s, Acquire(i));
      assert t[i].keys[s[i].held] == s[i].keys[s[i].held];
      forall j, p | 0 <= j < |s| && j != i && !s[j].ended && 0 <= p < s[j].held
        ensures s[j].keys[p] != s[i].keys[s[i].held]
      {
        assert !s[j].Holds(s[i].keys[s[i].held]);
      }
    }
  }

  /** Two live transactions never hold one lock. */
  lemma StepKeepsExclusion(s: State, step: Step)
    requires Valid(s) && Enabled(s, step)
    ensures Valid(Apply(s, step))
  {
    var t := Apply(s, step);
    forall i, j, k | 0 <= i < j < |t| && t[i].Holds(k) ensures !t[j].Holds(k) {
      if t[j].Holds(k) {
        HoldsBefore(s, step, i, k);
        HoldsBefore(s, step, j, k);
      }
    }
  }

  lemma HoldsBefore(s: State, step: Step, i: nat, k: int)
    requires Valid(s) && Enabled(s, step) && i < |s|
    requires Apply(s, step)[i].Valid() && Apply(s, step)[i].Holds(k)
    ensures s[i].Holds(k) || (step == Acquire(i) && k == s[i].keys[s[i].held])
  {
    var p :| 0 <= p < Apply(s, step)[i].held && Apply(s, step)[i].keys[p] == k;
    if p < s[i].held { assert s[i].keys[p] == k; }
  }

  // ---- no wait cycle ------------------------------------------------------------------

  ghost predicate WaitsFor(s: State, i: nat, j: nat)
    requires Valid(s)
  {
    i < |s| && j < |s| && i != j && s[i].Wants() && s[j].Holds(s[i].keys[s[i].held])
  }

  /** The lock a transaction waits for is below the one its holder waits for. */
  lemma WaitsUpward(s: State, i: nat, j: nat)
    requires Valid(s) && WaitsFor(s, i, j) && s[j].Wants()
    ensures s[i].keys[s[i].held] < s[j].keys[s[j].held]
  {
  }

  ghost predicate WaitPath(s: State, path: seq<nat>)
    requires Valid(s)
  {
    |path| > 0 && forall m :: 0 <= m < |path| - 1 ==> WaitsFor(s, path[m], path[m + 1])
  }

  lemma {:induction false} PathClimbs(s: State, path: seq<nat>)
    requires Valid(s) && WaitPath(s, path) && |path| > 1
    requires path[|path| - 1] < |s| && s[path[|path| - 1]].Wants()
    ensures path[0] < |s| && s[path[0]].Wants()
    ensures s[path[0]].keys[s[path[0]].held] < s[path[|path| - 1]].keys[s[path[|path| - 1]].held]
  {
    var n := |path| - 1;
    assert WaitsFor(s, path[n - 1], path[n]);
    WaitsUpward(s, path[n - 1], path[n]);
    if n > 1 {
      assert WaitPath(s, path[..n]) by {
        assert forall m :: 0 <= m < n - 1 ==> WaitsFor(s, path[m], path[m + 1]);
      }
      PathClimbs(s, path[..n]);
    }
  }

  /** In no state can transactions wait for each other in a circle. */
  lemma NoWaitCycle(s: State, path: seq<nat>)
    requires Valid(s) && WaitPath(s, path) && |path| > 1
    ensures path[0] != path[|path| - 1]
  {
    assert WaitsFor(s, path[0], path[1]);
    if path[0] == path[|path| - 1] { PathClimbs(s, path); }
  }

  // ---- progress and termination ----------------------------------------------------------

  ghost function Highest(s: State): int {
    if s == [] then 0
    else
      var last := s[|s| - 1];
      var rest := Highest(s[..|s| - 1]);
      if last.keys != [] && last.keys[|last.keys| - 1] > rest then last.keys[|last.keys| - 1] else rest
  }

  lemma {:induction false} HighestBounds(s: State, i: nat, p: nat)
    requires i < |s| && p < |s[i].keys| && Increasing(s[i].keys)
    ensures s[i].keys[p] <= Highest(s)
  {
    if i < |s| - 1 { HighestBounds(s[..|s| - 1], i, p); }
  }

  /** Following the holders upward ends at a transaction that can move. */
  lemma {:induction false} SomeoneCanMove(s: State, i: nat) returns (j: nat)
    requires Valid(s) && i < |s| && !s[i].ended
    ensures j < |s| && !s[j].ended
    ensures Enabled(s, if s[j].Wants() then Acquire(j) else End(j))
    decreases if s[i].Wants() then Highest(s) - s[i].keys[s[i].held] + 1 else 0
  {
    j := i;
    if s[i].Wants() {
      var k := s[i].keys[s[i].held];
      HighestBounds(s, i, s[i].held);
      if !Free(s, i, k) {
        var h: nat :| h < |s| && h != i && s[h].Holds(k);
        if s[h].Wants() {
          WaitsUpward(s, i, h);
          HighestBounds(s, h, s[h].held);
        }
        j := SomeoneCanMove(s, h);
      }
    }
  }

  function Work(s: State): nat {
    if s == [] then 0
    else Work(s[..|s| - 1])
         + (var t := s[|s| - 1]; if t.ended || t.held > |t.keys| then 0 else |t.keys| - t.held + 1)
  }

  lemma {:induction false} WorkAfter(s: State, i: nat, t: Txn)
    requires i < |s|
    requires t.held <= |t.keys| && s[i].held <= |s[i].keys| && !s[i].ended
    requires t.ended || (t.keys == s[i].keys && t.held == s[i].held + 1)
    ensures Work(s[i := t]) < Work(s)
  {
    var n := |s| - 1;
    if i < n {
      assert s[i := t][..n] == s[..n][i := t];
      WorkAfter(s[..n], i, t);
    } else {
      assert s[i := t][..n] == s[..n];
    }
  }

  /** Every step uses up work, and while a transaction is unfinished some transaction
      can step: so whatever the schedule, all of them finish. */
  lemma DeadlockFree(s: State)
    requires Valid(s)
    ensures forall step :: Enabled(s, step) ==> Valid(Apply(s, step)) && Work(Apply(s, step)) < Work(s)
    ensures (exists i :: 0 <= i < |s| && !s[i].ended) ==> exists step :: Enabled(s, step) && !WaitingStep(s, step)
  {
    forall step | Enabled(s, step) ensures Valid(Apply(s, step)) && Work(Apply(s, step)) < Work(s) {
      StepKeepsExclusion(s, step);
      WorkAfter(s, step.i, Apply(s, step)[step.i]);
    }
    if i: nat :| i < |s| && !s[i].ended {
      var j := SomeoneCanMove(s, i);
      var step := if s[j].Wants() then Acquire(j) else End(j);
      assert Enabled(s, step) && !WaitingStep(s, step);
    }
  }

  /** Ending while still wanting a lock is giving up, not progress. */
  ghost predicate WaitingStep(s: State, step: Step) {
    step.End? && step.i < |s| && s[step.i].Wants()
  }

  // ---- the two kinds of transaction the server starts ---------------------------------------

  /** A fire locks its table, or for a table-less order a number derived from its uuid;
      a transfer or merge asks `LockOrder` for its two tables. */
  datatype Request = Fire(table: Option<int>, uuidHash: int) | Move(src: int, dst: int)

  ghost predicate Asks(r: Request, keys: seq<int>) {
    match r
    case Fire(table, hash) => keys == [if table.Some? && table.value != 0 then table.value else hash]
    case Move(src, dst) =>
      Increasing(keys) && forall k :: k in keys <==> k in Wanted([Some(src), Some(dst)])
  }

  /** However many fires, transfers and merges start together, and whatever happened
      next, some unfinished one can take a useful step. */
  lemma ServerNeverDeadlocks(requests: seq<Request>, s: State, run: seq<Step>)
    requires |s| == |requests|
    requires forall i :: 0 <= i < |s| ==> s[i].held == 0 && !s[i].ended && Asks(requests[i], s[i].keys)
    requires Legal(s, run)
    ensures Valid(After(s, run)) && |After(s, run)| == |s|
    ensures (exists i :: 0 <= i < |s| && !After(s, run)[i].ended)
            ==> exists step :: Enabled(After(s, run), step) && !WaitingStep(After(s, run), step)
    ensures |run| <= Work(s)
  {
    LegalRunsStayValid(s, run);
    DeadlockFree(After(s, run));
  }

  ghost predicate Legal(s: State, run: seq<Step>)
    decreases |run|
  {
    run == [] || (Valid(s) && Enabled(s, run[0]) && Legal(Apply(s, run[0]), run[1..]))
  }

  ghost function After(s: State, run: seq<Step>): State
    requires Legal(s, run)
    decreases |run|
  {
    if run == [] then s else After(Apply(s, run[0]), run[1..])
  }

  lemma {:induction false} LegalRunsStayValid(s: State, run: seq<Step>)
    requires Valid(s) && Legal(s, run)
    ensures Valid(After(s, run)) && |After(s, run)| == |s|
    ensures |run| + Work(After(s, run)) <= Work(s)
    decreases |run|
  {
    if run != [] {
      DeadlockFree(s);
      LegalRunsStayValid(Apply(s, run[0]), run[1..]);
    }
  }
}
