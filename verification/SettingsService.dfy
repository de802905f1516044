/** The settings service: resolving all keys at once, saving a user's own values, and
    resetting them. */
module SettingsService {
  import opened Common
  import opened SettingDefs
  import opened Settings

  /** A key with a free winner has no entry in `locks`. */
  datatype Resolution = Resolution(
    effective: map<string, Val>, provenance: map<string, Provenance>,
    locks: map<string, Policy>, overrides: map<string, Val>)

  /** All catalogue keys as they stand after `n` scopes. */
  ghost predicate Folded(db: Db, ctx: Ctx, key: string, n: nat,
      effective: map<string, Val>, provenance: map<string, Provenance>,
      locks: map<string, Policy>, lockedBy: map<string, nat>)
    requires key in db.defs
  {
    && key in effective && effective[key] == ValueAfter(db, ctx, key, n)
    && key in provenance && provenance[key] == SourceAfter(db, ctx, key, n)
    && (if PolicyAfter(db, ctx, key, n) == Free then key !in locks
        else key in locks && locks[key] == PolicyAfter(db, ctx, key, n))
    && (key in lockedBy <==> PolicyAfter(db, ctx, key, n) == Locked)
  }

  /** Two partial results say the same about a key. */
  ghost predicate Agree(key: string,
      e0: map<string, Val>, p0: map<string, Provenance>, l0: map<string, Policy>, b0: map<string, nat>,
      e: map<string, Val>, p: map<string, Provenance>, l: map<string, Policy>, b: map<string, nat>)
  {
    && (key in e0 ==> key in e && e[key] == e0[key]) && (key in p0 ==> key in p && p[key] == p0[key])
    && (key in l <==> key in l0) && (key in l0 ==> l[key] == l0[key])
    && (key in b <==> key in b0)
  }

  lemma FoldedAgrees(db: Db, ctx: Ctx, key: string, n: nat,
      e0: map<string, Val>, p0: map<string, Provenance>, l0: map<string, Policy>, b0: map<string, nat>,
      e: map<string, Val>, p: map<string, Provenance>, l: map<string, Policy>, b: map<string, nat>)
    requires key in db.defs && Folded(db, ctx, key, n, e0, p0, l0, b0)
    requires Agree(key, e0, p0, l0, b0, e, p, l, b)
    ensures Folded(db, ctx, key, n, e, p, l, b)
  {
    hide ValueAfter, SourceAfter, PolicyAfter;
  }

  lemma FoldedSkips(db: Db, ctx: Ctx, key: string, n: nat,
      e: map<string, Val>, p: map<string, Provenance>, l: map<string, Policy>, b: map<string, nat>)
    requires key in db.defs && Folded(db, ctx, key, n, e, p, l, b) && At(db, ctx, key, n).None?
    ensures Folded(db, ctx, key, n + 1, e, p, l, b)
  {
    hide ValueAfter, SourceAfter, PolicyAfter, At;
    FoldedOne(db, ctx, key, n);
  }

  /** The published part of the result for one key. */
  ghost predicate Entry(db: Db, ctx: Ctx, key: string,
      e: map<string, Val>, p: map<string, Provenance>, l: map<string, Policy>)
    requires key in db.defs
  {
    && key in e && e[key] == ValueAfter(db, ctx, key, SCOPE_COUNT)
    && key in p && p[key] == SourceAfter(db, ctx, key, SCOPE_COUNT)
    && (key in l <==> PolicyAfter(db, ctx, key, SCOPE_COUNT) != Free)
    && (key in l ==> l[key] == PolicyAfter(db, ctx, key, SCOPE_COUNT))
  }

  lemma FoldedEntry(db: Db, ctx: Ctx, key: string,
      e: map<string, Val>, p: map<string, Provenance>, l: map<string, Policy>, b: map<string, nat>)
    requires key in db.defs && Folded(db, ctx, key, SCOPE_COUNT, e, p, l, b)
    ensures Entry(db, ctx, key, e, p, l)
  {
    hide ValueAfter, SourceAfter, PolicyAfter;
  }

  lemma FoldedNothing(db: Db, ctx: Ctx, key: string, e: map<string, Val>, p: map<string, Provenance>)
    requires key in db.defs && key in e && key in p
    requires e[key] == Coerce(db.defs[key], db.defs[key].default) && p[key] == Default
    ensures Folded(db, ctx, key, 0, e, p, map[], map[])
  {
  }

  /** What folding one more scope does to one key. */
  lemma FoldedOne(db: Db, ctx: Ctx, key: string, n: nat)
    requires key in db.defs
    ensures
      if At(db, ctx, key, n).None? || PolicyAfter(db, ctx, key, n) == Locked
      then && ValueAfter(db, ctx, key, n + 1) == ValueAfter(db, ctx, key, n)
           && SourceAfter(db, ctx, key, n + 1) == SourceAfter(db, ctx, key, n)
           && PolicyAfter(db, ctx, key, n + 1) == PolicyAfter(db, ctx, key, n)
      else var c := At(db, ctx, key, n).value;
           && ValueAfter(db, ctx, key, n + 1) == Coerce(db.defs[key], c.value)
           && SourceAfter(db, ctx, key, n + 1) ==
               By(ScopeAt(n), c.source, c.policy, if c.policy == Bounded then c.bounded else "")
           && PolicyAfter(db, ctx, key, n + 1) == c.policy
  {
    hide At, Coerce;
  }

  /** The key a caller may save: known, valid, working, and not locked for this caller. */
  predicate Accepts(db: Db, ctx: Ctx, key: string, a: Arg) {
    && key in db.defs && ValidText(db.defs[key], Checked(a))
    && db.defs[key].status == Working
    && PolicyAfter(db, ctx, key, SCOPE_COUNT) != Locked
  }

  function UserSlot(ctx: Ctx, key: string): Slot { Slot(key, User, ctx.user) }

  /** An existing row keeps its policy and note; a new one is free. */
  function SavedRow(db: Db, ctx: Ctx, key: string, a: Arg): Row {
    var slot := UserSlot(ctx, key);
    if slot in db.rows then db.rows[slot].(value := Stored(a)) else Row(Stored(a), Free, "", "")
  }

  /** The rows once the given keys are saved. */
  function SavedRows(db: Db, ctx: Ctx, values: map<string, Arg>, keys: set<string>): map<Slot, Row>
    requires keys <= values.Keys
  {
    map slot | slot in db.rows.Keys + (set k | k in keys :: UserSlot(ctx, k)) ::
      if slot.key in keys && slot == UserSlot(ctx, slot.key) then SavedRow(db, ctx, slot.key, values[slot.key])
      else db.rows[slot]
  }

  function Accepted(db: Db, ctx: Ctx, values: map<string, Arg>): set<string> {
    set k | k in values && Accepts(db, ctx, k, values[k])
  }

  function Save(db: Db, ctx: Ctx, values: map<string, Arg>): Db {
    db.(rows := SavedRows(db, ctx, values, Accepted(db, ctx, values)))
  }

  lemma SaveMore(db: Db, ctx: Ctx, values: map<string, Arg>, keys: set<string>, key: string)
    requires keys <= values.Keys && key in values && key !in keys
    ensures var slot := UserSlot(ctx, key); var rows := SavedRows(db, ctx, values, keys);
      && (slot in rows <==> slot in db.rows)
      && (slot in rows ==> rows[slot] == db.rows[slot])
      && SavedRows(db, ctx, values, keys + {key}) == rows[slot := SavedRow(db, ctx, key, values[key])]
  {
    hide SavedRow;
    var slot := UserSlot(ctx, key);
    var more, rows := SavedRows(db, ctx, values, keys + {key}), SavedRows(db, ctx, values, keys);
    assert forall k :: UserSlot(ctx, k) == slot ==> k == key;
    assert more.Keys == rows.Keys + {slot};
  }

  lemma SavedNothing(db: Db, ctx: Ctx, values: map<string, Arg>)
    ensures SavedRows(db, ctx, values, {}) == db.rows
  {
  }

  /** An accepted value whose stored text fails the row's own check. */
  predicate Unstorable(db: Db, ctx: Ctx, values: map<string, Arg>, key: string) {
    key in values && Accepts(db, ctx, key, values[key]) && !ValidText(db.defs[key], Stored(values[key]))
  }

  predicate Resets(db: Db, ctx: Ctx, section: Option<string>, slot: Slot) {
    && slot.scope == User && slot.ref == ctx.user
    && (section.Some? ==> slot.key in db.defs && db.defs[slot.key].category == section.value)
  }

  function Reset(db: Db, ctx: Ctx, section: Option<string>): Db {
    db.(rows := map slot | slot in db.rows && !Resets(db, ctx, section, slot) :: db.rows[slot])
  }

  datatype SaveError = NoUser | StoredValueRefused
  datatype Saved = Saved(saved: set<string>, rejected: set<string>)

  method Judge(db: Db, ctx: Ctx, key: string, a: Arg, locks: map<string, Policy>)
      returns (accepted: bool, storable: bool)
    requires key in db.defs ==>
        (key in locks && locks[key] == Locked <==> PolicyAfter(db, ctx, key, SCOPE_COUNT) == Locked)
    ensures accepted <==> Accepts(db, ctx, key, a)
    ensures accepted ==> (storable <==> ValidText(db.defs[key], Stored(a)))
  {
    hide PolicyAfter, ValidText;
    if key !in db.defs || !ValidText(db.defs[key], Checked(a)) { return false, false; }
    if db.defs[key].status != Working { return false, false; }
    if key in locks && locks[key] == Locked { return false, false; }
    return true, ValidText(db.defs[key], Stored(a));
  }

  /** The loop over the values of one save. It stops at the first value whose stored
      text fails the row's own check. */
  method SaveEach(db: Db, ctx: Ctx, values: map<string, Arg>, locks: map<string, Policy>)
      returns (bad: Option<string>, next: map<Slot, Row>, r: Saved)
    requires forall key :: key in db.defs ==>
      (key in locks && locks[key] == Locked <==> PolicyAfter(db, ctx, key, SCOPE_COUNT) == Locked)
    ensures bad.Some? ==> Unstorable(db, ctx, values, bad.value)
    ensures bad.None? ==> forall key :: !Unstorable(db, ctx, values, key)
    ensures bad.None? ==> r.saved == Accepted(db, ctx, values) && r.rejected == values.Keys - r.saved
    ensures bad.None? ==> next == SavedRows(db, ctx, values, r.saved)
  {
    hide SavedRows, Accepts, ValidText, Stored;
    var saved, rejected, todo := {}, {}, values.Keys;
    next := db.rows;
    SavedNothing(db, ctx, values);
    while todo != {}
      invariant todo <= values.Keys && saved <= values.Keys && saved !! todo
      invariant forall key :: key in values ==> key in todo || key in saved || key in rejected
      invariant forall key :: key in saved ==> Accepts(db, ctx, key, values[key]) && !Unstorable(db, ctx, values, key)
      invariant forall key :: key in rejected ==> key in values && !Accepts(db, ctx, key, values[key])
      invariant next == SavedRows(db, ctx, values, saved)
      decreases |todo|
    {
      var key :| key in todo;
      todo := todo - {key};
      var a := values[key];
      var accepted, storable := Judge(db, ctx, key, a, locks);
      if !accepted {
        rejected := rejected + {key};
      } else {
        if !storable { return Some(key), next, Saved(saved, rejected); }
        var slot := UserSlot(ctx, key);
        SaveMore(db, ctx, values, saved, key);
        next := next[slot := if slot in next then next[slot].(value := Stored(a)) else Row(Stored(a), Free, "", "")];
        saved := saved + {key};
      }
    }
    assert saved == Accepted(db, ctx, values);
    bad, r := None, Saved(saved, rejected);
  }

  class Service {
    const defs: map<string, Def>
    const assignments: seq<Assignment>
    var rows: map<Slot, Row>

    constructor (db: Db)
      ensures Now() == db
    {
      defs, assignments, rows := db.defs, db.assignments, db.rows;
    }

    function Now(): Db
      reads this
    {
      Db(defs, assignments, rows)
    }

    /** One scope's contributions by key: templates first, direct rows over them. */
    method Gather(ctx: Ctx, n: nat) returns (c: map<string, Contribution>)
      requires Applies(ctx, ScopeAt(n))
      ensures forall key :: if key in c then At(Now(), ctx, key, n) == Some(c[key]) else At(Now(), ctx, key, n).None?
    {
      var scope := ScopeAt(n);
      var ref := RefOf(ctx, scope);
      c := map[];
      for i := 0 to |assignments|
        invariant forall key :: if key in c then TemplateFor(assignments[..i], scope, ref, key) == Some(c[key])
                                else TemplateFor(assignments[..i], scope, ref, key).None?
      {
        var a := assignments[i];
        assert assignments[..i + 1] == assignments[..i] + [a];
        ghost var before := c;
        if Counts(a, scope, ref) {
          for j := 0 to |a.template.lines|
            invariant forall key ::
              var own := LineFor(a.template.lines[..j], key, a.template.name);
              if own.Some? then key in c && own == Some(c[key])
              else if key in before then key in c && c[key] == before[key] else key !in c
          {
            var l := a.template.lines[j];
            assert a.template.lines[..j + 1] == a.template.lines[..j] + [l];
            c := c[l.key := Contribution(l.value, l.policy, FromTemplate(a.template.name), l.bounded)];
          }
          assert a.template.lines[..|a.template.lines|] == a.template.lines;
        }
      }
      assert assignments[..|assignments|] == assignments;
      var todo := set slot | slot in rows && slot.scope == scope && slot.ref == ref;
      ghost var templates := c;
      while todo != {}
        invariant forall slot :: slot in todo ==> slot in rows && slot.scope == scope && slot.ref == ref
        invariant forall key ::
          var slot := Slot(key, scope, ref);
          if slot in rows && slot !in todo then key in c && c[key] == OfRow(rows[slot], scope, ref)
          else if key in templates then key in c && c[key] == templates[key] else key !in c
        decreases |todo|
      {
        var slot :| slot in todo;
        c := c[slot.key := OfRow(rows[slot], scope, ref)];
        todo := todo - {slot};
      }
    }

    /** Resolves every catalogue key by the rule, with its source and its lock. */
    method Resolve(ctx: Ctx) returns (r: Resolution)
      ensures r.effective.Keys == defs.Keys && r.provenance.Keys == defs.Keys
      ensures forall key :: key in defs ==>
        && r.effective[key] == ValueAfter(Now(), ctx, key, SCOPE_COUNT)
        && r.provenance[key] == SourceAfter(Now(), ctx, key, SCOPE_COUNT)
      ensures forall key :: key in r.locks <==> key in defs && PolicyAfter(Now(), ctx, key, SCOPE_COUNT) != Free
      ensures forall key :: key in r.locks ==> r.locks[key] == PolicyAfter(Now(), ctx, key, SCOPE_COUNT)
      ensures forall key :: key in r.overrides <==>
        ctx.user != "" && UserSlot(ctx, key) in rows && key in defs
            && PolicyAfter(Now(), ctx, key, SCOPE_COUNT) != Locked
      ensures forall key :: key in r.overrides ==> r.overrides[key] == Coerce(defs[key], rows[UserSlot(ctx, key)].value)
    {
      var effective, provenance, locks, lockedBy := Cascade(ctx);
      var overrides := Overrides(ctx, locks);
      forall key | key in defs ensures Entry(Now(), ctx, key, effective, provenance, locks) {
        FoldedEntry(Now(), ctx, key, effective, provenance, locks, lockedBy);
      }
      hide ValueAfter, SourceAfter, PolicyAfter, Coerce;
      r := Resolution(effective, provenance, locks, overrides);
    }

    /** The user's own rows, locked keys aside. */
    method Overrides(ctx: Ctx, locks: map<string, Policy>) returns (overrides: map<string, Val>)
      ensures forall key :: key in overrides <==>
        ctx.user != "" && UserSlot(ctx, key) in rows && key in defs && !(key in locks && locks[key] == Locked)
      ensures forall key :: key in overrides ==> overrides[key] == Coerce(defs[key], rows[UserSlot(ctx, key)].value)
    {
      hide Coerce;
      overrides := map[];
      if ctx.user == "" { return; }
      var todo := set slot | slot in rows && slot.scope == User && slot.ref == ctx.user;
      while todo != {}
        invariant forall slot :: slot in todo ==> slot in rows && slot == UserSlot(ctx, slot.key)
        invariant forall key :: key in overrides <==>
          UserSlot(ctx, key) in rows && UserSlot(ctx, key) !in todo && key in defs
              && !(key in locks && locks[key] == Locked)
        invariant forall key :: key in overrides ==> overrides[key] == Coerce(defs[key], rows[UserSlot(ctx, key)].value)
        decreases |todo|
      {
        var slot :| slot in todo;
        todo := todo - {slot};
        if slot.key in defs && !(slot.key in locks && locks[slot.key] == Locked) {
          overrides := overrides[slot.key := Coerce(defs[slot.key], rows[slot].value)];
        }
      }
    }

    /** Starts from the defaults and folds scope after scope. */
    method Cascade(ctx: Ctx)
      returns (effective: map<string, Val>, provenance: map<string, Provenance>, locks: map<string, Policy>,
          lockedBy: map<string, nat>)
      ensures effective.Keys == defs.Keys && provenance.Keys == defs.Keys && locks.Keys <= defs.Keys
      ensures forall key :: key in defs ==> Folded(Now(), ctx, key, SCOPE_COUNT, effective, provenance, locks, lockedBy)
    {
      hide At, Coerce, Folded;
      effective := map key | key in defs :: Coerce(defs[key], defs[key].default);
      provenance := map key | key in defs :: Default;
      locks, lockedBy := map[], map[];
      forall key | key in defs ensures Folded(Now(), ctx, key, 0, effective, provenance, locks, lockedBy) {
        FoldedNothing(Now(), ctx, key, effective, provenance);
      }
      for n := 0 to SCOPE_COUNT
        invariant effective.Keys == defs.Keys && provenance.Keys == defs.Keys && locks.Keys <= defs.Keys
        invariant forall key :: key in defs ==> Folded(Now(), ctx, key, n, effective, provenance, locks, lockedBy)
      {
        if Applies(ctx, ScopeAt(n)) {
          var c := Gather(ctx, n);
          effective, provenance, locks, lockedBy := Fold(ctx, n, c, effective, provenance, locks, lockedBy);
        } else {
          forall key | key in defs ensures Folded(Now(), ctx, key, n + 1, effective, provenance, locks, lockedBy) {
            NothingAt(Now(), ctx, key, n);
            FoldedSkips(Now(), ctx, key, n, effective, provenance, locks, lockedBy);
          }
        }
      }
    }

    /** Folds one scope's contributions into the result so far. */
    method Fold(ctx: Ctx, n: nat, c: map<string, Contribution>, effective0: map<string, Val>,
        provenance0: map<string, Provenance>, locks0: map<string, Policy>, lockedBy0: map<string, nat>)
      returns (effective: map<string, Val>, provenance: map<string, Provenance>, locks: map<string, Policy>,
          lockedBy: map<string, nat>)
      requires forall key :: if key in c then At(Now(), ctx, key, n) == Some(c[key]) else At(Now(), ctx, key, n).None?
      requires effective0.Keys == defs.Keys && provenance0.Keys == defs.Keys && locks0.Keys <= defs.Keys
      requires forall key :: key in defs ==> Folded(Now(), ctx, key, n, effective0, provenance0, locks0, lockedBy0)
      ensures effective.Keys == defs.Keys && provenance.Keys == defs.Keys && locks.Keys <= defs.Keys
      ensures forall key :: key in defs ==> Folded(Now(), ctx, key, n + 1, effective, provenance, locks, lockedBy)
    {
      hide Folded, Agree, At;
      effective, provenance, locks, lockedBy := effective0, provenance0, locks0, lockedBy0;
      var todo := c.Keys;
      while todo != {}
        invariant todo <= c.Keys
        invariant effective.Keys == defs.Keys && provenance.Keys == defs.Keys && locks.Keys <= defs.Keys
        invariant forall key :: key in defs && (key in todo || key !in c) ==>
            Folded(Now(), ctx, key, n, effective, provenance, locks, lockedBy)
        invariant forall key :: key in defs && key in c && key !in todo ==>
            Folded(Now(), ctx, key, n + 1, effective, provenance, locks, lockedBy)
        decreases |todo|
      {
        var key :| key in todo;
        todo := todo - {key};
        if key in defs {
          ghost var e0, p0, l0, b0 := effective, provenance, locks, lockedBy;
          effective, provenance, locks, lockedBy :=
            FoldKey(ctx, n, key, c[key], effective, provenance, locks, lockedBy);
          forall k, m | k in defs && k != key && Folded(Now(), ctx, k, m, e0, p0, l0, b0)
            ensures Folded(Now(), ctx, k, m, effective, provenance, locks, lockedBy)
          {
            FoldedAgrees(Now(), ctx, k, m, e0, p0, l0, b0, effective, provenance, locks, lockedBy);
          }
        }
      }
      forall key | key in defs && key !in c
        ensures Folded(Now(), ctx, key, n + 1, effective, provenance, locks, lockedBy)
      {
        FoldedSkips(Now(), ctx, key, n, effective, provenance, locks, lockedBy);
      }
    }

    method FoldKey(ctx: Ctx, n: nat, key: string, c: Contribution, effective0: map<string, Val>,
        provenance0: map<string, Provenance>, locks0: map<string, Policy>, lockedBy0: map<string, nat>)
      returns (effective: map<string, Val>, provenance: map<string, Provenance>, locks: map<string, Policy>,
          lockedBy: map<string, nat>)
      requires key in defs && At(Now(), ctx, key, n) == Some(c)
      requires Folded(Now(), ctx, key, n, effective0, provenance0, locks0, lockedBy0)
      ensures effective.Keys == effective0.Keys && provenance.Keys == provenance0.Keys
      ensures locks.Keys <= locks0.Keys + {key}
      ensures forall k :: k != key ==>
          Agree(k, effective0, provenance0, locks0, lockedBy0, effective, provenance, locks, lockedBy)
      ensures Folded(Now(), ctx, key, n + 1, effective, provenance, locks, lockedBy)
    {
      hide At, Coerce, ValueAfter, SourceAfter, PolicyAfter;
      effective, provenance, locks, lockedBy := effective0, provenance0, locks0, lockedBy0;
      FoldedOne(Now(), ctx, key, n);
      if key !in lockedBy {
        effective := effective[key := Coerce(defs[key], c.value)];
        var bounded := if c.policy == Bounded then c.bounded else "";
        provenance := provenance[key := By(ScopeAt(n), c.source, c.policy, bounded)];
        if c.policy == Locked {
          locks, lockedBy := locks[key := Locked], lockedBy[key := n];
        } else if c.policy == Bounded {
          locks := locks[key := Bounded];
        } else {
          locks := locks - {key};
        }
      }
    }

    /** All accepted values are stored together, or nothing is. */
    method SaveUser(ctx: Ctx, values: map<string, Arg>) returns (r: Result<Saved, SaveError>)
      modifies this
      ensures ctx.user == "" ==> r == Failure(NoUser)
      ensures ctx.user != "" ==>
          (r == Failure(StoredValueRefused) <==> exists key :: Unstorable(old(Now()), ctx, values, key))
      ensures ctx.user != "" ==> (r.Failure? ==> r == Failure(StoredValueRefused))
      ensures r.Failure? ==> Now() == old(Now())
      ensures r.Success? ==> Now() == Save(old(Now()), ctx, values)
      ensures r.Success? ==> r.value.saved == Accepted(old(Now()), ctx, values)
      ensures r.Success? ==> r.value.rejected == values.Keys - r.value.saved
    {
      hide PolicyAfter, SavedRows, Unstorable, Accepted, ValueAfter, SourceAfter, At;
      if ctx.user == "" { return Failure(NoUser); }
      var resolved := Resolve(ctx);
      var bad, next, saved := SaveEach(Now(), ctx, values, resolved.locks);
      if bad.Some? { return Failure(StoredValueRefused); }
      rows := next;
      r := Success(saved);
    }

    method ResetUser(ctx: Ctx, section: Option<string>) returns (removed: nat)
      modifies this
      ensures if ctx.user == "" then Now() == old(Now()) && removed == 0
              else Now() == Reset(old(Now()), ctx, section) && removed == |old(rows)| - |rows|
    {
      if ctx.user == "" { return 0; }
      var gone := set slot | slot in rows && Resets(Now(), ctx, section, slot);
      var kept := rows - gone;
      assert kept == Reset(Now(), ctx, section).rows;
      Removed(rows, gone);
      removed := |gone|;
      rows := kept;
    }
  }

  lemma Removed(rows: map<Slot, Row>, gone: set<Slot>)
    requires gone <= rows.Keys
    ensures |gone| == |rows| - |rows - gone|
  {
    assert (rows - gone).Keys == rows.Keys - gone;
    assert |rows.Keys| == |rows| && |(rows - gone).Keys| == |rows - gone|;
  }

  lemma NothingAt(db: Db, ctx: Ctx, key: string, n: nat)
    requires !Applies(ctx, ScopeAt(n))
    ensures At(db, ctx, key, n).None?
  {
  }
}
