/** The cascade by the names of its scopes: what each scope says for a caller, which of them
    rules, and what a reset removes. */
module SettingsRule {
  import opened Common
  import opened SettingDefs
  import opened Settings
  import opened SettingsService

  /** The scopes a later one can be overruled by. */
  function Above(s: Scope): set<Scope> {
    match s
    case Platform => {}
    case Organization => {Platform}
    case Brand => {Platform, Organization}
    case Branch => {Platform, Organization, Brand}
    case Role => {Platform, Organization, Brand, Branch}
    case User => {Platform, Organization, Brand, Branch, Role}
    case Device => {Platform, Organization, Brand, Branch, Role, User}
  }

  /** What identifies the caller within a scope: its own field, or nothing on the platform. */
  ghost predicate Identified(ctx: Ctx, s: Scope, ref: string) {
    match s
    case Platform => ref == ""
    case Organization => ref == ctx.company && ref != ""
    case Brand => ref == ctx.brand && ref != ""
    case Branch => ref == ctx.branch && ref != ""
    case Role => ref == ctx.role && ref != ""
    case User => ref == ctx.user && ref != ""
    case Device => ref == ctx.device && ref != ""
  }

  // ---- what one scope says ---------------------------------------------------------------------

  /** The scope's own row for the key. */
  ghost predicate RowSays(db: Db, s: Scope, ref: string, key: string, c: Contribution) {
    && Slot(key, s, ref) in db.rows
    && var row := db.rows[Slot(key, s, ref)];
       && c.value == row.value && c.policy == row.policy && c.bounded == row.bounded
       && c.source == (if row.note == "" then FromScope(s, ref) else FromNote(row.note))
  }

  predicate HasKey(t: Template, key: string) { exists j :: 0 <= j < |t.lines| && t.lines[j].key == key }

  /** A published template assigned to just this scope and reference, and switched on. */
  predicate InForce(a: Assignment, s: Scope, ref: string) {
    a.active && a.template.published && a.scope == s && a.ref == ref
  }

  /** The last line for the key of the last template in force that has one. */
  ghost predicate TemplateSays(db: Db, s: Scope, ref: string, key: string, c: Contribution) {
    exists i, j :: TemplateLineSays(db.assignments, s, ref, key, i, j, c)
  }

  ghost predicate TemplateLineSays(asgs: seq<Assignment>, s: Scope, ref: string, key: string, i: int, j: int,
                                   c: Contribution)
  {
    && 0 <= i < |asgs| && InForce(asgs[i], s, ref)
    && (forall k :: i < k < |asgs| && InForce(asgs[k], s, ref) ==> !HasKey(asgs[k].template, key))
    && var t := asgs[i].template;
       && IsLast(t.lines, key, j)
       && c.value == t.lines[j].value && c.policy == t.lines[j].policy && c.bounded == t.lines[j].bounded
       && c.source == FromTemplate(t.name)
  }

  /** A scope says what its own row says, or without one what its templates say. */
  ghost predicate Says(db: Db, ctx: Ctx, key: string, s: Scope, c: Contribution) {
    exists ref :: Identified(ctx, s, ref)
      && if Slot(key, s, ref) in db.rows then RowSays(db, s, ref, key, c) else TemplateSays(db, s, ref, key, c)
  }

  ghost predicate IsLast(lines: seq<TemplateLine>, key: string, j: int) {
    0 <= j < |lines| && lines[j].key == key && forall k :: j < k < |lines| ==> lines[k].key != key
  }

  lemma NoLineFor(lines: seq<TemplateLine>, key: string, name: string)
    ensures LineFor(lines, key, name).None? <==> forall j :: 0 <= j < |lines| ==> lines[j].key != key
  {
    if lines != [] {
      var n := |lines| - 1;
      NoLineFor(lines[..n], key, name);
      assert forall j :: 0 <= j < n ==> lines[..n][j] == lines[j];
    }
  }

  lemma {:induction false} LastLine(lines: seq<TemplateLine>, key: string, name: string) returns (j: int)
    requires LineFor(lines, key, name).Some?
    ensures IsLast(lines, key, j)
    ensures LineFor(lines, key, name).value
         == Contribution(lines[j].value, lines[j].policy, FromTemplate(name), lines[j].bounded)
  {
    var n := |lines| - 1;
    if lines[n].key == key {
      j := n;
    } else {
      j := LastLine(lines[..n], key, name);
      assert lines[..n][j] == lines[j];
      assert forall k :: j < k < n ==> lines[k] == lines[..n][k];
    }
  }

  lemma NoLine(asgs: seq<Assignment>, s: Scope, ref: string, key: string, i: nat)
    requires i < |asgs|
    ensures (Counts(asgs[i], s, ref) && LineFor(asgs[i].template.lines, key, asgs[i].template.name).Some?)
        <==> InForce(asgs[i], s, ref) && HasKey(asgs[i].template, key)
  {
    NoLineFor(asgs[i].template.lines, key, asgs[i].template.name);
  }

  lemma {:induction false} LastTemplate(asgs: seq<Assignment>, s: Scope, ref: string, key: string)
    ensures TemplateFor(asgs, s, ref, key).Some? ==>
      exists i, j :: TemplateLineSays(asgs, s, ref, key, i, j, TemplateFor(asgs, s, ref, key).value)
    ensures TemplateFor(asgs, s, ref, key).None? ==>
      forall i :: 0 <= i < |asgs| && InForce(asgs[i], s, ref) ==> !HasKey(asgs[i].template, key)
  {
    if asgs != [] {
      var n := |asgs| - 1;
      LastTemplate(asgs[..n], s, ref, key);
      NoLine(asgs, s, ref, key, n);
      hide LineFor, HasKey, InForce;
      if InForce(asgs[n], s, ref) && HasKey(asgs[n].template, key) {
        var j := LastTemplateHas(asgs, s, ref, key);
      } else {
        EarlierTemplate(asgs, s, ref, key);
        assert forall i :: 0 <= i < n ==> asgs[..n][i] == asgs[i];
        if TemplateFor(asgs, s, ref, key).Some? {
          var c := TemplateFor(asgs, s, ref, key).value;
          var i, j :| TemplateLineSays(asgs[..n], s, ref, key, i, j, c);
          assert TemplateLineSays(asgs, s, ref, key, i, j, c);
        }
      }
    }
  }

  lemma LastTemplateHas(asgs: seq<Assignment>, s: Scope, ref: string, key: string) returns (j: int)
    requires asgs != [] && InForce(asgs[|asgs| - 1], s, ref) && HasKey(asgs[|asgs| - 1].template, key)
    ensures TemplateFor(asgs, s, ref, key).Some?
    ensures TemplateLineSays(asgs, s, ref, key, |asgs| - 1, j, TemplateFor(asgs, s, ref, key).value)
  {
    var n := |asgs| - 1;
    var t := asgs[n].template;
    NoLine(asgs, s, ref, key, n);
    var c := TemplateFor(asgs, s, ref, key).value;
    j := LastLine(t.lines, key, t.name);
    assert TemplateLineSays(asgs, s, ref, key, n, j, c);
  }

  lemma EarlierTemplate(asgs: seq<Assignment>, s: Scope, ref: string, key: string)
    requires asgs != [] && !(InForce(asgs[|asgs| - 1], s, ref) && HasKey(asgs[|asgs| - 1].template, key))
    ensures TemplateFor(asgs, s, ref, key) == TemplateFor(asgs[..|asgs| - 1], s, ref, key)
    ensures forall i, j, c :: TemplateLineSays(asgs[..|asgs| - 1], s, ref, key, i, j, c) ==>
      TemplateLineSays(asgs, s, ref, key, i, j, c)
  {
    NoLine(asgs, s, ref, key, |asgs| - 1);
    assert forall i :: 0 <= i < |asgs| - 1 ==> asgs[..|asgs| - 1][i] == asgs[i];
    hide HasKey, InForce;
  }

  lemma OneLineSays(asgs: seq<Assignment>, s: Scope, ref: string, key: string, i: int, j: int, c: Contribution,
                    k: int, l: int, d: Contribution)
    requires TemplateLineSays(asgs, s, ref, key, i, j, c) && TemplateLineSays(asgs, s, ref, key, k, l, d)
    ensures c == d
  {
    assert HasKey(asgs[i].template, key) && HasKey(asgs[k].template, key);
    assert i == k;
    assert j == l;
  }

  lemma TemplateSaysIt(db: Db, s: Scope, ref: string, key: string, c: Contribution)
    ensures TemplateSays(db, s, ref, key, c) <==> TemplateFor(db.assignments, s, ref, key) == Some(c)
  {
    LastTemplate(db.assignments, s, ref, key);
    var found := TemplateFor(db.assignments, s, ref, key);
    forall i, j | TemplateLineSays(db.assignments, s, ref, key, i, j, c) ensures found == Some(c) {
      assert HasKey(db.assignments[i].template, key);
      if found.Some? {
        var k, l :| TemplateLineSays(db.assignments, s, ref, key, k, l, found.value);
        OneLineSays(db.assignments, s, ref, key, i, j, c, k, l, found.value);
      }
    }
  }

  /** The number under which the fold visits a scope. */
  function NumberOf(s: Scope): nat {
    match s
    case Platform => 0 case Organization => 1 case Brand => 2 case Branch => 3
    case Role => 4 case User => 5 case Device => 6
  }

  lemma NumbersAreOrder(s: Scope, t: Scope)
    ensures NumberOf(s) < SCOPE_COUNT && ScopeAt(NumberOf(s)) == s
    ensures t in Above(s) <==> NumberOf(t) < NumberOf(s)
    ensures forall i: nat :: i < SCOPE_COUNT ==> NumberOf(ScopeAt(i)) == i
  {
  }

  lemma SaysAt(db: Db, ctx: Ctx, key: string, s: Scope, c: Contribution)
    ensures Says(db, ctx, key, s, c) <==> At(db, ctx, key, NumberOf(s)) == Some(c)
  {
    NumbersAreOrder(s, s);
    var ref := RefOf(ctx, s);
    TemplateSaysIt(db, s, ref, key, c);
    assert forall other :: Identified(ctx, s, other) <==> other == ref && Applies(ctx, s);
    hide TemplateSays, TemplateFor;
  }

  // ---- which scope rules ---------------------------------------------------------------------------

  ghost predicate Locks(db: Db, ctx: Ctx, key: string, s: Scope) {
    exists c :: Says(db, ctx, key, s, c) && c.policy == Locked
  }

  ghost predicate Speaks(db: Db, ctx: Ctx, key: string, s: Scope) {
    exists c :: Says(db, ctx, key, s, c)
  }

  /** No scope above locks the key, and unless this one locks it no scope below speaks. */
  ghost predicate RuledBy(db: Db, ctx: Ctx, key: string, s: Scope, c: Contribution) {
    && Says(db, ctx, key, s, c)
    && (forall t :: t in Above(s) ==> !Locks(db, ctx, key, t))
    && (c.policy != Locked ==> forall t :: s in Above(t) ==> !Speaks(db, ctx, key, t))
  }

  lemma SpeaksAt(db: Db, ctx: Ctx, key: string, s: Scope)
    ensures Speaks(db, ctx, key, s) <==> At(db, ctx, key, NumberOf(s)).Some?
    ensures Locks(db, ctx, key, s) <==> LockedAt(db, ctx, key, NumberOf(s))
  {
    hide At, Says;
    var at := At(db, ctx, key, NumberOf(s));
    if at.Some? { SaysAt(db, ctx, key, s, at.value); }
    forall c | Says(db, ctx, key, s, c) ensures at == Some(c) { SaysAt(db, ctx, key, s, c); }
  }

  lemma RuledByNumber(db: Db, ctx: Ctx, key: string, s: Scope, c: Contribution)
    ensures RuledBy(db, ctx, key, s, c) <==>
      At(db, ctx, key, NumberOf(s)) == Some(c) && Rules(db, ctx, key, SCOPE_COUNT, NumberOf(s))
  {
    hide At, Says, Speaks, Locks, NumberOf, Above, ScopeAt;
    SaysAt(db, ctx, key, s, c);
    forall t: Scope ensures
      && (Speaks(db, ctx, key, t) <==> At(db, ctx, key, NumberOf(t)).Some?)
      && (Locks(db, ctx, key, t) <==> LockedAt(db, ctx, key, NumberOf(t)))
      && (t in Above(s) <==> NumberOf(t) < NumberOf(s)) && (s in Above(t) <==> NumberOf(s) < NumberOf(t))
      && NumberOf(t) < SCOPE_COUNT && ScopeAt(NumberOf(t)) == t
    {
      SpeaksAt(db, ctx, key, t);
      NumbersAreOrder(s, t);
      NumbersAreOrder(t, s);
    }
    forall i: nat | i < SCOPE_COUNT ensures
      && (Speaks(db, ctx, key, ScopeAt(i)) <==> At(db, ctx, key, i).Some?)
      && (Locks(db, ctx, key, ScopeAt(i)) <==> LockedAt(db, ctx, key, i))
      && (ScopeAt(i) in Above(s) <==> i < NumberOf(s)) && (s in Above(ScopeAt(i)) <==> NumberOf(s) < i)
    {
      NumbersAreOrder(s, ScopeAt(i));
    }
    NumbersAreOrder(s, s);
  }

  /** A resolved key has the value, source and policy of the scope that rules it; it has its
      catalogue default, free, exactly when no scope speaks; and if any speaks one rules. */
  lemma ResolvedByName(db: Db, ctx: Ctx, key: string)
    requires key in db.defs
    ensures forall s, c :: RuledBy(db, ctx, key, s, c) ==>
      && ValueAfter(db, ctx, key, SCOPE_COUNT) == Coerce(db.defs[key], c.value)
      && SourceAfter(db, ctx, key, SCOPE_COUNT)
         == By(s, c.source, c.policy, if c.policy == Bounded then c.bounded else "")
      && PolicyAfter(db, ctx, key, SCOPE_COUNT) == c.policy
    ensures (exists s :: Speaks(db, ctx, key, s)) <==> exists s, c :: RuledBy(db, ctx, key, s, c)
    ensures (forall s :: !Speaks(db, ctx, key, s)) ==>
      && ValueAfter(db, ctx, key, SCOPE_COUNT) == Coerce(db.defs[key], db.defs[key].default)
      && SourceAfter(db, ctx, key, SCOPE_COUNT) == Default && PolicyAfter(db, ctx, key, SCOPE_COUNT) == Free
  {
    hide At, Says, RuledBy, Speaks, Rules, Winner, Coerce, NumberOf, ScopeAt;
    FoldIsTheRule(db, ctx, key, SCOPE_COUNT);
    var w := Winner(db, ctx, key, SCOPE_COUNT);
    forall s, c | RuledBy(db, ctx, key, s, c) ensures
      w == Some(NumberOf(s)) && At(db, ctx, key, w.value) == Some(c) && ScopeAt(w.value) == s
    {
      RuledByNumber(db, ctx, key, s, c);
      NumbersAreOrder(s, s);
    }
    if w.Some? {
      var s, c := ScopeAt(w.value), At(db, ctx, key, w.value).value;
      NumbersAreOrder(s, s);
      RuledByNumber(db, ctx, key, s, c);
      SpeaksAt(db, ctx, key, s);
      assert RuledBy(db, ctx, key, s, c) && Speaks(db, ctx, key, s);
    } else {
      forall s ensures !Speaks(db, ctx, key, s) {
        SpeaksAt(db, ctx, key, s);
        NumbersAreOrder(s, s);
      }
    }
  }

  /** The order in one case: a caller of a brand and of a branch, both with a free row of
      their own and nobody below, gets the branch's value. */
  lemma BranchBeatsBrand(db: Db, ctx: Ctx, key: string)
    requires key in db.defs && ctx.brand != "" && ctx.branch != ""
    requires Slot(key, Brand, ctx.brand) in db.rows && db.rows[Slot(key, Brand, ctx.brand)].policy == Free
    requires Slot(key, Branch, ctx.branch) in db.rows
    requires !Locks(db, ctx, key, Platform) && !Locks(db, ctx, key, Organization)
    requires !Speaks(db, ctx, key, Role) && !Speaks(db, ctx, key, User) && !Speaks(db, ctx, key, Device)
    ensures ValueAfter(db, ctx, key, SCOPE_COUNT) == Coerce(db.defs[key], db.rows[Slot(key, Branch, ctx.branch)].value)
  {
    hide ValueAfter, Coerce;
    var c := OfRow(db.rows[Slot(key, Branch, ctx.branch)], Branch, ctx.branch);
    assert Identified(ctx, Branch, ctx.branch) && RowSays(db, Branch, ctx.branch, key, c);
    assert Says(db, ctx, key, Branch, c);
    assert !Locks(db, ctx, key, Brand);
    assert RuledBy(db, ctx, key, Branch, c);
    ResolvedByName(db, ctx, key);
  }

  // ---- reset ----------------------------------------------------------------------------------------

  /** A reset removes just the rows of the user's own reference, of the section if one is
      given, and leaves every other row as it was. */
  lemma ResetMeans(db: Db, ctx: Ctx, section: Option<string>, slot: Slot)
    ensures var after := Reset(db, ctx, section);
      && (slot in after.rows <==>
            slot in db.rows
            && !(slot.scope == User && slot.ref == ctx.user
                 && (section.None? || (slot.key in db.defs && db.defs[slot.key].category == section.value))))
      && (slot in after.rows ==> after.rows[slot] == db.rows[slot])
      && after.defs == db.defs && after.assignments == db.assignments
  {
  }
}
