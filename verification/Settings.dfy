/** The settings cascade: platform, organization, brand, branch, role, user, device. A
    later scope overrides an earlier one unless the earlier one locked the key. */
module Settings {
  import opened Common
  import opened SettingDefs

  datatype Scope = Platform | Organization | Brand | Branch | Role | User | Device
  datatype Policy = Free | Bounded | Locked
  datatype Source = FromTemplate(name: string) | FromNote(note: string) | FromScope(scope: Scope, ref: string)

  datatype Contribution = Contribution(value: string, policy: Policy, source: Source, bounded: string)

  datatype TemplateLine = TemplateLine(key: string, value: string, policy: Policy, bounded: string)
  datatype Template = Template(name: string, published: bool, lines: seq<TemplateLine>)
  datatype Assignment = Assignment(scope: Scope, ref: string, active: bool, template: Template)

  datatype Slot = Slot(key: string, scope: Scope, ref: string)
  datatype Row = Row(value: string, policy: Policy, note: string, bounded: string)

  /** All stored settings. A slot holds at most one row. */
  datatype Db = Db(defs: map<string, Def>, assignments: seq<Assignment>, rows: map<Slot, Row>)

  /** Who asks. An empty reference is none; the platform needs none. */
  datatype Ctx = Ctx(company: string, brand: string, branch: string, role: string, user: string, device: string)

  function ScopeAt(i: nat): Scope {
    match i
    case 0 => Platform case 1 => Organization case 2 => Brand case 3 => Branch
    case 4 => Role case 5 => User case _ => Device
  }

  const SCOPE_COUNT: nat := 7

  function RefOf(ctx: Ctx, scope: Scope): string {
    match scope
    case Platform => "" case Organization => ctx.company case Brand => ctx.brand case Branch => ctx.branch
    case Role => ctx.role case User => ctx.user case Device => ctx.device
  }

  predicate Applies(ctx: Ctx, scope: Scope) { scope.Platform? || RefOf(ctx, scope) != "" }

  // ---- what one scope contributes ---------------------------------------------------------

  /** The last line of a template for a key. */
  function LineFor(lines: seq<TemplateLine>, key: string, name: string): Option<Contribution> {
    if lines == [] then None
    else
      var l := lines[|lines| - 1];
      if l.key == key then Some(Contribution(l.value, l.policy, FromTemplate(name), l.bounded))
      else LineFor(lines[..|lines| - 1], key, name)
  }

  predicate Counts(a: Assignment, scope: Scope, ref: string) {
    a.scope == scope && a.ref == ref && a.active && a.template.published
  }

  /** The last published template that has the key. */
  function TemplateFor(asgs: seq<Assignment>, scope: Scope, ref: string, key: string): Option<Contribution> {
    if asgs == [] then None
    else
      var a := asgs[|asgs| - 1];
      var own := if Counts(a, scope, ref) then LineFor(a.template.lines, key, a.template.name) else None;
      if own.Some? then own else TemplateFor(asgs[..|asgs| - 1], scope, ref, key)
  }

  function OfRow(r: Row, scope: Scope, ref: string): Contribution {
    Contribution(r.value, r.policy, if r.note != "" then FromNote(r.note) else FromScope(scope, ref), r.bounded)
  }

  /** A direct row beats the templates of its scope. */
  function At(db: Db, ctx: Ctx, key: string, i: nat): Option<Contribution> {
    var scope := ScopeAt(i);
    var ref := RefOf(ctx, scope);
    if !Applies(ctx, scope) then None
    else if Slot(key, scope, ref) in db.rows then Some(OfRow(db.rows[Slot(key, scope, ref)], scope, ref))
    else TemplateFor(db.assignments, scope, ref, key)
  }

  predicate LockedAt(db: Db, ctx: Ctx, key: string, i: nat) {
    At(db, ctx, key, i).Some? && At(db, ctx, key, i).value.policy == Locked
  }

  /** The scope whose contribution stands after the first `n` scopes were folded. */
  function Winner(db: Db, ctx: Ctx, key: string, n: nat): (w: Option<nat>)
    ensures w.Some? ==> w.value < n && At(db, ctx, key, w.value).Some?
  {
    if n == 0 then None
    else
      var before := Winner(db, ctx, key, n - 1);
      if before.Some? && LockedAt(db, ctx, key, before.value) then before
      else if At(db, ctx, key, n - 1).Some? then Some(n - 1)
      else before
  }

  // ---- the result for one key ---------------------------------------------------------------

  datatype Provenance = Default | By(scope: Scope, source: Source, policy: Policy, bounded: string)

  function ValueAfter(db: Db, ctx: Ctx, key: string, n: nat): Val
    requires key in db.defs
  {
    var w := Winner(db, ctx, key, n);
    Coerce(db.defs[key], if w.Some? then At(db, ctx, key, w.value).value.value else db.defs[key].default)
  }

  function SourceAfter(db: Db, ctx: Ctx, key: string, n: nat): Provenance {
    var w := Winner(db, ctx, key, n);
    if w.None? then Default
    else
      var c := At(db, ctx, key, w.value).value;
      By(ScopeAt(w.value), c.source, c.policy, if c.policy == Bounded then c.bounded else "")
  }

  function PolicyAfter(db: Db, ctx: Ctx, key: string, n: nat): Policy {
    var w := Winner(db, ctx, key, n);
    if w.None? then Free else At(db, ctx, key, w.value).value.policy
  }

  // ---- the declarative rule -----------------------------------------------------------------

  /** The earliest locked contribution if there is one, else the latest contribution. */
  ghost predicate Rules(db: Db, ctx: Ctx, key: string, n: nat, i: nat) {
    && i < n && At(db, ctx, key, i).Some?
    && (LockedAt(db, ctx, key, i) ==> forall j :: 0 <= j < i ==> !LockedAt(db, ctx, key, j))
    && (!LockedAt(db, ctx, key, i) ==>
          && (forall j :: 0 <= j < n ==> !LockedAt(db, ctx, key, j))
          && (forall j :: i < j < n ==> At(db, ctx, key, j).None?))
  }

  /** The fold over the scopes is the rule: it finds the one ruling scope if any scope
      contributes, and none exactly when none does. */
  lemma {:induction false} FoldIsTheRule(db: Db, ctx: Ctx, key: string, n: nat)
    ensures var w := Winner(db, ctx, key, n);
      && (forall i: nat :: Rules(db, ctx, key, n, i) <==> w == Some(i))
      && (w.None? <==> forall j :: 0 <= j < n ==> At(db, ctx, key, j).None?)
  {
    WinnerRules(db, ctx, key, n);
    hide At, Winner;
    var w := Winner(db, ctx, key, n);
    forall i: nat | Rules(db, ctx, key, n, i) ensures w == Some(i) {
      if w.Some? { OneRules(db, ctx, key, n, i, w.value); }
    }
  }

  lemma {:induction false} WinnerRules(db: Db, ctx: Ctx, key: string, n: nat)
    ensures var w := Winner(db, ctx, key, n);
      && (w.Some? ==> Rules(db, ctx, key, n, w.value))
      && (w.None? ==> forall j :: 0 <= j < n ==> At(db, ctx, key, j).None?)
  {
    hide At;
    if n > 0 { WinnerRules(db, ctx, key, n - 1); }
  }

  lemma OneRules(db: Db, ctx: Ctx, key: string, n: nat, i: nat, j: nat)
    requires Rules(db, ctx, key, n, i) && Rules(db, ctx, key, n, j)
    ensures i == j
  {
    hide At;
  }

  /** No scope after a lock changes the key. */
  lemma {:induction false} LockHolds(db: Db, ctx: Ctx, key: string, i: nat, n: nat)
    requires i < n && Winner(db, ctx, key, i + 1) == Some(i) && LockedAt(db, ctx, key, i)
    ensures Winner(db, ctx, key, n) == Some(i)
  {
    hide At;
    if n > i + 1 { LockHolds(db, ctx, key, i, n - 1); }
  }
}
