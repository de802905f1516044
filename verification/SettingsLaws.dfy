/** What saving and resetting do to the resolved settings of everyone. */
module SettingsLaws {
  import opened Common
  import opened SettingDefs
  import opened Settings
  import opened SettingsService

  /** Two stores that contribute the same at every scope resolve the same. */
  lemma {:induction false} SameContributions(a: Db, b: Db, ctx: Ctx, key: string, n: nat)
    requires forall i :: 0 <= i < n ==> At(a, ctx, key, i) == At(b, ctx, key, i)
    ensures Winner(a, ctx, key, n) == Winner(b, ctx, key, n)
  {
    hide At;
    if n > 0 { SameContributions(a, b, ctx, key, n - 1); }
  }

  /** A key resolves to one value, source and policy. */
  ghost predicate ResolvesAlike(a: Db, b: Db, ctx: Ctx, key: string) {
    && (key in a.defs && key in b.defs ==> ValueAfter(a, ctx, key, SCOPE_COUNT) == ValueAfter(b, ctx, key, SCOPE_COUNT))
    && SourceAfter(a, ctx, key, SCOPE_COUNT) == SourceAfter(b, ctx, key, SCOPE_COUNT)
    && PolicyAfter(a, ctx, key, SCOPE_COUNT) == PolicyAfter(b, ctx, key, SCOPE_COUNT)
  }

  lemma AlikeFromScopes(a: Db, b: Db, ctx: Ctx, key: string)
    requires a.defs == b.defs && forall i :: 0 <= i < SCOPE_COUNT ==> At(a, ctx, key, i) == At(b, ctx, key, i)
    ensures ResolvesAlike(a, b, ctx, key)
  {
    hide At;
    SameContributions(a, b, ctx, key, SCOPE_COUNT);
  }

  /** Only the row of the user's own slot matters to what a save or reset changes. */
  lemma SlotDecides(a: Db, b: Db, ctx: Ctx, key: string, i: nat)
    requires a.assignments == b.assignments
    requires var slot := Slot(key, ScopeAt(i), RefOf(ctx, ScopeAt(i)));
      (slot in a.rows <==> slot in b.rows) && (slot in a.rows ==> a.rows[slot] == b.rows[slot])
    ensures At(a, ctx, key, i) == At(b, ctx, key, i)
  {
  }

  lemma OnlyUserScopeChanges(a: Db, b: Db, ctx: Ctx, other: Ctx, key: string)
    requires a.defs == b.defs && a.assignments == b.assignments
    requires forall slot :: slot != UserSlot(ctx, key) && slot.key == key ==>
      (slot in a.rows <==> slot in b.rows) && (slot in a.rows ==> a.rows[slot] == b.rows[slot])
    ensures forall i :: 0 <= i < SCOPE_COUNT && (i != 5 || other.user != ctx.user) ==>
        At(a, other, key, i) == At(b, other, key, i)
    ensures other.user != ctx.user ==> ResolvesAlike(a, b, other, key)
  {
    forall i | 0 <= i < SCOPE_COUNT && (i != 5 || other.user != ctx.user)
      ensures At(a, other, key, i) == At(b, other, key, i)
    {
      SlotDecides(a, b, other, key, i);
    }
    if other.user != ctx.user { AlikeFromScopes(a, b, other, key); }
  }

  lemma SaveTouches(db: Db, ctx: Ctx, values: map<string, Arg>, key: string)
    ensures var after := Save(db, ctx, values);
      && after.defs == db.defs && after.assignments == db.assignments
      && (forall slot: Slot :: slot.key == key && (slot != UserSlot(ctx, key) || key !in Accepted(db, ctx, values)) ==>
            (slot in db.rows <==> slot in after.rows) && (slot in db.rows ==> db.rows[slot] == after.rows[slot]))
      && (key in Accepted(db, ctx, values) ==>
            UserSlot(ctx, key) in after.rows && after.rows[UserSlot(ctx, key)] == SavedRow(db, ctx, key, values[key]))
  {
    hide Accepts, SavedRow;
  }

  lemma {:induction false} NeverLocked(db: Db, ctx: Ctx, key: string, n: nat, i: nat)
    requires i < n && LockedAt(db, ctx, key, i)
    ensures PolicyAfter(db, ctx, key, n) == Locked
  {
    hide At;
    if n > i + 1 { NeverLocked(db, ctx, key, n - 1, i); }
  }

  /** The last contributing scope wins a key that nobody locked. */
  lemma UnlockedLastWins(db: Db, ctx: Ctx, key: string)
    requires PolicyAfter(db, ctx, key, SCOPE_COUNT) != Locked && At(db, ctx, key, 5).Some?
    ensures Winner(db, ctx, key, SCOPE_COUNT) == Some(if At(db, ctx, key, 6).Some? then 6 else 5)
  {
    hide At;
    FoldIsTheRule(db, ctx, key, SCOPE_COUNT);
    var w := Winner(db, ctx, key, SCOPE_COUNT);
    assert Rules(db, ctx, key, SCOPE_COUNT, w.value);
  }

  lemma RowAtUser(db: Db, ctx: Ctx, key: string)
    requires ctx.user != "" && UserSlot(ctx, key) in db.rows
    ensures At(db, ctx, key, 5) == Some(OfRow(db.rows[UserSlot(ctx, key)], User, ctx.user))
  {
  }

  lemma StaysUnlocked(a: Db, b: Db, ctx: Ctx, key: string)
    requires PolicyAfter(a, ctx, key, SCOPE_COUNT) != Locked && !LockedAt(b, ctx, key, 5)
    requires forall i :: 0 <= i < SCOPE_COUNT && i != 5 ==> At(a, ctx, key, i) == At(b, ctx, key, i)
    ensures PolicyAfter(b, ctx, key, SCOPE_COUNT) != Locked
  {
    hide At;
    if PolicyAfter(b, ctx, key, SCOPE_COUNT) == Locked {
      var i := Winner(b, ctx, key, SCOPE_COUNT).value;
      NeverLocked(a, ctx, key, SCOPE_COUNT, i);
    }
  }

  /** The policy a saved row keeps is not a lock, else the key would have been refused. */
  lemma SavedRowIsNoLock(db: Db, ctx: Ctx, key: string, a: Arg)
    requires ctx.user != "" && Accepts(db, ctx, key, a)
    ensures SavedRow(db, ctx, key, a).policy != Locked
  {
    if UserSlot(ctx, key) in db.rows {
      RowAtUser(db, ctx, key);
      if db.rows[UserSlot(ctx, key)].policy == Locked { NeverLocked(db, ctx, key, SCOPE_COUNT, 5); }
    }
  }

  /** A saved key resolves to the saved value, or to the device's own if the device
      contributes one; and it stays unlocked. */
  lemma SavedValueResolves(db: Db, ctx: Ctx, values: map<string, Arg>, key: string)
    requires ctx.user != "" && key in Accepted(db, ctx, values)
    ensures var after := Save(db, ctx, values);
      && PolicyAfter(after, ctx, key, SCOPE_COUNT) != Locked
      && Winner(after, ctx, key, SCOPE_COUNT) == Some(if At(db, ctx, key, 6).Some? then 6 else 5)
      && ValueAfter(after, ctx, key, SCOPE_COUNT)
         == Coerce(db.defs[key],
                   if At(db, ctx, key, 6).Some? then At(db, ctx, key, 6).value.value else Stored(values[key]))
  {
    var after := Save(db, ctx, values);
    SaveTouches(db, ctx, values, key);
    OnlyUserScopeChanges(db, after, ctx, ctx, key);
    RowAtUser(after, ctx, key);
    SavedRowIsNoLock(db, ctx, key, values[key]);
    hide At, Save;
    StaysUnlocked(db, after, ctx, key);
    UnlockedLastWins(after, ctx, key);
  }

  /** Nothing else moves: every key that was not saved resolves as before for everyone, and
      every key resolves as before for anyone with another user reference. */
  lemma SaveChangesNothingElse(db: Db, ctx: Ctx, values: map<string, Arg>, other: Ctx, key: string)
    requires other.user != ctx.user || key !in Accepted(db, ctx, values)
    ensures ResolvesAlike(db, Save(db, ctx, values), other, key)
  {
    var after := Save(db, ctx, values);
    SaveTouches(db, ctx, values, key);
    hide Accepted, Save;
    if other.user != ctx.user {
      OnlyUserScopeChanges(db, after, ctx, other, key);
    } else {
      forall i | 0 <= i < SCOPE_COUNT ensures At(db, other, key, i) == At(after, other, key, i) {
        SlotDecides(db, after, other, key, i);
      }
      AlikeFromScopes(db, after, other, key);
    }
  }

  /** Saving neither locks nor unlocks any key for the one who saves. */
  lemma SaveKeepsLocks(db: Db, ctx: Ctx, values: map<string, Arg>, key: string)
    requires ctx.user != ""
    ensures PolicyAfter(Save(db, ctx, values), ctx, key, SCOPE_COUNT) == Locked <==>
        PolicyAfter(db, ctx, key, SCOPE_COUNT) == Locked
  {
    hide PolicyAfter, Save, ValueAfter;
    if key in Accepted(db, ctx, values) {
      SavedValueResolves(db, ctx, values, key);
    } else {
      SaveChangesNothingElse(db, ctx, values, ctx, key);
    }
  }

  /** The policy a saved key ends with: the device's, or the row's own, free if it is new. */
  lemma SavedPolicy(db: Db, ctx: Ctx, values: map<string, Arg>, key: string)
    requires ctx.user != "" && key in Accepted(db, ctx, values)
    ensures PolicyAfter(Save(db, ctx, values), ctx, key, SCOPE_COUNT) ==
      if At(db, ctx, key, 6).Some? then At(db, ctx, key, 6).value.policy
      else if UserSlot(ctx, key) in db.rows then db.rows[UserSlot(ctx, key)].policy
      else Free
  {
    var after := Save(db, ctx, values);
    SaveTouches(db, ctx, values, key);
    SavedValueResolves(db, ctx, values, key);
    OnlyUserScopeChanges(db, after, ctx, ctx, key);
    RowAtUser(after, ctx, key);
    hide Winner, Save, Accepted;
  }

  /** A bound that a higher scope put on a key is lost for the one who saves it exactly when
      the user had no row of their own and the device says nothing. */
  lemma SaveDropsBoundExactlyWhen(db: Db, ctx: Ctx, values: map<string, Arg>, key: string)
    requires ctx.user != "" && key in Accepted(db, ctx, values) && PolicyAfter(db, ctx, key, SCOPE_COUNT) == Bounded
    ensures PolicyAfter(Save(db, ctx, values), ctx, key, SCOPE_COUNT) == Free
        <==> At(db, ctx, key, 6).None? && UserSlot(ctx, key) !in db.rows
    ensures PolicyAfter(Save(db, ctx, values), ctx, key, SCOPE_COUNT) in {Bounded, Free}
  {
    SavedPolicy(db, ctx, values, key);
    if UserSlot(ctx, key) in db.rows {
      RowAtUser(db, ctx, key);
      UnlockedLastWins(db, ctx, key);
    } else if At(db, ctx, key, 6).Some? {
      DeviceWins(db, ctx, key);
    }
    hide Winner, Save, Accepted;
  }

  lemma DeviceWins(db: Db, ctx: Ctx, key: string)
    requires PolicyAfter(db, ctx, key, SCOPE_COUNT) != Locked && At(db, ctx, key, 6).Some?
    ensures Winner(db, ctx, key, SCOPE_COUNT) == Some(6)
  {
    hide At;
    FoldIsTheRule(db, ctx, key, SCOPE_COUNT);
    var w := Winner(db, ctx, key, SCOPE_COUNT);
    assert Rules(db, ctx, key, SCOPE_COUNT, w.value);
  }

  /** Saving what is accepted can be undone: without earlier rows of the user, a full reset
      puts the whole store back, so everyone resolves as before. */
  lemma ResetUndoesSave(db: Db, ctx: Ctx, values: map<string, Arg>)
    requires forall slot :: slot in db.rows ==> !(slot.scope == User && slot.ref == ctx.user)
    ensures Reset(Save(db, ctx, values), ctx, None) == db
  {
    hide SavedRow, Accepted;
    var saved := Save(db, ctx, values);
    var back := Reset(saved, ctx, None);
    assert back.rows.Keys == db.rows.Keys;
  }

  /** After a reset the user contributes nothing direct in that section, and everything
      outside it resolves as before for everyone. */
  lemma ResetIsLocal(db: Db, ctx: Ctx, section: Option<string>, other: Ctx, key: string)
    ensures var after := Reset(db, ctx, section);
      && (Resets(db, ctx, section, UserSlot(ctx, key)) ==> UserSlot(ctx, key) !in after.rows)
      && (!Resets(db, ctx, section, UserSlot(ctx, key)) || other.user != ctx.user ==>
          ResolvesAlike(db, after, other, key))
  {
    var after := Reset(db, ctx, section);
    ResetTouches(db, ctx, section, key);
    hide Reset, Resets;
    if !Resets(db, ctx, section, UserSlot(ctx, key)) {
      forall i | 0 <= i < SCOPE_COUNT ensures At(db, other, key, i) == At(after, other, key, i) {
        SlotDecides(db, after, other, key, i);
      }
      AlikeFromScopes(db, after, other, key);
    } else if other.user != ctx.user {
      OnlyUserScopeChanges(db, after, ctx, other, key);
    }
  }

  lemma ResetTouches(db: Db, ctx: Ctx, section: Option<string>, key: string)
    ensures var after := Reset(db, ctx, section);
      && after.defs == db.defs && after.assignments == db.assignments
      && (forall slot: Slot :: slot.key == key && (slot != UserSlot(ctx, key) || !Resets(db, ctx, section, slot)) ==>
            (slot in db.rows <==> slot in after.rows) && (slot in db.rows ==> db.rows[slot] == after.rows[slot]))
      && (Resets(db, ctx, section, UserSlot(ctx, key)) ==> UserSlot(ctx, key) !in after.rows)
  {
  }
}
