/** Over every run, no id names rows of two kinds, and response times are whole seconds. Exports rely
    on both: one table of renamed ids serves all kinds, and storing a key again must not change it. */
module Identities {
  import opened Entities
  import opened Database
  import opened Jwts
  import opened Transitions
  import opened Invariants
  import opened Runs
  import opened Coherence

  predicate Apart(db: Db) {
    db.operators.Keys !! db.accounts.Keys !! db.keys.Keys !! db.users.Keys
  }

  predicate Whole(k: ScopedKey) {
    KeyRow(k) == k
  }

  ghost predicate Exportable(db: Db) {
    Apart(db) && forall i | i in db.keys :: Whole(db.keys[i])
  }

  lemma StoredWhole(k: ScopedKey)
    ensures Whole(KeyRow(k))
  {
    var n := k.responseTtl;
    if n >= 0 {
      assert (n / SECOND * SECOND) / SECOND == n / SECOND;
    } else {
      assert ((-n) / SECOND * SECOND) / SECOND == (-n) / SECOND;
    }
  }

  /** Old ids stay in their tables, new ones go to one table each, and every key row that is written
      is stored in whole seconds. */
  ghost predicate Extends(s: State, d: Db) {
    && NewApart(s.next, d)
    && (forall i | i in d.operators && i < s.next :: i in s.db.operators)
    && (forall i | i in d.accounts && i < s.next :: i in s.db.accounts)
    && (forall i | i in d.users && i < s.next :: i in s.db.users)
    && forall i | i in d.keys :: (i < s.next ==> i in s.db.keys) && (Whole(d.keys[i])
        || (i in s.db.keys && d.keys[i] == s.db.keys[i]))
  }

  ghost predicate NewApart(next: nat, d: Db) {
    && (forall i | i in d.operators && i >= next :: i !in d.accounts && i !in d.keys && i !in d.users)
    && (forall i | i in d.accounts && i >= next :: i !in d.keys && i !in d.users)
    && (forall i | i in d.keys && i >= next :: i !in d.users)
  }

  lemma ExtendsKeeps(s: State, d: Db)
    requires Exportable(s.db) && Extends(s, d)
    ensures Exportable(d)
  {
    hide KeyRow;
    assert d.operators.Keys !! d.accounts.Keys;
    assert d.operators.Keys + d.accounts.Keys !! d.keys.Keys;
    assert d.operators.Keys + d.accounts.Keys + d.keys.Keys !! d.users.Keys;
  }

  lemma ResignedExtends(s: State, db: Db, a: Account, d: Db)
    requires Extends(s, db) && Resigned(db, a, d)
    ensures Extends(s, d)
  {
    hide DeclaresNewest, KeyRow;
  }

  lemma FewerExtend(s: State, d: Db)
    requires Inv(s)
    requires d.operators.Keys <= s.db.operators.Keys && d.accounts.Keys <= s.db.accounts.Keys
             && d.users.Keys <= s.db.users.Keys
    requires forall i | i in d.keys :: i in s.db.keys && d.keys[i] == s.db.keys[i]
    ensures Extends(s, d)
  {
    hide KeyRow, Signed;
    FreshIds(s);
  }

  lemma WithKeyExtends(s: State, k: ScopedKey)
    requires Inv(s) && (k.id in s.db.keys || k.id >= s.next)
    ensures Extends(s, WithKey(s.db, k))
  {
    hide Signed;
    FreshIds(s);
    StoredWhole(k);
  }

  lemma KeyStepExtends(s: State, e: Event, d: Db)
    requires Inv(s) && Changes(s, e, d) && (e.cmd.CreateKey? || e.cmd.UpdateKey? || e.cmd.DeleteKey?)
    ensures Extends(s, d)
  {
    hide Schema, Supplied, Signed, Resigned, WithKey, KeyTaken, Signable, Extends, CreateOperatorStep,
         UpdateOperatorStep, SetSystemAccountStep, DeleteOperatorStep, CreateAccountStep, UpdateAccountStep,
         UpdateJetStreamStep, DeleteAccountStep, CreateUserStep, UpdateUserStep, DeleteUserStep, ClusterStep;
    RowIds(s.db);
    FewerExtend(s, s.db);
    match e.cmd {
      case CreateKey(req, now) =>
        var inserted := WithKey(s.db, NewKey(req, s.next, now));
        WithKeyExtends(s, NewKey(req, s.next, now));
        if e.ok { ResignedExtends(s, inserted, s.db.accounts[req.accountId], d); }
      case UpdateKey(id, req) =>
        if id in s.db.keys {
          var updated := WithKey(s.db, PatchedKey(s.db.keys[id], req));
          WithKeyExtends(s, PatchedKey(s.db.keys[id], req));
          if e.ok && ChangesKey(s.db.keys[id], req) {
            ResignedExtends(s, updated, s.db.accounts[s.db.keys[id].accountId], d);
          }
        }
      case DeleteKey(id) =>
        if id in s.db.keys {
          FewerExtend(s, WithoutKey(s.db, id));
          if e.ok { ResignedExtends(s, WithoutKey(s.db, id), s.db.accounts[s.db.keys[id].accountId], d); }
        }
    }
  }

  lemma AccountStepExtends(s: State, e: Event, d: Db)
    requires Inv(s) && Changes(s, e, d) && (e.cmd.UpdateAccount? || e.cmd.UpdateJetStream?)
    ensures Extends(s, d)
  {
    hide Schema, Supplied, Signed, Resigned, Extends, CreateOperatorStep, UpdateOperatorStep, SetSystemAccountStep,
         DeleteOperatorStep, CreateAccountStep, DeleteAccountStep, CreateKeyStep, UpdateKeyStep, DeleteKeyStep,
         CreateUserStep, UpdateUserStep, DeleteUserStep, ClusterStep;
    FewerExtend(s, s.db);
    match e.cmd {
      case UpdateAccount(id, req) =>
        if e.ok && PatchedAccount(s.db.accounts[id], req) != s.db.accounts[id] {
          ResignedExtends(s, s.db, PatchedAccount(s.db.accounts[id], req), d);
        }
      case UpdateJetStream(id, enabled, limits) =>
        if e.ok {
          ResignedExtends(s, s.db, s.db.accounts[id].(jetStreamEnabled := enabled, jetStream := limits), d);
        }
    }
  }

  lemma DeletionExtends(s: State, e: Event, d: Db)
    requires Inv(s) && Changes(s, e, d) && (e.cmd.DeleteOperator? || e.cmd.DeleteAccount? || e.cmd.DeleteUser?)
    ensures Extends(s, d)
  {
    hide Schema, Supplied, Signed, Extends, AccountsOf, CreateOperatorStep, UpdateOperatorStep, SetSystemAccountStep,
         CreateAccountStep, UpdateAccountStep, UpdateJetStreamStep, CreateKeyStep, UpdateKeyStep, DeleteKeyStep,
         CreateUserStep, UpdateUserStep, ClusterStep;
    FewerExtend(s, d);
  }

  lemma SideStepExtends(s: State, e: Event, d: Db)
    requires Inv(s) && Changes(s, e, d)
    requires e.cmd.UpdateOperator? || e.cmd.SetSystemAccount? || e.cmd.CreateUser? || e.cmd.UpdateUser?
    ensures Extends(s, d)
  {
    hide Schema, Supplied, Signed, KeyRow, SignerSeed, UserTaken, OperatorTaken, CreateOperatorStep,
         DeleteOperatorStep, CreateAccountStep, UpdateAccountStep, UpdateJetStreamStep, DeleteAccountStep,
         CreateKeyStep, UpdateKeyStep, DeleteKeyStep, DeleteUserStep, ClusterStep;
    RowIds(s.db);
    OwnOperatorIds(s.db);
    FreshIds(s);
  }

  lemma OwnOperatorIds(db: Db)
    requires Schema(db)
    ensures forall i | i in db.operators :: db.operators[i].id == i
  {
  }

  lemma CreateAccountExtends(s: State, e: Event, d: Db)
    requires Inv(s) && Changes(s, e, d) && e.cmd.CreateAccount?
    ensures Extends(s, d)
  {
    hide Schema, Supplied, Signed, KeyRow, SignedNewAccount, AcceptsNewAccount, DefaultKeyDescription,
         CreateOperatorStep, UpdateOperatorStep, SetSystemAccountStep, DeleteOperatorStep, UpdateAccountStep,
         UpdateJetStreamStep, DeleteAccountStep, CreateKeyStep, UpdateKeyStep, DeleteKeyStep, CreateUserStep,
         UpdateUserStep, DeleteUserStep, ClusterStep;
    FreshIds(s);
    StoredWhole(NewKey(DefaultKeyRequest(s.next + 1), s.next + 2, e.cmd.now));
  }

  lemma StageExtends(s: State, name: string, description: string, now: int, stage: nat)
    requires Inv(s) && 1 <= stage <= 4
    ensures Extends(s, CreateOperatorStage(s, name, description, now, stage))
  {
    hide Schema, Supplied, Signed, KeyRow, SignedNewAccount, DefaultKeyDescription, SystemAccountDescription,
         SystemUserDescription;
    FreshIds(s);
    StoredWhole(NewKey(DefaultKeyRequest(s.next + 3), s.next + 4, now));
  }

  lemma UnrolledExtends(s: State, name: string, description: string, now: int)
    requires Inv(s)
    ensures Extends(s, WithNewAccount(CreateOperatorStage(s, name, description, now, 1),
            SystemAccountRequest(s.next + 1), s.next + 2, now))
  {
    hide Schema, Supplied, Signed, KeyRow, SignedNewAccount, DefaultKeyDescription, SystemAccountDescription,
         SystemUserDescription;
    FreshIds(s);
  }

  lemma CreateOperatorExtends(s: State, e: Event, d: Db)
    requires Inv(s) && Changes(s, e, d) && e.cmd.CreateOperator?
    ensures Extends(s, d)
  {
    hide Schema, Supplied, Signed, KeyRow, SignedNewAccount, CreateOperatorStage, OperatorTaken,
         DefaultKeyDescription, SystemAccountDescription, SystemUserDescription, UpdateOperatorStep,
         SetSystemAccountStep, DeleteOperatorStep, CreateAccountStep, UpdateAccountStep, UpdateJetStreamStep,
         DeleteAccountStep, CreateKeyStep, UpdateKeyStep, DeleteKeyStep, CreateUserStep, UpdateUserStep,
         DeleteUserStep, ClusterStep;
    var Event(CreateOperator(name, description, now), _, _) := e;
    FreshIds(s);
    UnrolledExtends(s, name, description, now);
    if stage :| 1 <= stage <= 4 && d == CreateOperatorStage(s, name, description, now, stage) {
      StageExtends(s, name, description, now, stage);
    }
  }

  lemma ClusterExtends(s: State, e: Event, d: Db)
    requires Inv(s) && Changes(s, e, d) && e.cmd.OnCluster?
    ensures Extends(s, d)
  {
    hide Inv, Changes, Extends;
    OnlyClustersChange(s, e, d);
    FewerExtend(s, d);
  }

  lemma StepExtends(s: State, e: Event, d: Db)
    requires Inv(s) && Changes(s, e, d)
    ensures Extends(s, d)
  {
    hide Inv, Changes, Extends;
    match e.cmd {
      case CreateOperator(_, _, _) => CreateOperatorExtends(s, e, d);
      case CreateAccount(_, _) => CreateAccountExtends(s, e, d);
      case UpdateAccount(_, _) => AccountStepExtends(s, e, d);
      case UpdateJetStream(_, _, _) => AccountStepExtends(s, e, d);
      case CreateKey(_, _) => KeyStepExtends(s, e, d);
      case UpdateKey(_, _) => KeyStepExtends(s, e, d);
      case DeleteKey(_) => KeyStepExtends(s, e, d);
      case DeleteOperator(_) => DeletionExtends(s, e, d);
      case DeleteAccount(_) => DeletionExtends(s, e, d);
      case DeleteUser(_) => DeletionExtends(s, e, d);
      case OnCluster(_) => ClusterExtends(s, e, d);
      case _ => SideStepExtends(s, e, d);
    }
  }

  lemma {:induction false} RunExportable(states: seq<State>, events: seq<Event>, n: nat)
    requires IsRun(states, events) && n <= |events|
    ensures Exportable(states[n].db)
  {
    hide Step, Changes, Inv, Extends, Whole;
    if n > 0 {
      RunExportable(states, events, n - 1);
      RunKeeps(states, events, n - 1);
      StepAt(states, events, n - 1);
      StepExtends(states[n - 1], events[n - 1], states[n].db);
      ExtendsKeeps(states[n - 1], states[n].db);
    }
  }
}
