/** The account JWT declares the stored scoped keys: over every run, whichever calls fail. */
module Coherence {
  import opened Entities
  import opened Database
  import opened Jwts
  import opened Transitions
  import opened Invariants
  import opened Runs
  import opened OperatorService

  /** The accounts whose JWT the call signs afresh if it succeeds. */
  function Resigns(s: State, e: Event): set<Id> {
    match e.cmd
    case CreateOperator(_, _, _) => {s.next + 3}
    case CreateAccount(_, _) => {s.next + 1}
    case UpdateAccount(id, req) =>
      if id in s.db.accounts && PatchedAccount(s.db.accounts[id], req) != s.db.accounts[id] then {id} else {}
    case UpdateJetStream(id, _, _) => {id}
    case CreateKey(req, _) => {req.accountId}
    case UpdateKey(id, req) =>
      if id in s.db.keys && ChangesKey(s.db.keys[id], req) then {s.db.keys[id].accountId} else {}
    case DeleteKey(id) => if id in s.db.keys then {s.db.keys[id].accountId} else {}
    case _ => {}
  }

  /** The accounts whose keys the call writes before it signs their JWT. */
  function Writes(s: State, e: Event): set<Id> {
    match e.cmd
    case CreateOperator(_, _, _) => {s.next + 3}
    case CreateAccount(_, _) => {s.next + 1}
    case CreateKey(req, _) => {req.accountId}
    case UpdateKey(id, _) => if id in s.db.keys then {s.db.keys[id].accountId} else {}
    case DeleteKey(id) => if id in s.db.keys then {s.db.keys[id].accountId} else {}
    case _ => {}
  }

  predicate Refreshes(s: State, e: Event, a: Id) {
    e.ok && a in Resigns(s, e)
  }

  ghost predicate Coherent(db: Db, a: Id) {
    a in db.accounts && db.accounts[a].jwt.AccountJwt? && DeclaresNewest(db.keys, a, db.accounts[a].jwt.signers)
  }

  /** A call on the keys of `a` returned an error after it had changed the store, and left the JWT
      of `a` at odds with its keys. */
  ghost predicate Disturbs(s: State, e: Event, s': State, a: Id) {
    !e.ok && s'.db != s.db && a in Writes(s, e) && a in s'.db.accounts && !Coherent(s'.db, a)
  }

  /** Nothing that the coherence of `a` depends on differs. */
  ghost predicate Untouched(db: Db, d: Db, a: Id) {
    && a in db.accounts && a in d.accounts && d.accounts[a].jwt == db.accounts[a].jwt
    && (forall k | k in d.keys && d.keys[k].accountId == a :: k in db.keys && d.keys[k] == db.keys[k])
    && (forall k | k in db.keys && db.keys[k].accountId == a :: k in d.keys && d.keys[k] == db.keys[k])
  }

  lemma SameDeclared(db: Db, d: Db, a: Id, signers: map<PubKey, Scope>)
    requires Untouched(db, d, a)
    ensures KeysOf(d.keys, a) == KeysOf(db.keys, a)
    ensures Declared(d.keys, a, signers) == Declared(db.keys, a, signers)
    ensures forall i | i in KeysOf(db.keys, a) :: i in db.keys && i in d.keys && d.keys[i] == db.keys[i]
  {
  }

  lemma UntouchedCoherent(db: Db, d: Db, a: Id)
    requires Untouched(db, d, a) && Coherent(db, a)
    ensures Coherent(d, a)
  {
    var signers := db.accounts[a].jwt.signers;
    SameDeclared(db, d, a, signers);
    var all, declared := KeysOf(db.keys, a), Declared(db.keys, a, signers);
    assert declared <= all;
    hide KeysOf, Declared, Untouched;
    forall p | p in signers ensures exists i :: i in declared && d.keys[i].publicKey == p {
      var i :| i in declared && db.keys[i].publicKey == p;
      assert d.keys[i].publicKey == p;
    }
    forall i, j | i in declared && j in all - declared ensures d.keys[i].createdAt >= d.keys[j].createdAt {
      assert db.keys[i].createdAt >= db.keys[j].createdAt;
    }
    UntouchedThere(db, d, a);
  }

  lemma UntouchedThere(db: Db, d: Db, a: Id)
    requires Untouched(db, d, a)
    ensures a in d.accounts && a in db.accounts && d.accounts[a].jwt == db.accounts[a].jwt
  {
  }

  /** What a step does for `a`: a refresh makes it coherent; otherwise, unless the step disturbs it,
      an account that is still there is untouched. */
  ghost predicate Serves(s: State, e: Event, d: Db, a: Id) {
    && (Refreshes(s, e, a) ==> Coherent(d, a))
    && (!Refreshes(s, e, a) && !(!e.ok && d != s.db && a in Writes(s, e)) ==> Untouched(s.db, d, a))
  }

  lemma ResignedServes(db: Db, b: Account, d: Db, a: Id)
    requires Resigned(db, b, d) && a in d.accounts
    ensures if a == b.id then Coherent(d, a) else Untouched(db, d, a)
  {
    hide DeclaresNewest;
  }

  lemma AccountStepServes(s: State, e: Event, d: Db, a: Id)
    requires Inv(s) && Changes(s, e, d) && a in d.accounts
    requires e.cmd.UpdateAccount? || e.cmd.UpdateJetStream? || e.cmd.DeleteAccount?
    ensures Serves(s, e, d, a)
  {
    hide Supplied, Schema, Signed, DeclaresNewest, Resigned, DefaultKeyDescription, CreateOperatorStep,
         UpdateOperatorStep, SetSystemAccountStep, DeleteOperatorStep, CreateAccountStep, CreateKeyStep,
         UpdateKeyStep, DeleteKeyStep, CreateUserStep, UpdateUserStep, DeleteUserStep, ClusterStep;
    var id := e.cmd.accountId;
    RowIds(s.db);
    match e.cmd {
      case UpdateAccount(_, req) =>
        if e.ok && PatchedAccount(s.db.accounts[id], req) != s.db.accounts[id] {
          ResignedServes(s.db, PatchedAccount(s.db.accounts[id], req), d, a);
        }
      case UpdateJetStream(_, enabled, limits) =>
        if e.ok {
          ResignedServes(s.db, s.db.accounts[id].(jetStreamEnabled := enabled, jetStream := limits), d, a);
        }
      case DeleteAccount(_) =>
        BelowRows(s.db, s.db.accounts.Keys - {id}, s.db.users.Keys);
        hide KeepBelow;
    }
  }

  lemma CreateKeyServes(s: State, e: Event, d: Db, a: Id)
    requires Inv(s) && e.cmd.CreateKey? && Changes(s, e, d) && a in d.accounts
    ensures Serves(s, e, d, a)
  {
    hide Schema, Supplied, Signed, DeclaresNewest, Resigned, DefaultKeyDescription, CreateOperatorStep,
         UpdateOperatorStep, SetSystemAccountStep, DeleteOperatorStep, CreateAccountStep, UpdateAccountStep,
         UpdateJetStreamStep, DeleteAccountStep, UpdateKeyStep, DeleteKeyStep, CreateUserStep, UpdateUserStep,
         DeleteUserStep, ClusterStep;
    var inserted := WithKey(s.db, NewKey(e.cmd.newKey, s.next, e.cmd.now));
    RowIds(s.db);
    FreshIds(s);
    if e.ok {
      ResignedServes(inserted, s.db.accounts[e.cmd.newKey.accountId], d, a);
    }
  }

  lemma UpdateKeyServes(s: State, e: Event, d: Db, a: Id)
    requires Inv(s) && e.cmd.UpdateKey? && Changes(s, e, d) && a in d.accounts
    ensures Serves(s, e, d, a)
  {
    hide Schema, Supplied, Signed, DeclaresNewest, Resigned, DefaultKeyDescription, CreateOperatorStep,
         UpdateOperatorStep, SetSystemAccountStep, DeleteOperatorStep, CreateAccountStep, UpdateAccountStep,
         UpdateJetStreamStep, DeleteAccountStep, CreateKeyStep, DeleteKeyStep, CreateUserStep, UpdateUserStep,
         DeleteUserStep, ClusterStep;
    var id, req := e.cmd.keyId, e.cmd.keyPatch;
    RowIds(s.db);
    if id in s.db.keys && e.ok && ChangesKey(s.db.keys[id], req) {
      ResignedServes(WithKey(s.db, PatchedKey(s.db.keys[id], req)), s.db.accounts[s.db.keys[id].accountId], d, a);
    }
  }

  lemma DeleteKeyServes(s: State, e: Event, d: Db, a: Id)
    requires Inv(s) && e.cmd.DeleteKey? && Changes(s, e, d) && a in d.accounts
    ensures Serves(s, e, d, a)
  {
    hide Schema, Supplied, Signed, DeclaresNewest, Resigned, DefaultKeyDescription, CreateOperatorStep,
         UpdateOperatorStep, SetSystemAccountStep, DeleteOperatorStep, CreateAccountStep, UpdateAccountStep,
         UpdateJetStreamStep, DeleteAccountStep, CreateKeyStep, UpdateKeyStep, CreateUserStep, UpdateUserStep,
         DeleteUserStep, ClusterStep;
    var id := e.cmd.keyId;
    RowIds(s.db);
    if id in s.db.keys {
      DeletedKeyUntouched(s.db, id, a);
      hide WithoutKey;
      if e.ok {
        ResignedServes(WithoutKey(s.db, id), s.db.accounts[s.db.keys[id].accountId], d, a);
      }
    }
  }

  lemma DeletedKeyUntouched(db: Db, id: Id, a: Id)
    requires id in db.keys
    ensures a in db.accounts && a != db.keys[id].accountId ==> Untouched(db, WithoutKey(db, id), a)
  {
  }

  lemma FreshIds(s: State)
    requires Inv(s)
    ensures forall i | i >= s.next :: i !in s.db.operators && i !in s.db.accounts && i !in s.db.keys && i !in s.db.users
  {
    hide Schema, Signed;
  }

  /** A new account declares the one key it has. */
  lemma NewAccountCoherent(db: Db, req: CreateAccountRequest, n: nat, now: int)
    requires AcceptsNewAccount(db, req) && forall k | k in db.keys :: db.keys[k].accountId != n + 1
    ensures Coherent(WithDefaultKey(WithNewAccount(db, req, n, now), n, now), n + 1)
  {
    hide DefaultKeyDescription;
    var d := WithDefaultKey(WithNewAccount(db, req, n, now), n, now);
    var k := NewKey(DefaultKeyRequest(n + 1), n + 2, now);
    var signers := d.accounts[n + 1].jwt.signers;
    assert d.keys[n + 3] == KeyRow(k) == k;
    assert signers == map[k.publicKey := ScopeOf(k)];
    assert KeysOf(d.keys, n + 1) == {n + 3};
    assert Declared(d.keys, n + 1, signers) == {n + 3};
  }

  lemma OthersUntouched(db: Db, req: CreateAccountRequest, n: nat, now: int, a: Id)
    requires AcceptsNewAccount(db, req) && a in db.accounts && a != n + 1 && n + 3 !in db.keys
    ensures Untouched(db, WithNewAccount(db, req, n, now), a)
    ensures Untouched(db, WithDefaultKey(WithNewAccount(db, req, n, now), n, now), a)
  {
    hide DefaultKeyDescription, SignedNewAccount;
  }

  lemma CreateAccountServes(s: State, e: Event, d: Db, a: Id)
    requires Inv(s) && e.cmd.CreateAccount? && Changes(s, e, d) && a in d.accounts
    ensures Serves(s, e, d, a)
  {
    hide Supplied, Signed, DefaultKeyDescription, WithNewAccount, WithDefaultKey, CreateOperatorStep,
         UpdateOperatorStep, SetSystemAccountStep, DeleteOperatorStep, UpdateAccountStep, UpdateJetStreamStep,
         DeleteAccountStep, CreateKeyStep, UpdateKeyStep, DeleteKeyStep, CreateUserStep, UpdateUserStep,
         DeleteUserStep, ClusterStep;
    FreshIds(s);
    NoKeysYet(s, s.next + 1);
    hide Schema;
    if d != s.db {
      NewAccountCoherent(s.db, e.cmd.account, s.next, e.cmd.now);
      NewRow(s.db, e.cmd.account, s.next, e.cmd.now);
      if a in s.db.accounts {
        OthersUntouched(s.db, e.cmd.account, s.next, e.cmd.now, a);
      }
    }
  }

  lemma NewRow(db: Db, req: CreateAccountRequest, n: nat, now: int)
    requires req.operatorId in db.operators && db.operators[req.operatorId].seed.Seed?
    ensures WithNewAccount(db, req, n, now).accounts.Keys == db.accounts.Keys + {n + 1}
    ensures WithDefaultKey(WithNewAccount(db, req, n, now), n, now).accounts.Keys == db.accounts.Keys + {n + 1}
  {
    hide SignedNewAccount, NewKey;
  }

  lemma NoKeysYet(s: State, a: Id)
    requires Inv(s) && a >= s.next
    ensures forall k | k in s.db.keys :: s.db.keys[k].accountId != a
  {
    hide Signed;
    forall k | k in s.db.keys ensures s.db.keys[k].accountId != a {
      assert FitsKey(s.db.accounts.Keys, s.db.keys, s.db.keys[k]);
    }
  }

  /** The stages of `CreateOperator`, seen from the accounts and the keys. */
  lemma StageAccounts(s: State, name: string, description: string, now: int, stage: nat)
    requires 1 <= stage <= 4
    ensures var d1 := CreateOperatorStage(s, name, description, now, 1);
            var req := SystemAccountRequest(s.next + 1);
            var d, d2 := CreateOperatorStage(s, name, description, now, stage),
                         WithDefaultKey(WithNewAccount(d1, req, s.next + 2, now), s.next + 2, now);
            && req.operatorId in d1.operators && d1.operators[req.operatorId].seed.Seed?
            && d1.accounts == s.db.accounts && d1.keys == s.db.keys
            && d.accounts == (if stage == 1 then s.db.accounts else d2.accounts)
            && d.keys == (if stage == 1 then s.db.keys else d2.keys)
  {
    hide DefaultKeyDescription, SystemAccountDescription, SystemUserDescription, WithNewAccount, WithDefaultKey;
  }

  lemma SameAccountsCoherent(db: Db, d: Db, a: Id)
    requires d.accounts == db.accounts && d.keys == db.keys
    ensures Coherent(db, a) <==> Coherent(d, a)
    ensures forall e :: Untouched(e, db, a) <==> Untouched(e, d, a)
    ensures forall e :: Untouched(db, e, a) <==> Untouched(d, e, a)
    ensures a in db.accounts ==> Untouched(db, d, a)
  {
    hide DeclaresNewest;
  }

  lemma StageServes(s: State, name: string, description: string, now: int, stage: nat, a: Id)
    requires Inv(s) && 1 <= stage <= 4 && name != "" && !OperatorTaken(s.db, name)
    requires a in CreateOperatorStage(s, name, description, now, stage).accounts
    ensures var d := CreateOperatorStage(s, name, description, now, stage);
            if a == s.next + 3 then Coherent(d, a) else Untouched(s.db, d, a)
  {
    hide Schema, Supplied, Signed, DefaultKeyDescription, SystemAccountDescription, SystemUserDescription,
         WithNewAccount, WithDefaultKey, CreateOperatorStage, Coherent, Untouched;
    FreshIds(s);
    NoKeysYet(s, s.next + 3);
    SystemAccountAccepted(s, name, description, now);
    StageAccounts(s, name, description, now, stage);
    var d, d1 := CreateOperatorStage(s, name, description, now, stage), CreateOperatorStage(s, name, description, now,
        1);
    var req := SystemAccountRequest(s.next + 1);
    var d2 := WithDefaultKey(WithNewAccount(d1, req, s.next + 2, now), s.next + 2, now);
    NewRow(d1, req, s.next + 2, now);
    SameAccountsCoherent(s.db, d1, a);
    if stage == 1 {
      SameAccountsCoherent(d1, d, a);
    } else {
      SameAccountsCoherent(d2, d, a);
      if a == s.next + 3 {
        NewAccountCoherent(d1, req, s.next + 2, now);
      } else {
        OthersUntouched(d1, req, s.next + 2, now, a);
      }
    }
  }

  lemma CreateOperatorServes(s: State, e: Event, d: Db, a: Id)
    requires Inv(s) && e.cmd.CreateOperator? && Changes(s, e, d) && a in d.accounts
    ensures Serves(s, e, d, a)
  {
    hide Supplied, Signed, DefaultKeyDescription, SystemAccountDescription, SystemUserDescription, WithNewAccount,
         CreateOperatorStage, UpdateOperatorStep, SetSystemAccountStep, DeleteOperatorStep, CreateAccountStep,
         UpdateAccountStep, UpdateJetStreamStep, DeleteAccountStep, CreateKeyStep, UpdateKeyStep, DeleteKeyStep,
         CreateUserStep, UpdateUserStep, DeleteUserStep, ClusterStep;
    var Event(CreateOperator(name, description, now), _, _) := e;
    if d != s.db || e.ok {
      if stage :| 1 <= stage <= 4 && d == CreateOperatorStage(s, name, description, now, stage) {
        StageServes(s, name, description, now, stage, a);
      } else {
        LeftAccountServes(s, name, description, now, a);
      }
    }
  }

  lemma LeftAccountServes(s: State, name: string, description: string, now: int, a: Id)
    requires Inv(s) && name != "" && !OperatorTaken(s.db, name)
    ensures var d := WithNewAccount(CreateOperatorStage(s, name, description, now, 1),
                                    SystemAccountRequest(s.next + 1), s.next + 2, now);
            a in d.accounts && a != s.next + 3 ==> Untouched(s.db, d, a)
  {
    hide Supplied, Signed, DefaultKeyDescription, SystemAccountDescription, WithNewAccount;
    FreshIds(s);
    SystemAccountAccepted(s, name, description, now);
    hide Schema;
    var d1 := CreateOperatorStage(s, name, description, now, 1);
    var req := SystemAccountRequest(s.next + 1);
    NewRow(d1, req, s.next + 2, now);
    if a in s.db.accounts && a != s.next + 3 {
      OthersUntouched(d1, req, s.next + 2, now, a);
    }
  }

  lemma OperatorStepServes(s: State, e: Event, d: Db, a: Id)
    requires Inv(s) && Changes(s, e, d) && a in d.accounts
    requires e.cmd.UpdateOperator? || e.cmd.SetSystemAccount? || e.cmd.DeleteOperator?
    ensures Serves(s, e, d, a)
  {
    hide Sound, Signed, DeclaresNewest, UsersLeft, CreateOperatorStep, CreateAccountStep, UpdateAccountStep,
         UpdateJetStreamStep, DeleteAccountStep, CreateKeyStep, UpdateKeyStep, DeleteKeyStep, CreateUserStep,
         UpdateUserStep, DeleteUserStep, ClusterStep;
    if e.cmd.DeleteOperator? && e.ok {
      BelowRows(s.db, s.db.accounts.Keys - AccountsOf(s.db, e.cmd.operatorId), s.db.users.Keys);
      hide KeepBelow;
    }
  }

  lemma UserStepServes(s: State, e: Event, d: Db, a: Id)
    requires Inv(s) && Changes(s, e, d) && a in d.accounts
    requires e.cmd.CreateUser? || e.cmd.UpdateUser? || e.cmd.DeleteUser?
    ensures Serves(s, e, d, a)
  {
    hide Sound, Signed, DeclaresNewest, CreateOperatorStep, UpdateOperatorStep, SetSystemAccountStep,
         DeleteOperatorStep, CreateAccountStep, UpdateAccountStep, UpdateJetStreamStep, DeleteAccountStep,
         CreateKeyStep, UpdateKeyStep, DeleteKeyStep, ClusterStep;
  }

  lemma ClusterServes(s: State, e: Event, d: Db, a: Id)
    requires e.cmd.OnCluster? && Changes(s, e, d) && a in d.accounts
    ensures Serves(s, e, d, a)
  {
    hide Coherent, Changes;
    OnlyClustersChange(s, e, d);
  }

  lemma StepServes(s: State, e: Event, d: Db, a: Id)
    requires Inv(s) && Changes(s, e, d) && a in d.accounts
    ensures Serves(s, e, d, a)
  {
    hide Inv, Changes, Serves;
    match e.cmd {
      case CreateOperator(_, _, _) => CreateOperatorServes(s, e, d, a);
      case UpdateOperator(_, _) => OperatorStepServes(s, e, d, a);
      case SetSystemAccount(_, _) => OperatorStepServes(s, e, d, a);
      case DeleteOperator(_) => OperatorStepServes(s, e, d, a);
      case CreateAccount(_, _) => CreateAccountServes(s, e, d, a);
      case UpdateAccount(_, _) => AccountStepServes(s, e, d, a);
      case UpdateJetStream(_, _, _) => AccountStepServes(s, e, d, a);
      case DeleteAccount(_) => AccountStepServes(s, e, d, a);
      case CreateKey(_, _) => CreateKeyServes(s, e, d, a);
      case UpdateKey(_, _) => UpdateKeyServes(s, e, d, a);
      case DeleteKey(_) => DeleteKeyServes(s, e, d, a);
      case CreateUser(_, _) => UserStepServes(s, e, d, a);
      case UpdateUser(_, _) => UserStepServes(s, e, d, a);
      case DeleteUser(_) => UserStepServes(s, e, d, a);
      case OnCluster(_) => ClusterServes(s, e, d, a);
    }
  }

  /** Before step `n`, some call on the keys of `a` returned an error after changing the store, and
      no call since has signed the JWT of `a` again. */
  ghost predicate LeftStale(states: seq<State>, events: seq<Event>, n: nat, a: Id)
    requires |states| == |events| + 1 && n <= |events|
  {
    exists i | 0 <= i < n :: Disturbs(states[i], events[i], states[i + 1], a) && NotSince(states, events, i + 1, n, a)
  }

  ghost predicate NotSince(states: seq<State>, events: seq<Event>, from: nat, n: nat, a: Id)
    requires |states| == |events| + 1 && from <= n <= |events|
  {
    forall j | from <= j < n :: !Refreshes(states[j], events[j], a)
  }

  /** Over every run, whatever fails: an account's JWT declares exactly its newest keys, as they are
      stored, unless a call on its keys returned an error and nothing has re-signed it since. */
  lemma {:induction false} CoherentOrStale(states: seq<State>, events: seq<Event>, n: nat, a: Id)
    requires IsRun(states, events) && n <= |events| && a in states[n].db.accounts
    ensures Coherent(states[n].db, a) || LeftStale(states, events, n, a)
  {
    hide Coherent, Step, Inv, Changes, Resigns, Writes, Untouched, DefaultKeyDescription;
    if n > 0 {
      var s, e, s' := states[n - 1], events[n - 1], states[n];
      RunKeeps(states, events, n - 1);
      StepAt(states, events, n - 1);
      StepServes(s, e, s'.db, a);
      if Disturbs(s, e, s', a) {
        assert NotSince(states, events, n, n, a);
      } else if !Refreshes(s, e, a) && !Coherent(s'.db, a) {
        assert Untouched(s.db, s'.db, a);
        UntouchedThere(s.db, s'.db, a);
        CoherentOrStale(states, events, n - 1, a);
        if Coherent(s.db, a) {
          UntouchedCoherent(s.db, s'.db, a);
        } else {
          var i :| 0 <= i < n - 1 && Disturbs(states[i], events[i], states[i + 1], a)
                   && NotSince(states, events, i + 1, n - 1, a);
          assert NotSince(states, events, i + 1, n, a);
        }
      }
    }
  }

  /** With at most `PAGE` keys, "its newest keys" is all of them. */
  lemma DeclaresAllOrStale(states: seq<State>, events: seq<Event>, n: nat, a: Id)
    requires IsRun(states, events) && n <= |events| && a in states[n].db.accounts
    requires |KeysOf(states[n].db.keys, a)| <= PAGE && !LeftStale(states, events, n, a)
    ensures var db := states[n].db;
            db.accounts[a].jwt.AccountJwt? && DeclaresExactly(db.keys, KeysOf(db.keys, a), db.accounts[a].jwt.signers)
  {
    hide Step, DeclaresNewest, DeclaresExactly;
    CoherentOrStale(states, events, n, a);
    DeclaresAllIff(states[n].db.keys, a, states[n].db.accounts[a].jwt.signers);
  }

  /** Field by field: the signer says what the key's row says. */
  predicate Says(scope: Scope, key: ScopedKey) {
    && scope.role == key.name && scope.description == key.description
    && scope.pubAllow == key.pubAllow && scope.pubDeny == key.pubDeny
    && scope.subAllow == key.subAllow && scope.subDeny == key.subDeny
    && (scope.response.Some? <==> key.responseMaxMsgs > 0 || key.responseTtl > 0)
    && (scope.response.Some? ==> scope.response.value == (key.responseMaxMsgs, key.responseTtl))
  }

  /** What NATS applies to the users of the key is what its row says: certainly if it is one of at most
      1000 keys, and whenever it is declared at all. */
  ghost predicate SignerSays(db: Db, k: Id)
    requires k in db.keys
  {
    var key := db.keys[k];
    && key.accountId in db.accounts && db.accounts[key.accountId].jwt.AccountJwt?
    && var signers := db.accounts[key.accountId].jwt.signers;
       && (|KeysOf(db.keys, key.accountId)| <= 1000 ==> key.publicKey in signers)
       && (key.publicKey in signers ==> Says(signers[key.publicKey], key))
  }

  lemma DeclaresFields(db: Db, k: Id)
    requires k in db.keys && Coherent(db, db.keys[k].accountId)
    ensures SignerSays(db, k)
  {
    var a := db.keys[k].accountId;
    var signers := db.accounts[a].jwt.signers;
    DeclaresAllIff(db.keys, a, signers);
    assert k in Declared(db.keys, a, signers) <==> db.keys[k].publicKey in signers;
    hide KeysOf;
  }

  lemma OneFaultCreatesOperator(s: State, e: Event, s': State, a: Id)
    requires Inv(s) && Changes(s, e, s'.db) && e.faults <= 1 && e.cmd.CreateOperator?
    ensures !Disturbs(s, e, s', a)
  {
    hide Sound, Signed, Coherent, CreateOperatorStage, WithNewAccount, DefaultKeyDescription,
         SystemAccountDescription, SystemUserDescription, UpdateOperatorStep, SetSystemAccountStep,
         DeleteOperatorStep, CreateAccountStep, UpdateAccountStep, UpdateJetStreamStep, DeleteAccountStep,
         CreateKeyStep, UpdateKeyStep, DeleteKeyStep, CreateUserStep, UpdateUserStep, DeleteUserStep, ClusterStep;
    var Event(CreateOperator(name, description, now), _, _) := e;
    if Disturbs(s, e, s', a) {
      var stage :| 1 <= stage <= 3 && s'.db == CreateOperatorStage(s, name, description, now, stage);
      StageServes(s, name, description, now, stage, a);
    }
  }

  lemma OneFaultCreatesBelow(s: State, e: Event, s': State, a: Id)
    requires Inv(s) && Changes(s, e, s'.db) && e.faults <= 1 && (e.cmd.CreateAccount? || e.cmd.CreateKey?)
    ensures !Disturbs(s, e, s', a)
  {
    hide Sound, Signed, Coherent, WithNewAccount, Resigned, Signable, AccountTaken, KeyTaken, DefaultKeyDescription,
         CreateOperatorStep, UpdateOperatorStep, SetSystemAccountStep, DeleteOperatorStep, UpdateAccountStep,
         UpdateJetStreamStep, DeleteAccountStep, UpdateKeyStep, DeleteKeyStep, CreateUserStep, UpdateUserStep,
         DeleteUserStep, ClusterStep;
    if e.cmd.CreateKey? && e.cmd.newKey.accountId in s.db.accounts {
      SignableByInv(s, e.cmd.newKey.accountId);
    }
  }

  /** A call that meets at most one fault leaves an account incoherent only if it updates or deletes
      a key: those two have no rollback. */
  lemma OneFaultDisturbs(s: State, e: Event, s': State, a: Id)
    requires Inv(s) && Step(s, e, s') && e.faults <= 1 && Disturbs(s, e, s', a)
    ensures e.cmd.UpdateKey? || e.cmd.DeleteKey?
  {
    hide Inv, Sound, Changes, Coherent;
    if e.cmd.CreateOperator? {
      OneFaultCreatesOperator(s, e, s', a);
    } else if e.cmd.CreateAccount? || e.cmd.CreateKey? {
      OneFaultCreatesBelow(s, e, s', a);
    }
  }

  // Exactly when a failed update or deletion of a key leaves a coherent account at odds with its keys.

  lemma PatchedDeclared(db: Db, k: ScopedKey, signers: map<PubKey, Scope>)
    requires k.id in db.keys && k.publicKey == db.keys[k.id].publicKey && k.accountId == db.keys[k.id].accountId
    ensures KeysOf(WithKey(db, k).keys, k.accountId) == KeysOf(db.keys, k.accountId)
    ensures Declared(WithKey(db, k).keys, k.accountId, signers) == Declared(db.keys, k.accountId, signers)
  {
    hide WholeSeconds;
  }

  /** What an old JWT declares of changed rows, when the declared keys are the same and say the same. */
  lemma DeclaresStill(keys: map<Id, ScopedKey>, now: map<Id, ScopedKey>, a: Id, signers: map<PubKey, Scope>)
    requires DeclaresNewest(keys, a, signers)
    requires Declared(now, a, signers) == Declared(keys, a, signers) && KeysOf(now, a) <= KeysOf(keys, a)
    requires PageSize(|KeysOf(now, a)|, PAGE) == PageSize(|KeysOf(keys, a)|, PAGE)
    requires forall i | i in KeysOf(now, a) ::
               now[i].publicKey == keys[i].publicKey && now[i].createdAt == keys[i].createdAt
    requires forall i | i in Declared(now, a, signers) :: ScopeOf(now[i]) == ScopeOf(keys[i])
    ensures DeclaresNewest(now, a, signers)
  {
    DeclaredIn(keys, a, signers);
    DeclaredIn(now, a, signers);
    hide KeysOf, Declared, ScopeOf, PageSize;
    var declared := Declared(keys, a, signers);
    forall p | p in signers ensures exists i :: i in declared && now[i].publicKey == p {
      var i :| i in declared && keys[i].publicKey == p;
      assert now[i].publicKey == p;
    }
  }

  /** Storing a changed key under the old JWT keeps the account coherent exactly if the key is not
      declared, or nothing that is declared of it has changed. */
  lemma PatchedCoherentIff(db: Db, k: ScopedKey)
    requires KeysFit(db.accounts.Keys, db.keys) && k.id in db.keys
    requires k.publicKey == db.keys[k.id].publicKey && k.accountId == db.keys[k.id].accountId
    requires k.createdAt == db.keys[k.id].createdAt && Coherent(db, k.accountId)
    ensures Coherent(WithKey(db, k), k.accountId) <==>
              k.id !in Declared(db.keys, k.accountId, db.accounts[k.accountId].jwt.signers)
              || ScopeOf(KeyRow(k)) == ScopeOf(db.keys[k.id])
  {
    hide ScopeOf, WholeSeconds, KeysFit, PageSize, KeysOf, Declared, DeclaresNewest;
    var a, d := k.accountId, WithKey(db, k);
    var signers := db.accounts[a].jwt.signers;
    PatchedDeclared(db, k, signers);
    DeclaredIn(db.keys, a, signers);
    if k.id !in Declared(db.keys, a, signers) || ScopeOf(KeyRow(k)) == ScopeOf(db.keys[k.id]) {
      DeclaresStill(db.keys, d.keys, a, signers);
    } else if Coherent(d, a) {
      DeclaredScope(db.keys, a, signers, k.id);
      DeclaredScope(d.keys, a, signers, k.id);
    }
  }

  lemma DeclaredScope(keys: map<Id, ScopedKey>, a: Id, signers: map<PubKey, Scope>, i: Id)
    requires DeclaresNewest(keys, a, signers) && i in Declared(keys, a, signers)
    ensures i in keys && keys[i].publicKey in signers && signers[keys[i].publicKey] == ScopeOf(keys[i])
  {
    hide ScopeOf;
  }

  lemma DeclaredIn(keys: map<Id, ScopedKey>, a: Id, signers: map<PubKey, Scope>)
    ensures Declared(keys, a, signers) <= KeysOf(keys, a) <= keys.Keys
  {
  }

  /** A failed update that changed the store disturbs a coherent account exactly if the key is declared
      and the request changes what is declared of it. */
  lemma FailedUpdateDisturbsIff(s: State, id: Id, req: UpdateKeyRequest, faults: nat, d: Db)
    requires Inv(s) && id in s.db.keys && Coherent(s.db, s.db.keys[id].accountId)
    requires UpdateKeyStep(s, id, req, false, faults, d) && d != s.db
    ensures var k := s.db.keys[id];
            !Coherent(d, k.accountId) <==>
              id in Declared(s.db.keys, k.accountId, s.db.accounts[k.accountId].jwt.signers)
              && ScopeOf(KeyRow(PatchedKey(k, req))) != ScopeOf(k)
  {
    hide OperatorsFit, AccountsFit, KeysFit, UsersFit, ClustersFit, Supplied, Signed, Coherent, ScopeOf, WholeSeconds,
         KeyTaken, Signable, Declared;
    OwnKeyIds(s.db);
    CoherentThere(s.db, s.db.keys[id].accountId);
    PatchedCoherentIff(s.db, PatchedKey(s.db.keys[id], req));
  }

  lemma OwnKeyIds(db: Db)
    requires KeysFit(db.accounts.Keys, db.keys)
    ensures forall i | i in db.keys :: db.keys[i].id == i
  {
    hide FitsKey;
  }

  /** The other keys are declared as before. */
  lemma WithoutKeyDeclared(db: Db, id: Id, a: Id, signers: map<PubKey, Scope>)
    ensures KeysOf(WithoutKey(db, id).keys, a) == KeysOf(db.keys, a) - {id}
    ensures Declared(WithoutKey(db, id).keys, a, signers) == Declared(db.keys, a, signers) - {id}
    ensures forall i | i in db.keys && i != id ::
              i in WithoutKey(db, id).keys && WithoutKey(db, id).keys[i] == db.keys[i]
    ensures WithoutKey(db, id).accounts == db.accounts
  {
  }

  lemma RemovedCoherent(db: Db, id: Id, a: Id)
    requires id in db.keys && db.keys[id].accountId == a && Coherent(db, a)
    requires id !in Declared(db.keys, a, db.accounts[a].jwt.signers)
    ensures Coherent(WithoutKey(db, id), a)
  {
    hide ScopeOf, Declared, WithoutKey, KeysOf, DeclaresNewest;
    var d, signers := WithoutKey(db, id), db.accounts[a].jwt.signers;
    var all, declared := KeysOf(db.keys, a), Declared(db.keys, a, signers);
    WithoutKeyDeclared(db, id, a, signers);
    DeclaredIn(db.keys, a, signers);
    DeclaredSize(db.keys, a, signers, id);
    SubsetSize(declared, all - {id});
    assert |all| == |all - {id}| + 1;
    DeclaresStill(db.keys, d.keys, a, signers);
  }

  lemma DeclaredSize(keys: map<Id, ScopedKey>, a: Id, signers: map<PubKey, Scope>, id: Id)
    requires DeclaresNewest(keys, a, signers) && id in keys && keys[id].accountId == a
    ensures id in KeysOf(keys, a) && |Declared(keys, a, signers)| == PageSize(|KeysOf(keys, a)|, PAGE)
  {
    hide ScopeOf, DeclaresExactly;
  }

  lemma RemovedIncoherent(db: Db, id: Id, a: Id)
    requires KeysFit(db.accounts.Keys, db.keys) && id in db.keys && db.keys[id].accountId == a && Coherent(db, a)
    requires id in Declared(db.keys, a, db.accounts[a].jwt.signers)
    ensures !Coherent(WithoutKey(db, id), a)
  {
    var d, signers := WithoutKey(db, id), db.accounts[a].jwt.signers;
    WithoutKeyDeclared(db, id, a, signers);
    DeclaredIn(d.keys, a, signers);
    hide Declared, KeysOf, WithoutKey, ScopeOf;
    var p := db.keys[id].publicKey;
    forall i | i in d.keys ensures d.keys[i].publicKey != p {
      assert FitsKey(db.accounts.Keys, db.keys, db.keys[i]);
    }
  }

  /** A failed deletion that removed the row disturbs a coherent account exactly if the key was declared. */
  lemma FailedDeletionDisturbsIff(s: State, id: Id, faults: nat, d: Db)
    requires Inv(s) && id in s.db.keys && Coherent(s.db, s.db.keys[id].accountId)
    requires DeleteKeyStep(s, id, false, faults, d) && d != s.db
    ensures var a := s.db.keys[id].accountId;
            !Coherent(d, a) <==> id in Declared(s.db.keys, a, s.db.accounts[a].jwt.signers)
  {
    hide OperatorsFit, AccountsFit, KeysFit, UsersFit, ClustersFit, Supplied, Signed, Coherent, WithoutKey, Signable,
         Declared;
    var a := s.db.keys[id].accountId;
    CoherentThere(s.db, a);
    if id in Declared(s.db.keys, a, s.db.accounts[a].jwt.signers) {
      RemovedIncoherent(s.db, id, a);
    } else {
      RemovedCoherent(s.db, id, a);
    }
  }

  lemma CoherentThere(db: Db, a: Id)
    requires Coherent(db, a)
    ensures a in db.accounts && db.accounts[a].jwt.AccountJwt?
  {
  }

  lemma SignableByInv(s: State, a: Id)
    requires Inv(s) && a in s.db.accounts
    ensures Signable(s.db, a)
  {
    assert AccountSigned(s.db.operators, s.db.accounts[a]);
  }
}
