/** Runs: any sequence of service calls from the empty store, each with any pattern of faults. */
module Runs {
  import opened Entities
  import opened Database
  import opened Transitions
  import opened Invariants
  import opened OperatorService

  ghost predicate IsRun(states: seq<State>, events: seq<Event>) {
    && |states| == |events| + 1 && states[0].db == EMPTY
    && forall i | 0 <= i < |events| :: Step(states[i], events[i], states[i + 1])
  }

  lemma ExtendRun(states: seq<State>, events: seq<Event>, e: Event, s: State)
    requires IsRun(states, events) && Step(states[|events|], e, s)
    ensures IsRun(states + [s], events + [e])
  {
    hide Step;
    assert forall j | 0 <= j < |events| :: Step(states[j], events[j], states[j + 1]);
  }

  // Every step keeps the invariant, command by command.

  lemma SignedLater(db: Db, next: nat, next': nat)
    requires Signed(db, next) && next <= next'
    ensures Signed(db, next')
  {
    forall i | i in db.users ensures UserSigned(db.accounts, db.keys, next', db.users[i]) {
      assert UserSigned(db.accounts, db.keys, next, db.users[i]);
    }
  }

  lemma RowIds(db: Db)
    requires Schema(db)
    ensures forall i | i in db.accounts :: db.accounts[i].id == i
    ensures forall i | i in db.keys :: db.keys[i].id == i
    ensures forall i | i in db.users :: db.users[i].id == i && db.users[i].accountId in db.accounts
  {
    forall i | i in db.users ensures db.users[i].accountId in db.accounts {
      assert FitsUser(db.accounts.Keys, db.keys.Keys, db.users, db.users[i]);
    }
  }

  lemma UpdateAccountKeeps(s: State, id: Id, req: UpdateRequest, ok: bool, faults: nat, d: Db, next: nat)
    requires Inv(s) && UpdateAccountStep(s, id, req, ok, faults, d) && s.next <= next
    ensures Signed(d, next)
  {
    hide Schema, Supplied, Signed;
    SignedLater(s.db, s.next, next);
    RowIds(s.db);
    if ok && PatchedAccount(s.db.accounts[id], req) != s.db.accounts[id] {
      ResignedSigned(s, PatchedAccount(s.db.accounts[id], req), d, next);
    }
  }

  lemma UpdateJetStreamKeeps(s: State, id: Id, enabled: bool, limits: JetStream, ok: bool, faults: nat, d: Db,
      next: nat)
    requires Inv(s) && UpdateJetStreamStep(s, id, enabled, limits, ok, faults, d) && s.next <= next
    ensures Signed(d, next)
  {
    hide Schema, Supplied, Signed;
    SignedLater(s.db, s.next, next);
    RowIds(s.db);
    if ok {
      ResignedSigned(s, s.db.accounts[id].(jetStreamEnabled := enabled, jetStream := limits), d, next);
    }
  }

  lemma DeleteAccountKeeps(s: State, id: Id, ok: bool, faults: nat, d: Db, next: nat)
    requires Inv(s) && DeleteAccountStep(s, id, ok, faults, d) && s.next <= next
    ensures Signed(d, next)
  {
    SignedLater(s.db, s.next, next);
    DeletedAccountSigned(s, s.db.accounts.Keys - {id}, s.db.users.Keys, next);
  }

  lemma DeletedAccountSigned(s: State, accts: set<Id>, users: set<Id>, next: nat)
    requires Inv(s) && s.next <= next
    ensures Signed(KeepBelow(s.db, accts, users), next)
  {
    var ks := set i | i in s.db.keys && s.db.keys[i].accountId in accts;
    var us := set i | i in s.db.users && s.db.users[i].accountId in accts && i in users;
    KeepSigned(s, accts, ks, us, next);
  }

  lemma CreateAccountKeeps(s: State, req: CreateAccountRequest, n: nat, now: int, next: nat)
    requires Supplied(s.db, s.next) && Signed(s.db, s.next) && AcceptsNewAccount(s.db, req)
    requires s.next <= n && s.next <= next
    ensures Signed(WithNewAccount(s.db, req, n, now), next)
    ensures n + 2 <= next ==> Signed(WithDefaultKey(WithNewAccount(s.db, req, n, now), n, now), next)
  {
    hide Supplied, Signed, DefaultKeyDescription, WithNewAccount;
    var d := WithNewAccount(s.db, req, n, now);
    var k := NewKey(DefaultKeyRequest(n + 1), n + 2, now);
    NewAccountSigned(s, req, n, now, n + 2);
    NewAccountSigned(s, req, n, now, next);
    NewAccountSupplied(s, req, n, now);
    if n + 2 <= next {
      NewKeySigned(State(d, n + 2), k, next);
      assert WithKey(d, k) == WithDefaultKey(d, n, now);
    }
  }

  lemma NewAccountSupplied(s: State, req: CreateAccountRequest, n: nat, now: int)
    requires Supplied(s.db, s.next) && s.next <= n && AcceptsNewAccount(s.db, req)
    ensures Supplied(WithNewAccount(s.db, req, n, now), n + 2)
  {
    hide DefaultKeyDescription;
    var d := WithNewAccount(s.db, req, n, now);
    assert d.accounts[n + 1].publicKey == Key('A', n);
  }

  lemma CreateKeyKeeps(s: State, req: CreateKeyRequest, now: int, ok: bool, faults: nat, d: Db, next: nat)
    requires Inv(s) && CreateKeyStep(s, req, now, ok, faults, d) && s.next <= next
    ensures Signed(d, next)
  {
    hide Schema, Supplied, Signed;
    SignedLater(s.db, s.next, next);
    RowIds(s.db);
    if ok || d != s.db {
      var k := NewKey(req, s.next, now);
      NewKeySigned(s, k, s.next);
      NewKeySigned(s, k, next);
      if ok {
        ResignedSigned(State(WithKey(s.db, k), s.next), s.db.accounts[req.accountId], d, next);
      }
    }
  }

  lemma UpdateKeyKeeps(s: State, id: Id, req: UpdateKeyRequest, ok: bool, faults: nat, d: Db, next: nat)
    requires Inv(s) && UpdateKeyStep(s, id, req, ok, faults, d) && s.next <= next
    ensures Signed(d, next)
  {
    hide Schema, Supplied, Signed;
    SignedLater(s.db, s.next, next);
    RowIds(s.db);
    if id in s.db.keys && d != s.db {
      var k := PatchedKey(s.db.keys[id], req);
      PatchedKeySigned(s, k, next);
      PatchedKeySigned(s, k, s.next);
      if ok {
        ResignedSigned(State(WithKey(s.db, k), s.next), s.db.accounts[k.accountId], d, next);
      }
    }
  }

  lemma DeleteKeyKeeps(s: State, id: Id, ok: bool, faults: nat, d: Db, next: nat)
    requires Inv(s) && DeleteKeyStep(s, id, ok, faults, d) && s.next <= next
    ensures Signed(d, next)
  {
    hide Schema, Supplied, Signed;
    SignedLater(s.db, s.next, next);
    RowIds(s.db);
    if id in s.db.keys && d != s.db {
      DeletedKeySigned(s, id, next);
      DeletedKeySigned(s, id, s.next);
      var accountId := s.db.keys[id].accountId;
      if ok {
        ResignedSigned(State(WithoutKey(s.db, id), s.next), s.db.accounts[accountId], d, next);
      }
    }
  }

  lemma DeletedKeySigned(s: State, id: Id, next: nat)
    requires Inv(s) && s.next <= next
    ensures Signed(WithoutKey(s.db, id), next)
  {
    RowIds(s.db);
    KeepSigned(s, s.db.accounts.Keys, s.db.keys.Keys - {id}, s.db.users.Keys, next);
  }

  lemma CreateUserKeeps(s: State, req: CreateUserRequest, now: int, ok: bool, faults: nat, d: Db, next: nat)
    requires Inv(s) && CreateUserStep(s, req, now, ok, faults, d) && s.next <= next
    ensures Signed(d, next)
  {
    hide Sound, Signed;
    SignedLater(s.db, s.next, next);
    if ok {
      WithUserSigned(s, NewUser(req, s.next, now), next);
    }
  }

  lemma UpdateUserKeeps(s: State, id: Id, req: UpdateRequest, ok: bool, faults: nat, d: Db, next: nat)
    requires Inv(s) && UpdateUserStep(s, id, req, ok, faults, d) && s.next <= next
    ensures Signed(d, next)
  {
    hide Sound, OperatorsSigned, AccountsSigned, KeysSeeded;
    SignedLater(s.db, s.next, next);
    if id in s.db.users && ok && PatchedUser(s.db.users[id], req) != s.db.users[id] {
      assert UserSigned(s.db.accounts, s.db.keys, s.next, s.db.users[id]);
      WithUserSigned(s, PatchedUser(s.db.users[id], req), next);
    }
  }

  lemma DeleteUserKeeps(s: State, id: Id, ok: bool, faults: nat, d: Db, next: nat)
    requires Inv(s) && DeleteUserStep(s, id, ok, faults, d) && s.next <= next
    ensures Signed(d, next)
  {
    hide Schema, Supplied, Signed;
    SignedLater(s.db, s.next, next);
    RowIds(s.db);
    KeepSigned(s, s.db.accounts.Keys, s.db.keys.Keys, s.db.users.Keys - {id}, next);
  }

  lemma UpdateOperatorKeeps(s: State, id: Id, req: UpdateRequest, ok: bool, faults: nat, d: Db, next: nat)
    requires Inv(s) && UpdateOperatorStep(s, id, req, ok, faults, d) && s.next <= next
    ensures Signed(d, next)
  {
    hide Supplied, AccountsFit, KeysFit, UsersFit, ClustersFit, AccountsSigned, KeysSeeded, UsersSigned;
    SignedLater(s.db, s.next, next);
    if id in s.db.operators && ok && PatchedOperator(s.db.operators[id], req) != s.db.operators[id] {
      var o := s.db.operators[id];
      WithOperatorSigned(s, Designating(PatchedOperator(o, req), o.systemAccount), next);
    }
  }

  lemma SetSystemAccountKeeps(s: State, id: Id, k: PubKey, ok: bool, faults: nat, d: Db, next: nat)
    requires Inv(s) && SetSystemAccountStep(s, id, k, ok, faults, d) && s.next <= next
    ensures Signed(d, next)
  {
    hide Supplied, AccountsFit, KeysFit, UsersFit, ClustersFit, AccountsSigned, KeysSeeded, UsersSigned;
    SignedLater(s.db, s.next, next);
    if id in s.db.operators && ok {
      var o := s.db.operators[id];
      WithOperatorSigned(s, if NamesSystemAccount(o.jwt, k) then o.(systemAccount := k) else Designating(o, k), next);
    }
  }

  /** A user whose account is still there keeps its key, because the key is of the same account. */
  lemma UserOfPart(s: State, id: Id, d: Db, u: Id, next: nat)
    requires Signed(s.db, s.next) && PartlyDeleted(s.db, id, d) && s.next <= next && u in d.users
    ensures UserSigned(d.accounts, d.keys, next, d.users[u]) && d.users[u] == s.db.users[u]
  {
    hide KeysSeeded, OperatorsSigned, AccountsSigned, Gone;
    assert UserSigned(s.db.accounts, s.db.keys, s.next, s.db.users[u]);
    if s.db.users[u].scopedKeyId.None? && s.db.users[u].jwt.scoped {
      GoneInPart(s, id, d, s.db.users[u].jwt.issuer, next);
    }
  }

  lemma GoneInPart(s: State, id: Id, d: Db, p: PubKey, next: nat)
    requires PartlyDeleted(s.db, id, d) && Gone(s.db.accounts, s.db.keys, s.next, p) && s.next <= next
    ensures Gone(d.accounts, d.keys, next, p)
  {
  }

  lemma PartlyDeletedRows(s: State, id: Id, d: Db)
    requires AccountsLeft(s.db, id, d)
    ensures OperatorsSigned(s.db.operators) ==> OperatorsSigned(d.operators)
    ensures AccountsSigned(s.db.operators, s.db.accounts) ==> AccountsSigned(d.operators, d.accounts)
    ensures KeysSeeded(s.db.accounts, s.db.keys) ==> KeysSeeded(d.accounts, d.keys)
  {
    hide AccountSigned;
  }

  lemma PartlyDeletedSigned(s: State, id: Id, d: Db, next: nat)
    requires Signed(s.db, s.next) && PartlyDeleted(s.db, id, d) && s.next <= next
    ensures Signed(d, next)
  {
    hide OperatorsSigned, KeysSeeded, AccountsSigned, AccountsLeft, UsersLeft, UserSigned;
    PartlyDeletedRows(s, id, d);
    forall u | u in d.users ensures UserSigned(d.accounts, d.keys, next, d.users[u]) {
      UserOfPart(s, id, d, u, next);
    }
  }

  lemma OperatorGoneSigned(s: State, id: Id, next: nat)
    requires Inv(s) && s.next <= next
    ensures Signed(WithoutOperator(s.db, id), next)
  {
    hide Sound, KeysSeeded, UsersSigned, KeepBelow;
    var accts := s.db.accounts.Keys - AccountsOf(s.db, id);
    DeletedAccountSigned(s, accts, s.db.users.Keys, next);
    BelowRows(s.db, accts, s.db.users.Keys);
    var d := WithoutOperator(s.db, id);
    forall i | i in d.accounts ensures AccountSigned(d.operators, d.accounts[i]) {
      assert AccountSigned(s.db.operators, s.db.accounts[i]);
      assert i !in AccountsOf(s.db, id);
    }
  }

  lemma DeleteOperatorKeeps(s: State, id: Id, ok: bool, faults: nat, d: Db, next: nat)
    requires Inv(s) && DeleteOperatorStep(s, id, ok, faults, d) && s.next <= next
    ensures Signed(d, next)
  {
    hide Sound, Signed, PartlyDeleted, WithoutOperator;
    if ok {
      OperatorGoneSigned(s, id, next);
    } else {
      PartlyDeletedSigned(s, id, d, next);
    }
  }

  lemma NewOperatorSupplied(s: State, name: string, description: string, now: int)
    requires Supplied(s.db, s.next)
    ensures Supplied(WithOperator(s.db, NewOperator(name, description, s.next, now)), s.next + 2)
  {
  }

  /** Whatever stage the creation of an operator stops at, the rows it leaves are signed. */
  lemma AccountStagesSigned(s: State, name: string, description: string, now: int, next: nat)
    requires Sound(s.db, s.next) && Signed(s.db, s.next) && s.next + 2 <= next
    requires name != "" && !OperatorTaken(s.db, name)
    ensures Signed(CreateOperatorStage(s, name, description, now, 1), next)
    ensures Signed(WithNewAccount(CreateOperatorStage(s, name, description, now, 1),
                                  SystemAccountRequest(s.next + 1), s.next + 2, now), next)
    ensures s.next + 4 <= next ==> Signed(CreateOperatorStage(s, name, description, now, 2), next)
  {
    hide Schema, Supplied, Signed, DefaultKeyDescription, SystemAccountDescription, SystemUserDescription,
         WithNewAccount, WithDefaultKey;
    var o := NewOperator(name, description, s.next, now);
    var s1 := State(WithOperator(s.db, o), s.next + 2);
    SystemAccountAccepted(s, name, description, now);
    FreshOperatorFits(s, name, description, now);
    NewOperatorSupplied(s, name, description, now);
    WithOperatorSigned(s, o, s.next + 2);
    WithOperatorSigned(s, o, next);
    CreateAccountKeeps(s1, SystemAccountRequest(o.id), s.next + 2, now, next);
  }

  lemma UserStagesSigned(s: State, name: string, description: string, now: int, next: nat)
    requires Sound(s.db, s.next) && Signed(s.db, s.next) && s.next + 4 <= next
    requires name != "" && !OperatorTaken(s.db, name)
    ensures Signed(CreateOperatorStage(s, name, description, now, 3), next)
    ensures Signed(CreateOperatorStage(s, name, description, now, 4), next)
  {
    hide Schema, Supplied, Signed, DefaultKeyDescription, SystemAccountDescription, SystemUserDescription,
         CreateOperatorStage;
    AccountStagesSigned(s, name, description, now, next);
    StageTables(s, name, description, now);
    SystemAccountSeed(s, name, description, now);
    var o := NewOperator(name, description, s.next, now);
    var d2 := CreateOperatorStage(s, name, description, now, 2);
    var u := NewUser(SystemUserRequest(s.next + 3), s.next + 6, now);
    WithUserSigned(State(d2, next), u, next);
    var d3 := CreateOperatorStage(s, name, description, now, 3);
    WithOperatorSigned(State(d3, next), Designating(o, Key('A', s.next + 2)), next);
  }

  lemma SystemAccountSeed(s: State, name: string, description: string, now: int)
    ensures var d2 := CreateOperatorStage(s, name, description, now, 2);
            s.next + 3 in d2.accounts && d2.accounts[s.next + 3].seed.Seed?
  {
    hide DefaultKeyDescription, SystemAccountDescription, SystemUserDescription;
  }

  /** The rows of each stage tell how much has been drawn. */
  lemma StageDrawn(s: State, name: string, description: string, now: int, stage: nat, next: nat)
    requires 1 <= stage <= 4 && Supplied(CreateOperatorStage(s, name, description, now, stage), next)
    ensures s.next + 2 <= next && (stage > 1 ==> s.next + 4 <= next)
  {
    hide DefaultKeyDescription, SystemAccountDescription, SystemUserDescription;
    var d := CreateOperatorStage(s, name, description, now, stage);
    assert s.next + 1 in d.operators;
    assert stage > 1 ==> s.next + 5 in d.keys;
  }

  lemma CreateOperatorKeeps(s: State, name: string, description: string, now: int, ok: bool, faults: nat, d: Db,
      next: nat)
    requires Inv(s) && CreateOperatorStep(s, name, description, now, ok, faults, d)
    requires Supplied(d, next) && s.next <= next
    ensures Signed(d, next)
  {
    hide Schema, Signed, CreateOperatorStage, WithNewAccount;
    SignedLater(s.db, s.next, next);
    if d != s.db {
      if stage :| 1 <= stage <= 4 && d == CreateOperatorStage(s, name, description, now, stage) {
        StageDrawn(s, name, description, now, stage, next);
        AccountStagesSigned(s, name, description, now, next);
        if stage > 2 {
          UserStagesSigned(s, name, description, now, next);
        }
      } else {
        LeftAccountDrawn(s, name, description, now, next);
        AccountStagesSigned(s, name, description, now, next);
      }
    }
  }

  lemma LeftAccountDrawn(s: State, name: string, description: string, now: int, next: nat)
    requires Supplied(WithNewAccount(CreateOperatorStage(s, name, description, now, 1),
                                     SystemAccountRequest(s.next + 1), s.next + 2, now), next)
    ensures s.next + 2 <= next
  {
    hide DefaultKeyDescription, SystemAccountDescription;
    var d := WithNewAccount(CreateOperatorStage(s, name, description, now, 1),
                            SystemAccountRequest(s.next + 1), s.next + 2, now);
    assert s.next + 3 in d.accounts;
  }

  /** Every step, successful or not, keeps the invariant. */
  lemma StepKeeps(s: State, e: Event, s': State)
    requires Inv(s) && Step(s, e, s')
    ensures Inv(s')
  {
    hide Schema, Supplied, Signed, CreateOperatorStep, UpdateOperatorStep, SetSystemAccountStep, DeleteOperatorStep,
         CreateAccountStep, UpdateAccountStep, UpdateJetStreamStep, DeleteAccountStep, CreateKeyStep, UpdateKeyStep,
         DeleteKeyStep, CreateUserStep, UpdateUserStep, DeleteUserStep, ClusterStep;
    var d, n := s'.db, s'.next;
    match e.cmd {
      case CreateOperator(name, description, now) => CreateOperatorKeeps(s, name, description, now, e.ok, e.faults, d,
          n);
      case UpdateOperator(id, req) => UpdateOperatorKeeps(s, id, req, e.ok, e.faults, d, n);
      case SetSystemAccount(id, k) => SetSystemAccountKeeps(s, id, k, e.ok, e.faults, d, n);
      case DeleteOperator(id) => DeleteOperatorKeeps(s, id, e.ok, e.faults, d, n);
      case CreateAccount(req, now) => NewAccountKeeps(s, req, now, e.ok, e.faults, d, n);
      case UpdateAccount(id, req) => UpdateAccountKeeps(s, id, req, e.ok, e.faults, d, n);
      case UpdateJetStream(id, on, limits) => UpdateJetStreamKeeps(s, id, on, limits, e.ok, e.faults, d, n);
      case DeleteAccount(id) => DeleteAccountKeeps(s, id, e.ok, e.faults, d, n);
      case CreateKey(req, now) => CreateKeyKeeps(s, req, now, e.ok, e.faults, d, n);
      case UpdateKey(id, req) => UpdateKeyKeeps(s, id, req, e.ok, e.faults, d, n);
      case DeleteKey(id) => DeleteKeyKeeps(s, id, e.ok, e.faults, d, n);
      case CreateUser(req, now) => CreateUserKeeps(s, req, now, e.ok, e.faults, d, n);
      case UpdateUser(id, req) => UpdateUserKeeps(s, id, req, e.ok, e.faults, d, n);
      case DeleteUser(id) => DeleteUserKeeps(s, id, e.ok, e.faults, d, n);
      case OnCluster(c) => ClusterKeeps(s, c, e.ok, e.faults, d, n);
    }
  }

  lemma ClusterKeeps(s: State, c: ClusterCommand, ok: bool, faults: nat, d: Db, next: nat)
    requires Inv(s) && ClusterStep(s, c, ok, faults, d) && s.next <= next
    ensures Signed(d, next)
  {
    hide Sound, ClusterStep;
    ClusterStepOnlyClusters(s, c, ok, faults, d);
    SignedLater(s.db, s.next, next);
  }

  lemma NewAccountKeeps(s: State, req: CreateAccountRequest, now: int, ok: bool, faults: nat, d: Db, next: nat)
    requires Inv(s) && CreateAccountStep(s, req, now, ok, faults, d) && Supplied(d, next) && s.next <= next
    ensures Signed(d, next)
  {
    hide Schema, Signed;
    SignedLater(s.db, s.next, next);
    if d != s.db {
      CreateAccountKeeps(s, req, s.next, now, next);
      if ok {
        assert s.next + 3 in d.keys by { hide DefaultKeyDescription; }
      }
    }
  }

  lemma StepAt(states: seq<State>, events: seq<Event>, i: nat)
    requires IsRun(states, events) && i < |events|
    ensures Step(states[i], events[i], states[i + 1]) && Changes(states[i], events[i], states[i + 1].db)
    ensures states[i].next <= states[i + 1].next
  {
    hide Changes, Sound;
  }

  lemma EmptyKeeps(s: State)
    requires s.db == EMPTY
    ensures Inv(s)
  {
  }

  lemma {:induction false} RunKeeps(states: seq<State>, events: seq<Event>, i: nat)
    requires IsRun(states, events) && i < |states|
    ensures Inv(states[i])
  {
    hide Inv, Step, Changes;
    if i == 0 {
      EmptyKeeps(states[0]);
    } else {
      RunKeeps(states, events, i - 1);
      StepAt(states, events, i - 1);
      StepKeeps(states[i - 1], events[i - 1], states[i]);
    }
  }
}
