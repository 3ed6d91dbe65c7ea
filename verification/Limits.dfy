/** The JetStream limits that account JWTs grant, over every run. */
module Limits {
  import opened Entities
  import opened Database
  import opened Transitions
  import opened Invariants
  import opened Runs
  import opened OperatorService
  import opened Coherence
  import opened Outcomes
  import opened KeyOutcomes
  import opened AccountOutcomes
  import opened OperatorOutcomes

  /** The stored maximum is the granted one; only a 0 may have become the column default. */
  predicate Near(granted: int, stored: int) {
    stored == granted || (granted == 0 && stored == -1)
  }

  /** The JWT grants limits exactly if the row has JetStream enabled, and then those of the row, one by one. */
  predicate Follows(a: Account) {
    && a.jwt.AccountJwt? && (a.jwt.limits.Some? <==> a.jetStreamEnabled)
    && (a.jetStreamEnabled ==>
          var granted := a.jwt.limits.value;
          && Near(granted.maxMemory, a.jetStream.maxMemory) && Near(granted.maxStorage, a.jetStream.maxStorage)
          && Near(granted.maxStreams, a.jetStream.maxStreams)
          && Near(granted.maxConsumers, a.jetStream.maxConsumers))
  }

  ghost predicate KeptOrFollows(db: Db, d: Db) {
    forall a | a in d.accounts :: (a in db.accounts && d.accounts[a] == db.accounts[a]) || Follows(d.accounts[a])
  }

  lemma SignedAnewFollows(db: Db, a: Id, row: Account, d: Db)
    requires SignedAnew(db, a, row, d)
    ensures Follows(d.accounts[a])
  {
    hide Coherent;
  }

  lemma AsAskedFollows(db: Db, req: CreateAccountRequest, now: int, a: Account)
    requires AccountAsAsked(db, req, now, a)
    ensures Follows(a)
  {
    hide FreshPair;
  }

  lemma OneRow(db: Db, d: Db, a: Id)
    requires OnlyRow(db.accounts, d.accounts, a) && (a in d.accounts ==> Follows(d.accounts[a]))
    ensures KeptOrFollows(db, d)
  {
    hide Follows;
  }

  lemma InsertedFollows(db: Db, n: nat, req: CreateAccountRequest, now: int)
    requires Supplied(db, n) && AcceptsNewAccount(db, req)
    ensures KeptOrFollows(db, WithNewAccount(db, req, n, now))
    ensures KeptOrFollows(db, WithDefaultKey(WithNewAccount(db, req, n, now), n, now))
  {
    hide Supplied, AccountTaken, SignedNewAccount, AccountRow, AccountAsAsked, Follows, NewKey;
    NewRows(db, n, req, now);
    var d := WithDefaultKey(WithNewAccount(db, req, n, now), n, now);
    AsAskedFollows(db, req, now, d.accounts[n + 1]);
    OneRow(db, d, n + 1);
  }

  lemma SameAccounts(db: Db, x: Db, y: Db)
    requires x.accounts == y.accounts && KeptOrFollows(db, x)
    ensures KeptOrFollows(db, y)
  {
    hide Follows;
  }

  /** What the stages of a new operator do to the accounts. */
  lemma StageLimits(s: State, name: string, description: string, now: int)
    requires Inv(s) && name != "" && !OperatorTaken(s.db, name)
    ensures forall stage | 1 <= stage <= 4 :: KeptOrFollows(s.db, CreateOperatorStage(s, name, description, now, stage))
    ensures var d1 := CreateOperatorStage(s, name, description, now, 1);
            KeptOrFollows(s.db, WithNewAccount(d1, SystemAccountRequest(s.next + 1), s.next + 2, now))
  {
    hide Schema, Signed, OperatorTaken, WithNewAccount, WithDefaultKey, SystemAccountRequest, AcceptsNewAccount,
         KeptOrFollows, CreateOperatorStage;
    var d1, req := CreateOperatorStage(s, name, description, now, 1), SystemAccountRequest(s.next + 1);
    FirstStage(s, name, description, now);
    SystemAccountAccepted(s, name, description, now);
    InsertedFollows(d1, s.next + 2, req, now);
    var d2 := WithDefaultKey(WithNewAccount(d1, req, s.next + 2, now), s.next + 2, now);
    NothingFollows(s.db, d1);
    forall stage | 1 <= stage <= 4 ensures KeptOrFollows(s.db, CreateOperatorStage(s, name, description, now, stage)) {
      StageAccounts(s, name, description, now, stage);
      var d := CreateOperatorStage(s, name, description, now, stage);
      SameBase(s.db, d1, d2);
      SameAccounts(s.db, if stage == 1 then d1 else d2, d);
    }
    SameBase(s.db, d1, WithNewAccount(d1, req, s.next + 2, now));
  }

  lemma NothingFollows(db: Db, d: Db)
    requires d.accounts == db.accounts
    ensures KeptOrFollows(db, d)
  {
    hide Follows;
  }

  lemma SameBase(db: Db, base: Db, d: Db)
    requires base.accounts == db.accounts && KeptOrFollows(base, d)
    ensures KeptOrFollows(db, d)
  {
    hide Follows;
  }

  lemma OperatorLimits(s: State, e: Event, d: Db)
    requires Inv(s) && Changes(s, e, d)
    requires e.cmd.CreateOperator? || e.cmd.UpdateOperator? || e.cmd.SetSystemAccount? || e.cmd.DeleteOperator?
    ensures KeptOrFollows(s.db, d)
  {
    hide Inv, OperatorTaken, CreateOperatorStage, WithNewAccount, Follows, UsersLeft, CreateAccountStep,
         UpdateAccountStep, UpdateJetStreamStep, DeleteAccountStep, CreateKeyStep, UpdateKeyStep, DeleteKeyStep,
         CreateUserStep, UpdateUserStep, DeleteUserStep, ClusterStep, Designating;
    match e.cmd {
      case CreateOperator(name, description, now) =>
        if d != s.db || e.ok { StageLimits(s, name, description, now); }
      case _ =>
    }
  }

  lemma AccountLimits(s: State, e: Event, d: Db)
    requires Inv(s) && Changes(s, e, d)
    requires e.cmd.CreateAccount? || e.cmd.UpdateAccount? || e.cmd.UpdateJetStream? || e.cmd.DeleteAccount?
    ensures KeptOrFollows(s.db, d)
  {
    hide Schema, Supplied, Signed, Follows, Resigned, WithNewAccount, AcceptsNewAccount, SignedAnew, AccountTaken,
         CreateOperatorStep, UpdateOperatorStep, SetSystemAccountStep, DeleteOperatorStep, CreateKeyStep,
         UpdateKeyStep, DeleteKeyStep, CreateUserStep, UpdateUserStep, DeleteUserStep, ClusterStep;
    match e.cmd {
      case CreateAccount(req, now) =>
        if d != s.db { InsertedFollows(s.db, s.next, req, now); }
      case UpdateAccount(id, req) =>
        if d != s.db {
          UpdatedAccount(s, id, req, e.faults, d);
          SignedAnewFollows(s.db, id, s.db.accounts[id].(name := d.accounts[id].name,
                            description := d.accounts[id].description), d);
          OneRow(s.db, d, id);
        }
      case UpdateJetStream(id, enabled, limits) =>
        if e.ok {
          UpdatedLimits(s, id, enabled, limits, e.faults, d);
          SignedAnewFollows(s.db, id, s.db.accounts[id].(jetStreamEnabled := enabled, jetStream := limits), d);
          OneRow(s.db, d, id);
        }
      case DeleteAccount(id) =>
    }
  }

  lemma KeyLimits(s: State, e: Event, d: Db)
    requires Inv(s) && Changes(s, e, d) && (e.cmd.CreateKey? || e.cmd.UpdateKey? || e.cmd.DeleteKey?)
    ensures KeptOrFollows(s.db, d)
  {
    hide Schema, Supplied, Signed, Follows, Resigned, SignedAnew, KeyTaken, Signable, PatchedKey, ChangesKey, Differs,
         SignerSays, WholeSeconds, CreateOperatorStep, UpdateOperatorStep, SetSystemAccountStep, DeleteOperatorStep,
         CreateAccountStep, UpdateAccountStep, UpdateJetStreamStep, DeleteAccountStep, CreateUserStep,
         UpdateUserStep, DeleteUserStep, ClusterStep;
    if e.ok && d != s.db {
      var a := ResignedByKey(s, e, d);
      SignedAnewFollows(s.db, a, s.db.accounts[a], d);
      OneRow(s.db, d, a);
    }
  }

  lemma ResignedByKey(s: State, e: Event, d: Db) returns (a: Id)
    requires Inv(s) && Changes(s, e, d) && (e.cmd.CreateKey? || e.cmd.UpdateKey? || e.cmd.DeleteKey?)
    requires e.ok && d != s.db
    ensures a in s.db.accounts && SignedAnew(s.db, a, s.db.accounts[a], d) && OnlyRow(s.db.accounts, d.accounts, a)
  {
    hide Inv, SignedAnew, CreateOperatorStep, UpdateOperatorStep, SetSystemAccountStep, DeleteOperatorStep,
         CreateAccountStep, UpdateAccountStep, UpdateJetStreamStep, DeleteAccountStep, CreateKeyStep, UpdateKeyStep,
         DeleteKeyStep, CreateUserStep, UpdateUserStep, DeleteUserStep, ClusterStep;
    match e.cmd {
      case CreateKey(req, now) =>
        var k := CreatedKey(s, req, now, true, e.faults, d);
        CreatedKeySigner(s, req, now, e.faults, d, k);
        a := req.accountId;
      case UpdateKey(id, req) =>
        UpdatedKeySigner(s, id, req, e.faults, d);
        a := s.db.keys[id].accountId;
      case DeleteKey(id) =>
        DeletedKeySigner(s, id, e.faults, d);
        a := s.db.keys[id].accountId;
    }
  }

  lemma StepLimits(s: State, e: Event, d: Db)
    requires Inv(s) && Changes(s, e, d)
    ensures KeptOrFollows(s.db, d)
  {
    hide Inv, KeptOrFollows, CreateOperatorStep, UpdateOperatorStep, SetSystemAccountStep, DeleteOperatorStep,
         CreateAccountStep, UpdateAccountStep, UpdateJetStreamStep, DeleteAccountStep, CreateKeyStep, UpdateKeyStep,
         DeleteKeyStep, CreateUserStep, UpdateUserStep, DeleteUserStep, ClusterStep;
    match e.cmd {
      case CreateOperator(_, _, _) => OperatorLimits(s, e, d);
      case UpdateOperator(_, _) => OperatorLimits(s, e, d);
      case SetSystemAccount(_, _) => OperatorLimits(s, e, d);
      case DeleteOperator(_) => OperatorLimits(s, e, d);
      case CreateAccount(_, _) => AccountLimits(s, e, d);
      case UpdateAccount(_, _) => AccountLimits(s, e, d);
      case UpdateJetStream(_, _, _) => AccountLimits(s, e, d);
      case DeleteAccount(_) => AccountLimits(s, e, d);
      case CreateKey(_, _) => KeyLimits(s, e, d);
      case UpdateKey(_, _) => KeyLimits(s, e, d);
      case DeleteKey(_) => KeyLimits(s, e, d);
      case CreateUser(_, _) => UserLimits(s, e, d);
      case UpdateUser(_, _) => UserLimits(s, e, d);
      case DeleteUser(_) => UserLimits(s, e, d);
      case OnCluster(_) => OnlyClustersChange(s, e, d); NothingFollows(s.db, d);
    }
  }

  lemma UserLimits(s: State, e: Event, d: Db)
    requires Changes(s, e, d) && (e.cmd.CreateUser? || e.cmd.UpdateUser? || e.cmd.DeleteUser?)
    ensures KeptOrFollows(s.db, d)
  {
    hide AcceptsNewUser, HasSigner, SignedUser, UserTaken, Follows, CreateOperatorStep, UpdateOperatorStep,
         SetSystemAccountStep, DeleteOperatorStep, CreateAccountStep, UpdateAccountStep, UpdateJetStreamStep,
         DeleteAccountStep, CreateKeyStep, UpdateKeyStep, DeleteKeyStep, ClusterStep;
  }

  /** Over every run, whatever fails: an account's JWT grants limits exactly if its row enables JetStream, and
      each of them is the row's - or a 0 that was asked for when the account was created, and for which the
      row has the column default -1. */
  lemma {:induction false} LimitsFollowRows(states: seq<State>, events: seq<Event>, n: nat, a: Id)
    requires |states| == |events| + 1 && n <= |events| && a in states[n].db.accounts
    requires IsRun(states, events)
    ensures Follows(states[n].db.accounts[a])
  {
    hide Inv, Changes, Sound, Follows;
    if n > 0 {
      RunKeeps(states, events, n - 1);
      StepLimits(states[n - 1], events[n - 1], states[n].db);
      if a in states[n - 1].db.accounts {
        LimitsFollowRows(states, events, n - 1, a);
      }
    }
  }
}
