/** The system account of an operator: what its JWT names, and whether that account exists. */
module SystemAccounts {
  import opened Entities
  import opened Database
  import opened Jwts
  import opened Transitions
  import opened Invariants
  import opened Runs
  import opened Coherence

  /** The operator designates none, or one of its own accounts. */
  ghost predicate Designated(db: Db, id: Id)
    requires id in db.operators
  {
    var k := db.operators[id].systemAccount;
    k == NoKey || exists a :: a in AccountsOf(db, id) && db.accounts[a].publicKey == k
  }

  /** The designation that the call makes, if it makes one, is of an account of that operator. */
  predicate OwnDesignation(s: State, e: Event) {
    e.cmd.SetSystemAccount? ==>
      e.cmd.key == NoKey || exists a | a in AccountsOf(s.db, e.cmd.operatorId) ::
            s.db.accounts[a].publicKey == e.cmd.key
  }

  predicate FailedDeletion(e: Event, id: Id) {
    e.cmd == DeleteOperator(id) && !e.ok
  }

  /** The operator's own accounts are all still there, with the same key pairs, under the same designation. */
  ghost predicate Undisturbed(db: Db, d: Db, id: Id) {
    && id in db.operators && id in d.operators && d.operators[id].systemAccount == db.operators[id].systemAccount
    && forall a | a in AccountsOf(db, id) && db.accounts[a].publicKey == db.operators[id].systemAccount ::
         a in AccountsOf(d, id) && d.accounts[a].publicKey == db.accounts[a].publicKey
  }

  lemma UndisturbedDesignated(db: Db, d: Db, id: Id)
    requires Undisturbed(db, d, id) && Designated(db, id)
    ensures Designated(d, id)
  {
  }

  ghost predicate Guards(s: State, e: Event, d: Db, id: Id) {
    Undisturbed(s.db, d, id) || (id in d.operators && Designated(d, id)) || FailedDeletion(e, id)
  }

  ghost predicate AccountsStay(db: Db, d: Db) {
    && d.operators == db.operators
    && forall a | a in db.accounts ::
         && a in d.accounts && d.accounts[a].operatorId == db.accounts[a].operatorId
         && d.accounts[a].publicKey == db.accounts[a].publicKey
  }

  lemma StayingAccounts(db: Db, d: Db, id: Id)
    requires AccountsStay(db, d) && id in db.operators
    ensures Undisturbed(db, d, id) && (Designated(db, id) ==> Designated(d, id))
  {
  }

  lemma ResignedStays(db: Db, b: Account, d: Db)
    requires Resigned(db, b, d) && b.publicKey == db.accounts[b.id].publicKey
    ensures AccountsStay(db, d)
  {
    hide DeclaresNewest;
  }

  lemma KeyStepGuards(s: State, e: Event, d: Db)
    requires Inv(s) && Changes(s, e, d) && (e.cmd.CreateKey? || e.cmd.UpdateKey? || e.cmd.DeleteKey?)
    ensures AccountsStay(s.db, d)
  {
    hide Schema, Supplied, Signed, Resigned, CreateOperatorStep, UpdateOperatorStep, SetSystemAccountStep,
         DeleteOperatorStep, CreateAccountStep, UpdateAccountStep, UpdateJetStreamStep, DeleteAccountStep,
         CreateUserStep, UpdateUserStep, DeleteUserStep, ClusterStep;
    RowIds(s.db);
    if e.ok {
      match e.cmd {
        case CreateKey(req, now) =>
          ResignedStays(WithKey(s.db, NewKey(req, s.next, now)), s.db.accounts[req.accountId], d);
        case UpdateKey(id, req) =>
          if ChangesKey(s.db.keys[id], req) {
            ResignedStays(WithKey(s.db, PatchedKey(s.db.keys[id], req)), s.db.accounts[s.db.keys[id].accountId], d);
          }
        case DeleteKey(id) =>
          ResignedStays(WithoutKey(s.db, id), s.db.accounts[s.db.keys[id].accountId], d);
      }
    }
  }

  lemma AccountStepGuards(s: State, e: Event, d: Db, id: Id)
    requires Inv(s) && Changes(s, e, d) && id in d.operators
    requires e.cmd.UpdateAccount? || e.cmd.UpdateJetStream? || e.cmd.DeleteAccount?
    ensures Guards(s, e, d, id)
  {
    hide Schema, Supplied, Signed, Resigned, CreateOperatorStep, UpdateOperatorStep, SetSystemAccountStep,
         DeleteOperatorStep, CreateAccountStep, CreateKeyStep, UpdateKeyStep, DeleteKeyStep, CreateUserStep,
         UpdateUserStep, DeleteUserStep, ClusterStep;
    RowIds(s.db);
    match e.cmd {
      case UpdateAccount(a, req) =>
        if e.ok && PatchedAccount(s.db.accounts[a], req) != s.db.accounts[a] {
          ResignedStays(s.db, PatchedAccount(s.db.accounts[a], req), d);
          StayingAccounts(s.db, d, id);
        }
      case UpdateJetStream(a, enabled, limits) =>
        if e.ok {
          ResignedStays(s.db, s.db.accounts[a].(jetStreamEnabled := enabled, jetStream := limits), d);
          StayingAccounts(s.db, d, id);
        }
      case DeleteAccount(a) =>
    }
  }

  lemma SideStepGuards(s: State, e: Event, d: Db)
    requires Inv(s) && Changes(s, e, d)
    requires e.cmd.CreateUser? || e.cmd.UpdateUser? || e.cmd.DeleteUser? || e.cmd.CreateAccount?
    ensures AccountsStay(s.db, d)
  {
    hide Schema, Supplied, Signed, SignedNewAccount, SignedUser, DefaultKeyDescription, CreateOperatorStep,
         UpdateOperatorStep, SetSystemAccountStep, DeleteOperatorStep, UpdateAccountStep, UpdateJetStreamStep,
         DeleteAccountStep, CreateKeyStep, UpdateKeyStep, DeleteKeyStep, ClusterStep;
    FreshIds(s);
  }

  lemma OperatorStepGuards(s: State, e: Event, d: Db, id: Id)
    requires Inv(s) && Changes(s, e, d) && id in d.operators && OwnDesignation(s, e)
    requires e.cmd.UpdateOperator? || e.cmd.SetSystemAccount? || e.cmd.DeleteOperator?
    ensures Guards(s, e, d, id)
  {
    hide Supplied, AccountsFit, KeysFit, UsersFit, ClustersFit, Signed, UsersLeft, CreateOperatorStep,
         CreateAccountStep, UpdateAccountStep, UpdateJetStreamStep, DeleteAccountStep, CreateKeyStep, UpdateKeyStep,
         DeleteKeyStep, CreateUserStep, UpdateUserStep, DeleteUserStep, ClusterStep;
  }

  lemma CreateOperatorGuards(s: State, e: Event, d: Db, id: Id)
    requires Inv(s) && Changes(s, e, d) && id in d.operators && e.cmd.CreateOperator?
    ensures Guards(s, e, d, id)
  {
    hide Sound, Signed, SignedNewAccount, DefaultKeyDescription, SystemAccountDescription, SystemUserDescription,
         CreateOperatorStage, UpdateOperatorStep, SetSystemAccountStep, DeleteOperatorStep, CreateAccountStep,
         UpdateAccountStep, UpdateJetStreamStep, DeleteAccountStep, CreateKeyStep, UpdateKeyStep, DeleteKeyStep,
         CreateUserStep, UpdateUserStep, DeleteUserStep, ClusterStep;
    FreshIds(s);
    var Event(CreateOperator(name, description, now), _, _) := e;
    if d != s.db || e.ok {
      if stage :| 1 <= stage <= 4 && d == CreateOperatorStage(s, name, description, now, stage) {
        StageGuards(s, name, description, now, stage, id);
      } else {
        var d1 := CreateOperatorStage(s, name, description, now, 1);
        LeftAccountStays(s, name, description, now);
        StageGuards(s, name, description, now, 1, id);
        StayingAccounts(d1, d, id);
      }
    }
  }

  lemma LeftAccountStays(s: State, name: string, description: string, now: int)
    requires Inv(s)
    ensures var d1 := CreateOperatorStage(s, name, description, now, 1);
            AccountsStay(d1, WithNewAccount(d1, SystemAccountRequest(s.next + 1), s.next + 2, now))
  {
    hide Schema, Supplied, Signed, SignedNewAccount;
    FreshIds(s);
  }

  lemma StageGuards(s: State, name: string, description: string, now: int, stage: nat, id: Id)
    requires Inv(s) && 1 <= stage <= 4 && id in CreateOperatorStage(s, name, description, now, stage).operators
    ensures var d := CreateOperatorStage(s, name, description, now, stage);
            Undisturbed(s.db, d, id) || Designated(d, id)
  {
    hide Sound, Signed, SignedUser, DefaultKeyDescription, SystemAccountDescription, SystemUserDescription;
    FreshIds(s);
    var d := CreateOperatorStage(s, name, description, now, stage);
    if id == s.next + 1 && stage == 4 {
      assert s.next + 3 in AccountsOf(d, id) && d.accounts[s.next + 3].publicKey == Key('A', s.next + 2);
    }
  }

  lemma ClusterGuards(s: State, e: Event, d: Db)
    requires Changes(s, e, d) && e.cmd.OnCluster?
    ensures AccountsStay(s.db, d)
  {
    hide Changes;
    OnlyClustersChange(s, e, d);
  }

  lemma StepGuards(s: State, e: Event, d: Db, id: Id)
    requires Inv(s) && Changes(s, e, d) && id in d.operators && OwnDesignation(s, e)
    ensures Guards(s, e, d, id)
  {
    hide Inv, Changes, Guards;
    match e.cmd {
      case CreateOperator(_, _, _) => CreateOperatorGuards(s, e, d, id);
      case UpdateOperator(_, _) => OperatorStepGuards(s, e, d, id);
      case SetSystemAccount(_, _) => OperatorStepGuards(s, e, d, id);
      case DeleteOperator(_) => OperatorStepGuards(s, e, d, id);
      case UpdateAccount(_, _) => AccountStepGuards(s, e, d, id);
      case UpdateJetStream(_, _, _) => AccountStepGuards(s, e, d, id);
      case DeleteAccount(_) => AccountStepGuards(s, e, d, id);
      case _ =>
        hide AccountsStay;
        if e.cmd.CreateKey? || e.cmd.UpdateKey? || e.cmd.DeleteKey? {
          KeyStepGuards(s, e, d);
        } else if e.cmd.OnCluster? {
          ClusterGuards(s, e, d);
        } else {
          SideStepGuards(s, e, d);
        }
        StayingOperator(s.db, d, id);
        GuardsByStaying(s, e, d, id);
    }
  }

  lemma StayingOperator(db: Db, d: Db, id: Id)
    requires AccountsStay(db, d) && id in d.operators
    ensures id in db.operators
  {
  }

  lemma GuardsByStaying(s: State, e: Event, d: Db, id: Id)
    requires AccountsStay(s.db, d) && id in s.db.operators
    ensures Guards(s, e, d, id)
  {
    StayingAccounts(s.db, d, id);
  }

  /** A deletion of the operator failed and left it without the account it designates. */
  ghost predicate Breaks(s: State, e: Event, s': State, id: Id) {
    FailedDeletion(e, id) && id in s'.db.operators && !Designated(s'.db, id)
  }

  predicate Designates(e: Event, id: Id) {
    e.cmd.SetSystemAccount? && e.cmd.operatorId == id && e.ok
  }

  ghost predicate LeftBroken(states: seq<State>, events: seq<Event>, n: nat, id: Id)
    requires n <= |events| < |states|
  {
    exists j | 0 <= j < n :: Breaks(states[j], events[j], states[j + 1], id) && NotDesignated(events, j + 1, n, id)
  }

  predicate NotDesignated(events: seq<Event>, from: nat, n: nat, id: Id)
    requires from <= n <= |events|
  {
    forall j | from <= j < n :: !Designates(events[j], id)
  }

  /** A designation of one of its own accounts repairs the operator. */
  lemma DesignationRepairs(s: State, e: Event, d: Db, id: Id)
    requires Inv(s) && Changes(s, e, d) && id in d.operators && OwnDesignation(s, e) && Designates(e, id)
    ensures Designated(d, id)
  {
    hide Supplied, AccountsFit, KeysFit, UsersFit, ClustersFit, Signed, CreateOperatorStep, UpdateOperatorStep,
         DeleteOperatorStep, CreateAccountStep, UpdateAccountStep, UpdateJetStreamStep, DeleteAccountStep,
         CreateKeyStep, UpdateKeyStep, DeleteKeyStep, CreateUserStep, UpdateUserStep, DeleteUserStep, ClusterStep;
  }

  /** Over every run in which `SetSystemAccount` is only given keys of the operator's own accounts, the
      designated account exists, unless a failed deletion of that operator took it away and no account
      has been designated since. */
  lemma {:induction false} DesignatedExists(states: seq<State>, events: seq<Event>, n: nat, id: Id)
    requires IsRun(states, events) && n <= |events| && id in states[n].db.operators
    requires forall j | 0 <= j < n :: OwnDesignation(states[j], events[j])
    ensures Designated(states[n].db, id) || LeftBroken(states, events, n, id)
  {
    hide Step, Inv, Changes, Designated, Undisturbed, Designates, FailedDeletion;
    if n > 0 && !Designated(states[n].db, id) {
      RunKeeps(states, events, n - 1);
      StepAt(states, events, n - 1);
      StepGuards(states[n - 1], events[n - 1], states[n].db, id);
      if FailedDeletion(events[n - 1], id) {
        assert NotDesignated(events, n, n, id);
      } else {
        OperatorThere(states[n - 1].db, states[n].db, id);
        DesignatedExists(states, events, n - 1, id);
        if Designated(states[n - 1].db, id) {
          UndisturbedDesignated(states[n - 1].db, states[n].db, id);
        }
        if Designates(events[n - 1], id) {
          DesignationRepairs(states[n - 1], events[n - 1], states[n].db, id);
        }
        var j :| 0 <= j < n - 1 && Breaks(states[j], events[j], states[j + 1], id)
                 && NotDesignated(events, j + 1, n - 1, id);
        assert NotDesignated(events, j + 1, n, id);
      }
    }
  }

  lemma OperatorThere(db: Db, d: Db, id: Id)
    requires Undisturbed(db, d, id)
    ensures id in db.operators
  {
  }

  /** Over every run, failed calls included, an operator's JWT is its own signature over its row: it
      names the same system account, and the same name, as the row. */
  lemma OperatorJwtNamesRow(states: seq<State>, events: seq<Event>, n: nat, id: Id)
    requires IsRun(states, events) && n <= |events| && id in states[n].db.operators
    ensures var o := states[n].db.operators[id];
            o.jwt == OperatorJwt(o.publicKey, o.publicKey, o.name, o.systemAccount)
  {
    hide Step, Sound, AccountsSigned, KeysSeeded, UsersSigned;
    RunKeeps(states, events, n);
  }
}
