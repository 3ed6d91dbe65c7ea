/** When a service call succeeds: for every call, the exact condition on the request and the stored rows. */
module Acceptance {
  import opened Entities
  import opened Database
  import opened Transitions
  import opened Invariants
  import opened Encryption
  import opened Coherence
  import opened Deletions
  import opened ClusterCredentials

  ghost predicate AcceptableOnOperator(db: Db, cmd: Command) {
    match cmd
    case CreateOperator(name, _, _) => name != "" && forall i | i in db.operators :: db.operators[i].name != name
    case UpdateOperator(id, req) =>
      id in db.operators && forall i | i in db.operators && i != id :: req.name != Some(db.operators[i].name)
    case SetSystemAccount(id, k) => id in db.operators && (k == NoKey || k.prefix == 'A')
    case DeleteOperator(id) => id in db.operators && forall c | c in db.clusters :: db.clusters[c].operatorId != id
    case _ => false
  }

  ghost predicate AcceptableOnAccount(db: Db, cmd: Command) {
    match cmd
    case CreateAccount(req, _) =>
      && req.name != "" && req.operatorId in db.operators
      && forall i | i in db.accounts && db.accounts[i].operatorId == req.operatorId :: db.accounts[i].name != req.name
    case UpdateAccount(id, req) =>
      && id in db.accounts
      && forall i | i in db.accounts && i != id && db.accounts[i].operatorId == db.accounts[id].operatorId ::
           req.name != Some(db.accounts[i].name)
    case UpdateJetStream(id, _, _) => id in db.accounts
    case DeleteAccount(id) =>
      id in db.accounts && forall o | o in db.operators && o == db.accounts[id].operatorId ::
        db.operators[o].systemAccount != db.accounts[id].publicKey
    case _ => false
  }

  ghost predicate AcceptableOnKey(db: Db, cmd: Command) {
    match cmd
    case CreateKey(req, _) =>
      && req.name != "" && req.accountId in db.accounts
      && forall i | i in db.keys && db.keys[i].accountId == req.accountId :: db.keys[i].name != req.name
    case UpdateKey(id, req) =>
      && id in db.keys
      && forall i | i in db.keys && i != id && db.keys[i].accountId == db.keys[id].accountId ::
           req.name != Some(db.keys[i].name)
    case DeleteKey(id) => id in db.keys
    case _ => false
  }

  ghost predicate AcceptableOnUser(db: Db, cmd: Command) {
    match cmd
    case CreateUser(req, _) =>
      && req.name != "" && req.accountId in db.accounts
      && (forall i | i in db.users && db.users[i].accountId == req.accountId :: db.users[i].name != req.name)
      && forall k | req.scopedKeyId == Some(k) :: k in db.keys && db.keys[k].accountId == req.accountId
    case UpdateUser(id, req) =>
      && id in db.users
      && forall i | i in db.users && i != id && db.users[i].accountId == db.users[id].accountId ::
           req.name != Some(db.users[i].name)
    case DeleteUser(id) =>
      && id in db.users
      && forall a | a in db.accounts && a == db.users[id].accountId ::
           db.accounts[a].name != "$SYS" || db.users[id].name != "system"
    case _ => false
  }

  ghost predicate AcceptableOnCluster(db: Db, call: ClusterCommand) {
    match call
    case CreateCluster(req, _, _, _) =>
      && req.name != "" && |req.serverUrls| > 0 && (forall i | i in db.clusters :: db.clusters[i].name != req.name)
      && req.operatorId in db.operators && db.operators[req.operatorId].systemAccount != NoKey
      && exists a :: a in db.accounts && db.accounts[a].publicKey == db.operators[req.operatorId].systemAccount
    case UpdateClusterCredentials(id, userId, v, _) =>
      && id in db.clusters && userId in db.users && v.encryptor.currentKeyId in v.encryptor.keys
      && Decrypt(v.aead, v.encryptor, v.seedRef(db.users[userId].seed)).Ok?
    case UpdateCluster(id, req) =>
      id in db.clusters && forall i | i in db.clusters && i != id :: req.name != Some(db.clusters[i].name)
    case DeleteCluster(id) => id in db.clusters
  }

  ghost predicate Acceptable(db: Db, cmd: Command) {
    || AcceptableOnOperator(db, cmd) || AcceptableOnAccount(db, cmd) || AcceptableOnKey(db, cmd)
    || AcceptableOnUser(db, cmd) || (cmd.OnCluster? && AcceptableOnCluster(db, cmd.call))
  }

  /** Without a fault the call succeeds exactly if it is acceptable, and a refused one changes nothing. */
  ghost predicate Decided(s: State, e: Event, d: Db, acceptable: bool) {
    && (e.ok ==> acceptable)
    && (e.faults == 0 && acceptable ==> e.ok)
    && (e.faults == 0 && !acceptable && !e.cmd.DeleteOperator? ==> d == s.db)
  }

  // A new name is free exactly if no other row of the same kind and owner has it.

  lemma OperatorNameFree(db: Db, id: Id, name: Option<string>)
    requires OperatorsFit(db.operators) && id in db.operators
    ensures (Differs(name, db.operators[id].name) ==> !OperatorTaken(db, name.value))
            <==> forall i | i in db.operators && i != id :: name != Some(db.operators[i].name)
  {
    assert FitsOperator(db.operators, db.operators[id]);
  }

  lemma AccountNameFree(db: Db, id: Id, name: Option<string>)
    requires AccountsFit(db.operators.Keys, db.accounts) && id in db.accounts
    ensures (Differs(name, db.accounts[id].name) ==> !AccountTaken(db, db.accounts[id].operatorId, name.value))
            <==> forall i | i in db.accounts && i != id && db.accounts[i].operatorId == db.accounts[id].operatorId ::
                   name != Some(db.accounts[i].name)
  {
    assert FitsAccount(db.operators.Keys, db.accounts, db.accounts[id]);
  }

  lemma KeyNameFree(db: Db, id: Id, name: Option<string>)
    requires KeysFit(db.accounts.Keys, db.keys) && id in db.keys
    ensures (Differs(name, db.keys[id].name) ==> !KeyTaken(db, db.keys[id].accountId, name.value))
            <==> forall i | i in db.keys && i != id && db.keys[i].accountId == db.keys[id].accountId ::
                   name != Some(db.keys[i].name)
  {
    assert FitsKey(db.accounts.Keys, db.keys, db.keys[id]);
  }

  lemma UserNameFree(db: Db, id: Id, name: Option<string>)
    requires UsersFit(db.accounts.Keys, db.keys.Keys, db.users) && id in db.users
    ensures (Differs(name, db.users[id].name) ==> !UserTaken(db, db.users[id].accountId, name.value))
            <==> forall i | i in db.users && i != id && db.users[i].accountId == db.users[id].accountId ::
                   name != Some(db.users[i].name)
  {
    assert FitsUser(db.accounts.Keys, db.keys.Keys, db.users, db.users[id]);
  }

  lemma ClusterNameFree(db: Db, id: Id, name: Option<string>)
    requires ClustersFit(db.operators.Keys, db.clusters) && id in db.clusters
    ensures (Differs(name, db.clusters[id].name) ==> !ClusterTaken(db, name.value))
            <==> forall i | i in db.clusters && i != id :: name != Some(db.clusters[i].name)
  {
    assert FitsCluster(db.operators.Keys, db.clusters, db.clusters[id]);
  }

  // Whoever has to sign can.

  lemma AccountLinks(s: State, a: Id)
    requires Inv(s) && a in s.db.accounts
    ensures s.db.accounts[a].operatorId in s.db.operators && s.db.accounts[a].seed.Seed?
  {
    hide Sound, KeysSeeded, UsersSigned;
    assert AccountSigned(s.db.operators, s.db.accounts[a]);
  }

  lemma UserSignable(s: State, u: Id)
    requires Inv(s) && u in s.db.users
    ensures HasSigner(s.db, s.db.users[u])
  {
    hide Sound, OperatorsSigned, AccountsSigned, Gone;
    assert UserSigned(s.db.accounts, s.db.keys, s.next, s.db.users[u]);
    AccountLinks(s, s.db.users[u].accountId);
  }

  lemma OperatorDecided(s: State, e: Event, d: Db)
    requires Inv(s) && Changes(s, e, d)
    requires e.cmd.CreateOperator? || e.cmd.UpdateOperator? || e.cmd.SetSystemAccount? || e.cmd.DeleteOperator?
    ensures Decided(s, e, d, AcceptableOnOperator(s.db, e.cmd))
  {
    hide Supplied, OperatorsFit, AccountsFit, KeysFit, UsersFit, ClustersFit, AccountsSigned, KeysSeeded, UsersSigned,
         CreateOperatorStage, WithNewAccount, WithOperator, PartlyDeleted, WithoutOperator, CreateAccountStep,
         UpdateAccountStep, UpdateJetStreamStep, DeleteAccountStep, CreateKeyStep, UpdateKeyStep, DeleteKeyStep,
         CreateUserStep, UpdateUserStep, DeleteUserStep, ClusterStep, Designating, Differs;
    match e.cmd {
      case UpdateOperator(id, req) =>
        if id in s.db.operators { OperatorNameFree(s.db, id, req.name); }
      case DeleteOperator(id) => ClusterFree(s.db, id);
      case _ =>
    }
  }

  lemma ClusterFree(db: Db, id: Id)
    ensures (forall c | c in db.clusters :: db.clusters[c].operatorId != id) <==> ClustersOf(db, id) == {}
  {
    if forall c | c in db.clusters :: db.clusters[c].operatorId != id {
      assert forall c :: c !in ClustersOf(db, id);
    } else {
      var c :| c in db.clusters && db.clusters[c].operatorId == id;
      assert c in ClustersOf(db, id);
    }
  }

  lemma AccountDecided(s: State, e: Event, d: Db)
    requires Inv(s) && Changes(s, e, d)
    requires e.cmd.CreateAccount? || e.cmd.UpdateAccount? || e.cmd.UpdateJetStream? || e.cmd.DeleteAccount?
    ensures Decided(s, e, d, AcceptableOnAccount(s.db, e.cmd))
  {
    hide Supplied, OperatorsFit, AccountsFit, KeysFit, UsersFit, ClustersFit, AccountsSigned, KeysSeeded, UsersSigned,
         Resigned, WithNewAccount, WithDefaultKey, WithoutAccount, CreateOperatorStep, UpdateOperatorStep,
         SetSystemAccountStep, DeleteOperatorStep, CreateKeyStep, UpdateKeyStep, DeleteKeyStep, CreateUserStep,
         UpdateUserStep, DeleteUserStep, ClusterStep, Signable, Differs;
    match e.cmd {
      case UpdateAccount(id, req) =>
        if id in s.db.accounts { AccountNameFree(s.db, id, req.name); SignableByInv(s, id); }
      case UpdateJetStream(id, _, _) =>
        if id in s.db.accounts { SignableByInv(s, id); }
      case DeleteAccount(id) =>
        if id in s.db.accounts { AccountLinks(s, id); }
      case CreateAccount(req, _) =>
    }
  }

  lemma KeyDecided(s: State, e: Event, d: Db)
    requires Inv(s) && Changes(s, e, d)
    requires e.cmd.CreateKey? || e.cmd.UpdateKey? || e.cmd.DeleteKey?
    ensures Decided(s, e, d, AcceptableOnKey(s.db, e.cmd))
  {
    hide Supplied, OperatorsFit, AccountsFit, UsersFit, ClustersFit, KeysFit, Signed, Resigned, WithKey, WithoutKey,
         CreateOperatorStep, UpdateOperatorStep, SetSystemAccountStep, DeleteOperatorStep, CreateAccountStep,
         UpdateAccountStep, UpdateJetStreamStep, DeleteAccountStep, CreateUserStep, UpdateUserStep, DeleteUserStep,
         ClusterStep, Signable, Differs, ChangesKey;
    match e.cmd {
      case CreateKey(req, _) =>
        if req.accountId in s.db.accounts { SignableByInv(s, req.accountId); }
      case UpdateKey(id, req) =>
        if id in s.db.keys {
          KeyNameFree(s.db, id, req.name);
          KeyLinks(s, id);
          SignableByInv(s, s.db.keys[id].accountId);
        }
      case DeleteKey(id) =>
        if id in s.db.keys {
          KeyLinks(s, id);
          SignableByInv(s, s.db.keys[id].accountId);
        }
    }
  }

  lemma UserDecided(s: State, e: Event, d: Db)
    requires Inv(s) && Changes(s, e, d)
    requires e.cmd.CreateUser? || e.cmd.UpdateUser? || e.cmd.DeleteUser?
    ensures Decided(s, e, d, AcceptableOnUser(s.db, e.cmd))
  {
    hide Supplied, OperatorsFit, AccountsFit, KeysFit, UsersFit, ClustersFit, AccountsSigned, OperatorsSigned,
         UsersSigned, WithUser, SignedUser, WithoutUser, CreateOperatorStep, UpdateOperatorStep, SetSystemAccountStep,
         DeleteOperatorStep, CreateAccountStep, UpdateAccountStep, UpdateJetStreamStep, DeleteAccountStep,
         CreateKeyStep, UpdateKeyStep, DeleteKeyStep, ClusterStep, Differs;
    match e.cmd {
      case CreateUser(req, _) =>
        if req.accountId in s.db.accounts { AccountLinks(s, req.accountId); }
      case UpdateUser(id, req) =>
        if id in s.db.users {
          UserNameFree(s.db, id, req.name);
          UserSignable(s, id);
        }
      case DeleteUser(id) =>
        if id in s.db.users { UserSignable(s, id); }
    }
  }

  lemma ClusterDecided(s: State, e: Event, d: Db)
    requires Inv(s) && e.cmd.OnCluster? && ClusterStep(s, e.cmd.call, e.ok, e.faults, d)
    ensures Decided(s, e, d, AcceptableOnCluster(s.db, e.cmd.call))
  {
    hide Supplied, OperatorsFit, AccountsFit, KeysFit, UsersFit, ClustersFit, Signed, IsManager, WithCluster,
         WithoutCluster, Decrypt, Differs, PatchedCluster;
    match e.cmd.call {
      case UpdateCluster(id, req) =>
        if id in s.db.clusters { ClusterNameFree(s.db, id, req.name); }
      case _ =>
    }
  }

  /** Over the whole machine: without a fault a call succeeds exactly if it is acceptable, a fault never
      makes an unacceptable call succeed, and a refused call changes nothing - a deletion of an operator
      that has a cluster apart. */
  lemma SucceedsIff(s: State, e: Event, d: Db)
    requires Inv(s) && Changes(s, e, d)
    ensures e.ok ==> Acceptable(s.db, e.cmd)
    ensures e.faults == 0 && Acceptable(s.db, e.cmd) ==> e.ok
    ensures e.faults == 0 && !e.ok && !e.cmd.DeleteOperator? ==> d == s.db
  {
    hide Inv, Changes, AcceptableOnCluster;
    match e.cmd {
      case OnCluster(_) => ClusterStepOf(s, e, d); ClusterDecided(s, e, d);
      case CreateOperator(_, _, _) => OperatorDecided(s, e, d);
      case UpdateOperator(_, _) => OperatorDecided(s, e, d);
      case SetSystemAccount(_, _) => OperatorDecided(s, e, d);
      case DeleteOperator(_) => OperatorDecided(s, e, d);
      case CreateAccount(_, _) => AccountDecided(s, e, d);
      case UpdateAccount(_, _) => AccountDecided(s, e, d);
      case UpdateJetStream(_, _, _) => AccountDecided(s, e, d);
      case DeleteAccount(_) => AccountDecided(s, e, d);
      case CreateKey(_, _) => KeyDecided(s, e, d);
      case UpdateKey(_, _) => KeyDecided(s, e, d);
      case DeleteKey(_) => KeyDecided(s, e, d);
      case CreateUser(_, _) => UserDecided(s, e, d);
      case UpdateUser(_, _) => UserDecided(s, e, d);
      case DeleteUser(_) => UserDecided(s, e, d);
    }
  }
}
