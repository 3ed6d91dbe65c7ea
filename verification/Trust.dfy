/** The chain of trust from operators to users, and exactly when a user falls out of it. */
module Trust {
  import opened Entities
  import opened Database
  import opened Jwts
  import opened Transitions
  import opened Invariants
  import opened Runs
  import opened Coherence

  /** What a NATS server checks of a user: its account's JWT is signed by the operator, and its own
      JWT either by the account, unscoped, or by a scoped signer that the account's JWT declares. */
  ghost predicate Trusted(db: Db, u: User) {
    && u.accountId in db.accounts && u.jwt.UserJwt? && u.jwt.subject == u.publicKey
    && var a := db.accounts[u.accountId];
       && a.operatorId in db.operators && a.jwt.AccountJwt? && a.jwt.subject == a.publicKey
       && a.jwt.issuer == db.operators[a.operatorId].publicKey
       && if u.jwt.scoped then u.jwt.issuerAccount == a.publicKey && u.jwt.issuer in a.jwt.signers
          else u.jwt.issuer == a.publicKey
  }

  /** The user's JWT carries the signature of a scoped key, but its row names none. */
  predicate Orphaned(u: User) {
    u.scopedKeyId.None? && u.jwt.UserJwt? && u.jwt.scoped
  }

  /** In a coherent account, a user is trusted exactly if it is not orphaned and its scoped key, if
      it has one, is among the newest `PAGE`. */
  lemma TrustedIff(s: State, i: Id)
    requires Inv(s) && i in s.db.users && Coherent(s.db, s.db.users[i].accountId)
    ensures var u := s.db.users[i]; var a := s.db.accounts[u.accountId];
            Trusted(s.db, u) <==>
              && !Orphaned(u)
              && (u.scopedKeyId.Some? ==> u.scopedKeyId.value in Declared(s.db.keys, a.id, a.jwt.signers))
  {
    hide Schema, Supplied, KeysSeeded, OperatorsSigned, DeclaresNewest, Gone;
    var u := s.db.users[i];
    var a := s.db.accounts[u.accountId];
    RowIds(s.db);
    assert UserSigned(s.db.accounts, s.db.keys, s.next, u);
    assert AccountSigned(s.db.operators, a);
    if Orphaned(u) {
      GoneUndeclared(s.db, s.next, a.id, a.jwt.signers, u.jwt.issuer);
    }
  }

  lemma GoneUndeclared(db: Db, next: nat, a: Id, signers: map<PubKey, Scope>, p: PubKey)
    requires DeclaresNewest(db.keys, a, signers) && Gone(db.accounts, db.keys, next, p)
    ensures p !in signers
  {
  }

  /** With at most `PAGE` keys only the orphans fall out. */
  lemma TrustedUnlessOrphaned(s: State, i: Id)
    requires Inv(s) && i in s.db.users && Coherent(s.db, s.db.users[i].accountId)
    requires |KeysOf(s.db.keys, s.db.users[i].accountId)| <= PAGE
    ensures Trusted(s.db, s.db.users[i]) <==> !Orphaned(s.db.users[i])
  {
    var u := s.db.users[i];
    var a := s.db.accounts[u.accountId];
    TrustedIff(s, i);
    RowIds(s.db);
    hide Schema, Supplied, KeysSeeded;
    assert UserSigned(s.db.accounts, s.db.keys, s.next, u);
    SubsetSize(Declared(s.db.keys, a.id, a.jwt.signers), KeysOf(s.db.keys, a.id));
  }

  // Who becomes an orphan, and who stops being one.

  /** The step deletes the scoped key that user `i` is signed with. */
  predicate Unlinks(s: State, e: Event, s': State, i: Id) {
    && e.cmd.DeleteKey? && i in s.db.users && s.db.users[i].scopedKeyId == Some(e.cmd.keyId)
    && e.cmd.keyId !in s'.db.keys
  }

  /** The step signs user `i` again. */
  predicate SignsAgain(s: State, e: Event, i: Id) {
    && e.cmd.UpdateUser? && e.cmd.userId == i && e.ok && i in s.db.users
    && PatchedUser(s.db.users[i], e.cmd.patch) != s.db.users[i]
  }

  ghost predicate Tracks(s: State, e: Event, s': State, i: Id) {
    && i in s'.db.users
    && (i !in s.db.users ==> i >= s.next && !Orphaned(s'.db.users[i]))
    && (i in s.db.users ==>
          (Orphaned(s'.db.users[i]) <==>
             Unlinks(s, e, s', i) || (Orphaned(s.db.users[i]) && !SignsAgain(s, e, i))))
  }

  lemma UpperStepTracks(s: State, e: Event, s': State, i: Id)
    requires Inv(s) && Step(s, e, s') && i in s'.db.users
    requires e.cmd.UpdateOperator? || e.cmd.SetSystemAccount? || e.cmd.CreateAccount?
             || e.cmd.UpdateAccount? || e.cmd.UpdateJetStream? || e.cmd.CreateKey? || e.cmd.UpdateKey?
    ensures Tracks(s, e, s', i)
  {
    hide Sound, Signed, DeclaresNewest, SignedNewAccount, DefaultKeyDescription, CreateOperatorStep,
         DeleteOperatorStep, DeleteAccountStep, DeleteKeyStep, CreateUserStep, UpdateUserStep, DeleteUserStep,
         ClusterStep;
    assert s'.db.users == s.db.users;
  }

  lemma DeletionTracks(s: State, e: Event, s': State, i: Id)
    requires Inv(s) && Step(s, e, s') && i in s'.db.users
    requires e.cmd.DeleteOperator? || e.cmd.DeleteAccount? || e.cmd.DeleteUser?
    ensures Tracks(s, e, s', i)
  {
    hide Schema, Supplied, KeysSeeded, AccountsSigned, OperatorsSigned, Gone, CreateOperatorStep, UpdateOperatorStep,
         SetSystemAccountStep, CreateAccountStep, UpdateAccountStep, UpdateJetStreamStep, CreateKeyStep,
         UpdateKeyStep, DeleteKeyStep, CreateUserStep, UpdateUserStep, ClusterStep;
    assert i in s.db.users;
    assert UserSigned(s.db.accounts, s.db.keys, s.next, s.db.users[i]);
  }

  lemma DeleteKeyTracks(s: State, e: Event, s': State, i: Id)
    requires Inv(s) && Step(s, e, s') && i in s'.db.users && e.cmd.DeleteKey?
    ensures Tracks(s, e, s', i)
  {
    hide Schema, Supplied, KeysSeeded, AccountsSigned, OperatorsSigned, Gone, DeclaresNewest, CreateOperatorStep,
         UpdateOperatorStep, SetSystemAccountStep, DeleteOperatorStep, CreateAccountStep, UpdateAccountStep,
         UpdateJetStreamStep, DeleteAccountStep, CreateKeyStep, UpdateKeyStep, CreateUserStep, UpdateUserStep,
         DeleteUserStep, ClusterStep;
    assert i in s.db.users;
    assert UserSigned(s.db.accounts, s.db.keys, s.next, s.db.users[i]);
  }

  lemma UserStepTracks(s: State, e: Event, s': State, i: Id)
    requires Inv(s) && Step(s, e, s') && i in s'.db.users && (e.cmd.CreateUser? || e.cmd.UpdateUser?)
    ensures Tracks(s, e, s', i)
  {
    hide Schema, Supplied, Signed, CreateOperatorStep, UpdateOperatorStep, SetSystemAccountStep, DeleteOperatorStep,
         CreateAccountStep, UpdateAccountStep, UpdateJetStreamStep, DeleteAccountStep, CreateKeyStep, UpdateKeyStep,
         DeleteKeyStep, DeleteUserStep, ClusterStep;
    RowIds(s.db);
    FreshIds(s);
  }

  lemma CreateOperatorTracks(s: State, e: Event, s': State, i: Id)
    requires Inv(s) && Step(s, e, s') && i in s'.db.users && e.cmd.CreateOperator?
    ensures Tracks(s, e, s', i)
  {
    hide Sound, Signed, CreateOperatorStage, SignedNewAccount, DefaultKeyDescription, SystemAccountDescription,
         SystemUserDescription, UpdateOperatorStep, SetSystemAccountStep, DeleteOperatorStep, CreateAccountStep,
         UpdateAccountStep, UpdateJetStreamStep, DeleteAccountStep, CreateKeyStep, UpdateKeyStep, DeleteKeyStep,
         CreateUserStep, UpdateUserStep, DeleteUserStep, ClusterStep;
    FreshIds(s);
    var Event(CreateOperator(name, description, now), _, _) := e;
    NewUsers(s, name, description, now);
    if stage :| 1 <= stage <= 4 && s'.db == CreateOperatorStage(s, name, description, now, stage) {
      assert i !in s.db.users ==> i == s.next + 7;
    }
  }

  lemma NewUsers(s: State, name: string, description: string, now: int)
    ensures forall stage | 1 <= stage <= 4 ::
              var users := CreateOperatorStage(s, name, description, now, stage).users;
              && users.Keys == s.db.users.Keys + (if stage > 2 then {s.next + 7} else {})
              && (stage > 2 ==> !Orphaned(users[s.next + 7]))
              && forall i | i in s.db.users && i != s.next + 7 :: users[i] == s.db.users[i]
  {
    hide DefaultKeyDescription, SystemAccountDescription, SystemUserDescription, SignedNewAccount;
  }

  lemma ClusterTracks(s: State, e: Event, s': State, i: Id)
    requires Step(s, e, s') && i in s'.db.users && e.cmd.OnCluster?
    ensures Tracks(s, e, s', i)
  {
    hide Sound, Changes;
    OnlyClustersChange(s, e, s'.db);
  }

  lemma StepTracks(s: State, e: Event, s': State, i: Id)
    requires Inv(s) && Step(s, e, s') && i in s'.db.users
    ensures Tracks(s, e, s', i)
  {
    hide Inv, Step, Tracks;
    match e.cmd {
      case CreateOperator(_, _, _) => CreateOperatorTracks(s, e, s', i);
      case UpdateOperator(_, _) => UpperStepTracks(s, e, s', i);
      case SetSystemAccount(_, _) => UpperStepTracks(s, e, s', i);
      case DeleteOperator(_) => DeletionTracks(s, e, s', i);
      case CreateAccount(_, _) => UpperStepTracks(s, e, s', i);
      case UpdateAccount(_, _) => UpperStepTracks(s, e, s', i);
      case UpdateJetStream(_, _, _) => UpperStepTracks(s, e, s', i);
      case DeleteAccount(_) => DeletionTracks(s, e, s', i);
      case CreateKey(_, _) => UpperStepTracks(s, e, s', i);
      case UpdateKey(_, _) => UpperStepTracks(s, e, s', i);
      case DeleteKey(_) => DeleteKeyTracks(s, e, s', i);
      case CreateUser(_, _) => UserStepTracks(s, e, s', i);
      case UpdateUser(_, _) => UserStepTracks(s, e, s', i);
      case DeleteUser(_) => DeletionTracks(s, e, s', i);
      case OnCluster(_) => ClusterTracks(s, e, s', i);
    }
  }

  ghost predicate UnlinkedAt(states: seq<State>, events: seq<Event>, j: nat, i: Id)
    requires |states| == |events| + 1 && j < |events|
  {
    Unlinks(states[j], events[j], states[j + 1], i)
  }

  ghost predicate SignedAt(states: seq<State>, events: seq<Event>, j: nat, i: Id)
    requires |states| == |events| + 1 && j < |events|
  {
    SignsAgain(states[j], events[j], i)
  }

  /** Before step `n` the scoped key of user `i` was deleted, and the user has not been signed since. */
  ghost predicate KeyDeletedUnder(states: seq<State>, events: seq<Event>, n: nat, i: Id)
    requires |states| == |events| + 1 && n <= |events|
  {
    exists j | 0 <= j < n :: UnlinkedAt(states, events, j, i) && UnsignedSince(states, events, j + 1, n, i)
  }

  ghost predicate UnsignedSince(states: seq<State>, events: seq<Event>, from: nat, n: nat, i: Id)
    requires |states| == |events| + 1 && from <= n <= |events|
  {
    forall j | from <= j < n :: !SignedAt(states, events, j, i)
  }

  /** The supply only grows, so an id that was once stored is below it ever after. */
  lemma {:induction false} SupplyGrows(states: seq<State>, events: seq<Event>, j: nat, n: nat)
    requires IsRun(states, events) && j <= n <= |events|
    ensures states[j].next <= states[n].next
  {
    hide Step, Changes;
    if j < n {
      SupplyGrows(states, events, j, n - 1);
      StepAt(states, events, n - 1);
    }
  }

  /** A user is an orphan exactly if its scoped key was deleted and it was not signed since. */
  lemma {:induction false} OrphanedIff(states: seq<State>, events: seq<Event>, n: nat, i: Id)
    requires IsRun(states, events) && n <= |events| && i in states[n].db.users
    ensures Orphaned(states[n].db.users[i]) <==> KeyDeletedUnder(states, events, n, i)
  {
    hide Step, Inv, Changes, Orphaned, Unlinks, SignsAgain;
    if n > 0 {
      var s, e, s' := states[n - 1], events[n - 1], states[n];
      RunKeeps(states, events, n - 1);
      StepAt(states, events, n - 1);
      StepTracks(s, e, s', i);
      UnderStep(states, events, n, i);
      if i in s.db.users {
        OrphanedIff(states, events, n - 1, i);
      } else {
        NeverUnder(states, events, n, i);
      }
    }
  }

  lemma UnderStep(states: seq<State>, events: seq<Event>, n: nat, i: Id)
    requires |states| == |events| + 1 && 0 < n <= |events|
    ensures KeyDeletedUnder(states, events, n, i) <==>
              || UnlinkedAt(states, events, n - 1, i)
              || (KeyDeletedUnder(states, events, n - 1, i) && !SignedAt(states, events, n - 1, i))
  {
    hide UnlinkedAt, SignedAt;
    if UnlinkedAt(states, events, n - 1, i) {
      assert UnsignedSince(states, events, n - 1 + 1, n, i);
    }
    if KeyDeletedUnder(states, events, n - 1, i) && !SignedAt(states, events, n - 1, i) {
      var j :| 0 <= j < n - 1 && UnlinkedAt(states, events, j, i) && UnsignedSince(states, events, j + 1, n - 1, i);
      assert UnsignedSince(states, events, j + 1, n, i);
    }
    if KeyDeletedUnder(states, events, n, i) && !UnlinkedAt(states, events, n - 1, i) {
      var j :| 0 <= j < n && UnlinkedAt(states, events, j, i) && UnsignedSince(states, events, j + 1, n, i);
      assert UnsignedSince(states, events, j + 1, n - 1, i);
    }
  }

  lemma NeverUnder(states: seq<State>, events: seq<Event>, n: nat, i: Id)
    requires IsRun(states, events) && 0 < n <= |events| && i >= states[n - 1].next
    ensures !KeyDeletedUnder(states, events, n, i)
  {
    hide Step, Changes, Inv;
    forall j | 0 <= j < n ensures !UnlinkedAt(states, events, j, i) {
      SupplyGrows(states, events, j, n - 1);
      RunKeeps(states, events, j);
      FreshIds(states[j]);
    }
  }

  /** The chain of trust over every run, whatever fails: in an account that is not left stale and has
      at most `PAGE` keys, a user is trusted exactly if its scoped key was not deleted under it since
      it was last signed. */
  lemma ChainOfTrust(states: seq<State>, events: seq<Event>, n: nat, i: Id)
    requires IsRun(states, events) && n <= |events| && i in states[n].db.users
    requires !LeftStale(states, events, n, states[n].db.users[i].accountId)
    requires |KeysOf(states[n].db.keys, states[n].db.users[i].accountId)| <= PAGE
    ensures Trusted(states[n].db, states[n].db.users[i]) <==> !KeyDeletedUnder(states, events, n, i)
  {
    hide Step, Changes, Coherent, LeftStale, Trusted, Orphaned, Schema;
    RunKeeps(states, events, n);
    AccountThere(states[n], i);
    CoherentOrStale(states, events, n, states[n].db.users[i].accountId);
    TrustedUnlessOrphaned(states[n], i);
    OrphanedIff(states, events, n, i);
  }

  lemma AccountThere(s: State, i: Id)
    requires Inv(s) && i in s.db.users
    ensures s.db.users[i].accountId in s.db.accounts
  {
    RowIds(s.db);
  }

  ghost predicate AllTrusted(db: Db, a: Id) {
    forall i | i in UsersOf(db, a) :: Trusted(db, db.users[i])
  }

  /** Deleting a scoped key, with success, keeps every user of its account trusted if and only if no
      user is signed with that key. */
  lemma DeleteKeyKeepsTrustIff(s: State, id: Id, faults: nat, s': State)
    requires Inv(s) && Inv(s') && DeleteKeyStep(s, id, true, faults, s'.db) && id in s.db.keys
    requires var a := s.db.keys[id].accountId;
             |KeysOf(s.db.keys, a)| <= PAGE && Coherent(s.db, a) && AllTrusted(s.db, a)
    ensures AllTrusted(s'.db, s.db.keys[id].accountId) <==>
              forall i | i in UsersOf(s.db, s.db.keys[id].accountId) :: s.db.users[i].scopedKeyId != Some(id)
  {
    hide Schema, Supplied, Signed, Trusted, Orphaned, DeclaresNewest;
    var a := s.db.keys[id].accountId;
    RowIds(s.db);
    ResignedServes(WithoutKey(s.db, id), s.db.accounts[a], s'.db, a);
    assert KeysOf(s'.db.keys, a) <= KeysOf(s.db.keys, a);
    SubsetSize(KeysOf(s'.db.keys, a), KeysOf(s.db.keys, a));
    assert UsersOf(s'.db, a) == UsersOf(s.db, a);
    forall i | i in UsersOf(s.db, a)
      ensures Trusted(s'.db, s'.db.users[i]) <==> s.db.users[i].scopedKeyId != Some(id)
    {
      TrustedUnlessOrphaned(s, i);
      TrustedUnlessOrphaned(s', i);
      UnlinkedOrphan(s, id, i);
    }
  }

  lemma UnlinkedOrphan(s: State, id: Id, i: Id)
    requires Inv(s) && i in s.db.users && id in s.db.keys
    ensures Orphaned(WithoutKey(s.db, id).users[i]) <==>
              Orphaned(s.db.users[i]) || s.db.users[i].scopedKeyId == Some(id)
  {
    hide Supplied, Schema, KeysSeeded, AccountsSigned, OperatorsSigned, Gone;
    assert UserSigned(s.db.accounts, s.db.keys, s.next, s.db.users[i]);
  }
}
