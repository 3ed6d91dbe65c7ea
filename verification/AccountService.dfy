/** Accounts: created in two writes with a compensating delete, re-signed on every update. */
module AccountService {
  import opened Entities
  import opened Database
  import opened Repositories
  import opened Jwts
  import opened Transitions

  lemma FreshAccountFits(s: State, req: CreateAccountRequest, now: int, jwt: Jwt)
    requires Sound(s.db, s.next) && AcceptsNewAccount(s.db, req)
    ensures var a := NewAccount(req, s.next, now).(jwt := jwt);
            a.id !in s.db.accounts && FitsAccount(s.db.operators.Keys, s.db.accounts, a)
  {
  }

  /** The default key always fits below the new account, and deleting that account undoes it. */
  lemma NewAccountFits(s: State, req: CreateAccountRequest, now: int)
    requires Sound(s.db, s.next) && AcceptsNewAccount(s.db, req)
    ensures var d := WithNewAccount(s.db, req, s.next, now);
            var k := NewKey(DefaultKeyRequest(s.next + 1), s.next + 2, now);
            && k.id !in d.keys && FitsKey(d.accounts.Keys, d.keys, k)
            && WithoutAccount(d, s.next + 1) == s.db
  {
    hide DefaultKeyDescription;
    var d := WithNewAccount(s.db, req, s.next, now);
    var k := NewKey(DefaultKeyRequest(s.next + 1), s.next + 2, now);
    forall i | i in s.db.keys ensures s.db.keys[i].accountId in s.db.accounts {
      assert FitsKey(s.db.accounts.Keys, s.db.keys, s.db.keys[i]);
    }
    assert FitsKey(d.accounts.Keys, d.keys, k);
    RollbackAccount(s.db, d.accounts[s.next + 1]);
  }

  lemma RollbackAccount(db: Db, a: Account)
    requires KeysFit(db.accounts.Keys, db.keys) && UsersFit(db.accounts.Keys, db.keys.Keys, db.users)
    requires a.id !in db.accounts
    ensures WithoutAccount(db.(accounts := db.accounts[a.id := a]), a.id) == db
  {
    var d := WithoutAccount(db.(accounts := db.accounts[a.id := a]), a.id);
    assert d.accounts == db.accounts;
    forall i | i in db.keys ensures db.keys[i].accountId in db.accounts {
      assert FitsKey(db.accounts.Keys, db.keys, db.keys[i]);
    }
    assert d.keys == db.keys;
    forall i | i in db.users
        ensures db.users[i].accountId in db.accounts && Unlink(db.users[i], db.keys.Keys) == db.users[i] {
      assert FitsUser(db.accounts.Keys, db.keys.Keys, db.users, db.users[i]);
    }
    hide UsersFit, KeysFit;
    assert d.users == db.users;
  }

  /** The two writes of a new account, and the delete that undoes the first if the second fails. */
  method SaveNewAccount(store: Store, account: Account, key: ScopedKey, ghost s: State,
                        ghost req: CreateAccountRequest, ghost now: int) returns (r: Result<()>)
    requires store.Valid() && store.db == s.db && store.next == s.next + 4
    requires Sound(s.db, s.next) && AcceptsNewAccount(s.db, req)
    requires account == SignedNewAccount(s.db, req, s.next, now)
    requires key == NewKey(DefaultKeyRequest(account.id), s.next + 2, now)
    modifies store`db, store`plan, store`faults
    ensures store.Valid() && store.faults >= old(store.faults)
    ensures store.faults == old(store.faults) ==> r.Ok?
    ensures r.Ok? ==> store.db == WithDefaultKey(WithNewAccount(s.db, req, s.next, now), s.next, now)
    ensures r.Err? && store.db != s.db ==>
              store.faults >= old(store.faults) + 2 && store.db == WithNewAccount(s.db, req, s.next, now)
  {
    hide Supplied, Schema, WithoutAccount, FitsKey, FitsAccount, DefaultKeyDescription;
    FreshAccountFits(s, req, now, account.jwt);
    NewAccountFits(s, req, now);
    r := store.CreateAccount(account);
    if r.Err? { return; }
    r := store.CreateKey(key);
    if r.Err? {
      var undone := store.DeleteAccount(account.id);
    }
  }

  method CreateAccount(store: Store, req: CreateAccountRequest, now: int) returns (r: Result<Account>)
    requires store.Valid()
    modifies store
    ensures store.Valid() && store.next >= old(store.next) && store.faults >= old(store.faults)
    ensures CreateAccountStep(State(old(store.db), old(store.next)), req, now, r.Ok?,
                              store.faults - old(store.faults), store.db)
    ensures r.Ok? ==> store.next == old(store.next) + 4 && r.value.publicKey == Key('A', old(store.next))
                      && r.value == SignedNewAccount(old(store.db), req, old(store.next), now)
    ensures store.faults == old(store.faults) && r.Err? ==>
              r.error == if req.name == "" then Invalid
                         else if req.operatorId !in old(store.db).operators then NotFound
                         else if AccountTaken(old(store.db), req.operatorId, req.name) then AlreadyExists
                         else Unsignable
  {
    hide Sound, WithNewAccount, WithDefaultKey, NewKey, DefaultKeyRequest, DefaultKeyDescription;
    ghost var s := State(store.db, store.next);
    if req.name == "" { return Err(Invalid); }
    var ro := store.GetOperator(req.operatorId);
    if ro.Err? { return Err(ro.error); }
    var existing := store.GetAccountByName(req.operatorId, req.name);
    if existing.Err? && existing.error != NotFound { return Err(existing.error); }
    if existing.Ok? { return Err(AlreadyExists); }
    var n := store.Draw();
    var f := store.Fault();
    if f { return Err(Broken); }
    var accountId := store.Draw();
    var rk := BuildDefaultKey(store, accountId, now);
    if rk.Err? { return Err(rk.error); }
    var key := rk.value;
    var account := Account(accountId, req.operatorId, req.name, req.description, Seed(Key('A', n)), Key('A', n),
                           NoJwt, req.jetStreamEnabled, req.jetStream, now);
    var rj := GenerateAccountJwt(store, account, ro.value, [key]);
    if rj.Err? { return Err(rj.error); }
    account := account.(jwt := rj.value);
    assert Signers([key]) == map[key.publicKey := ScopeOf(key)];
    var rs := SaveNewAccount(store, account, key, s, req, now);
    if rs.Err? { return Err(rs.error); }
    r := Ok(account);
  }

  method BuildDefaultKey(store: Store, accountId: Id, now: int) returns (r: Result<ScopedKey>)
    requires store.Valid()
    modifies store`next, store`plan, store`faults
    ensures store.Valid() && store.next >= old(store.next)
    ensures store.faults == old(store.faults) + (if r.Err? then 1 else 0)
    ensures r.Ok? ==> store.next == old(store.next) + 2
                      && r.value == NewKey(DefaultKeyRequest(accountId), old(store.next), now)
  {
    hide DefaultKeyDescription;
    var n := store.Draw();
    var f := store.Fault();
    if f { return Err(Broken); }
    var id := store.Draw();
    r := Ok(ScopedKey(id, accountId, "default", DefaultKeyDescription(), Seed(Key('A', n)), Key('A', n), [], [], [],
        [], 0, 0, now));
  }

  /** The common tail of both updates: sign `account` with the keys now stored, and save it. */
  method SignAndSave(store: Store, account: Account) returns (r: Result<Account>)
    requires store.Valid() && Drawn(account.id, account.publicKey, store.next)
    requires account.id in store.db.accounts && account.operatorId == store.db.accounts[account.id].operatorId
    requires account.createdAt == store.db.accounts[account.id].createdAt
    requires FitsAccount(store.db.operators.Keys, store.db.accounts, account)
    modifies store`db, store`plan, store`faults
    ensures store.Valid() && store.faults >= old(store.faults)
    ensures store.faults == old(store.faults) ==> (r.Ok? <==> Signable(old(store.db), account.id))
    ensures r.Ok? ==> Resigned(old(store.db), account, store.db)
    ensures r.Ok? ==> account.id in store.db.accounts && store.db.accounts[account.id] == r.value
    ensures r.Err? ==> store.db == old(store.db)
    ensures store.faults == old(store.faults) && r.Err? ==> r.error == Unsignable
  {
    hide Supplied, AccountsFit, OperatorsFit, UsersFit, ClustersFit;
    var ro := store.GetOperator(account.operatorId);
    if ro.Err? { return Err(ro.error); }
    var rk, ids := store.ListKeysByAccount(account.id, PAGE);
    if rk.Err? { return Err(rk.error); }
    PageDeclaresNewest(store.db, account.id, rk.value, ids);
    var rj := GenerateAccountJwt(store, account, ro.value, rk.value);
    if rj.Err? { return Err(rj.error); }
    var signed := account.(jwt := rj.value);
    assert FitsAccount(store.db.operators.Keys, store.db.accounts, signed);
    var ru := store.UpdateAccount(signed);
    if ru.Err? { return Err(ru.error); }
    r := Ok(signed);
  }

  lemma PatchedAccountFits(db: Db, id: Id, req: UpdateRequest)
    requires AccountsFit(db.operators.Keys, db.accounts) && id in db.accounts
    requires Differs(req.name, db.accounts[id].name) ==> !AccountTaken(db, db.accounts[id].operatorId, req.name.value)
    ensures FitsAccount(db.operators.Keys, db.accounts, PatchedAccount(db.accounts[id], req))
  {
    assert FitsAccount(db.operators.Keys, db.accounts, db.accounts[id]);
  }

  method UpdateAccount(store: Store, id: Id, req: UpdateRequest) returns (r: Result<Account>)
    requires store.Valid()
    modifies store`db, store`plan, store`faults
    ensures store.Valid() && store.faults >= old(store.faults)
    ensures UpdateAccountStep(State(old(store.db), old(store.next)), id, req, r.Ok?,
                              store.faults - old(store.faults), store.db)
    ensures r.Ok? ==> id in store.db.accounts && store.db.accounts[id] == r.value
    ensures store.faults == old(store.faults) && r.Err? ==>
              r.error == if id !in old(store.db).accounts then NotFound
                         else if Differs(req.name, old(store.db).accounts[id].name)
                                 && AccountTaken(old(store.db), old(store.db).accounts[id].operatorId, req.name.value)
                              then AlreadyExists
                         else Unsignable
  {
    hide Supplied, Resigned, Signable, KeysFit, OperatorsFit, UsersFit, ClustersFit;
    var ra := store.GetAccount(id);
    if ra.Err? { return ra; }
    var account := ra.value;
    var updated := false;
    if Differs(req.name, account.name) {
      var existing := store.GetAccountByName(account.operatorId, req.name.value);
      if existing.Err? && existing.error != NotFound { return Err(existing.error); }
      if existing.Ok? && existing.value.id != id { return Err(AlreadyExists); }
      account := account.(name := req.name.value);
      updated := true;
    }
    if Differs(req.description, account.description) {
      account := account.(description := req.description.value);
      updated := true;
    }
    if !updated { return Ok(account); }
    PatchedAccountFits(store.db, id, req);
    r := SignAndSave(store, account);
  }

  method UpdateJetStreamLimits(store: Store, id: Id, enabled: bool, limits: JetStream) returns (r: Result<Account>)
    requires store.Valid()
    modifies store`db, store`plan, store`faults
    ensures store.Valid() && store.faults >= old(store.faults)
    ensures UpdateJetStreamStep(State(old(store.db), old(store.next)), id, enabled, limits, r.Ok?,
                                store.faults - old(store.faults), store.db)
    ensures r.Ok? ==> id in store.db.accounts && store.db.accounts[id] == r.value
    ensures store.faults == old(store.faults) && r.Err? ==>
              r.error == if id in old(store.db).accounts then Unsignable else NotFound
  {
    hide Supplied, Resigned, Signable, KeysFit, OperatorsFit, UsersFit, ClustersFit;
    var ra := store.GetAccount(id);
    if ra.Err? { return ra; }
    PatchedAccountFits(store.db, id, UpdateRequest(None, None));
    r := SignAndSave(store, ra.value.(jetStreamEnabled := enabled, jetStream := limits));
  }

  method DeleteAccount(store: Store, id: Id) returns (r: Result<()>)
    requires store.Valid()
    modifies store`db, store`plan, store`faults
    ensures store.Valid() && store.faults >= old(store.faults)
    ensures DeleteAccountStep(State(old(store.db), old(store.next)), id, r.Ok?, store.faults - old(store.faults),
            store.db)
    ensures store.faults == old(store.faults) && r.Err? ==>
              r.error == if id in old(store.db).accounts then Invalid else NotFound
  {
    hide Supplied, KeysFit, OperatorsFit, UsersFit, ClustersFit;
    var ra := store.GetAccount(id);
    if ra.Err? { return Err(ra.error); }
    assert FitsAccount(store.db.operators.Keys, store.db.accounts, ra.value);
    var ro := store.GetOperator(ra.value.operatorId);
    if ro.Err? { return Err(ro.error); }
    if ro.value.systemAccount == ra.value.publicKey { return Err(Invalid); }
    r := store.DeleteAccount(id);
  }
}
