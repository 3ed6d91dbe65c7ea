/** Scoped signing keys. Every change of a key re-signs the JWT of its account. */
module ScopedSigningKeyService {
  import opened Entities
  import opened Database
  import opened Repositories
  import opened Jwts
  import opened Transitions

  /** Restores equality between the JWT and the newest keys from any state of the account. */
  method RegenerateAccountJwt(store: Store, accountId: Id) returns (r: Result<()>)
    requires store.Valid()
    modifies store`db, store`plan, store`faults
    ensures store.Valid() && store.faults >= old(store.faults)
    ensures store.faults == old(store.faults) ==> (r.Ok? <==> Signable(old(store.db), accountId))
    ensures r.Ok? ==> Signable(old(store.db), accountId)
                      && Resigned(old(store.db), old(store.db).accounts[accountId], store.db)
    ensures r.Err? ==> store.db == old(store.db)
    ensures store.faults == old(store.faults) && r.Err? ==>
              r.error == if accountId in old(store.db).accounts then Unsignable else NotFound
  {
    var ra := store.GetAccount(accountId);
    if ra.Err? { return Err(ra.error); }
    var account := ra.value;
    var ro := store.GetOperator(account.operatorId);
    if ro.Err? { return Err(ro.error); }
    var operator := ro.value;
    var rk, ids := store.ListKeysByAccount(accountId, PAGE);
    if rk.Err? { return Err(rk.error); }
    PageDeclaresNewest(store.db, accountId, rk.value, ids);
    var rj := GenerateAccountJwt(store, account, operator, rk.value);
    if rj.Err? { return Err(rj.error); }
    account := account.(jwt := rj.value);
    assert FitsAccount(store.db.operators.Keys, store.db.accounts, ra.value);
    r := store.UpdateAccount(account);
  }

  lemma FreshKeyFits(s: State, req: CreateKeyRequest, now: int)
    requires Sound(s.db, s.next) && req.accountId in s.db.accounts && !KeyTaken(s.db, req.accountId, req.name)
    ensures var k := NewKey(req, s.next, now);
            k.id !in s.db.keys && FitsKey(s.db.accounts.Keys, s.db.keys, k)
  {
  }

  lemma PatchedKeyFits(db: Db, id: Id, req: UpdateKeyRequest)
    requires KeysFit(db.accounts.Keys, db.keys) && id in db.keys
    requires Differs(req.name, db.keys[id].name) ==> !KeyTaken(db, db.keys[id].accountId, req.name.value)
    ensures FitsKey(db.accounts.Keys, db.keys, PatchedKey(db.keys[id], req))
  {
    assert FitsKey(db.accounts.Keys, db.keys, db.keys[id]);
  }

  /** Deleting the row just inserted gives the database back. */
  lemma RollbackKey(db: Db, k: ScopedKey)
    requires UsersFit(db.accounts.Keys, db.keys.Keys, db.users) && k.id !in db.keys
    ensures WithoutKey(WithKey(db, k), k.id) == db
  {
    var d := WithoutKey(WithKey(db, k), k.id);
    assert d.keys == db.keys;
    forall i | i in db.users ensures d.users[i] == db.users[i] {
      assert FitsUser(db.accounts.Keys, db.keys.Keys, db.users, db.users[i]);
    }
    assert d.users == db.users;
    assert d.accounts == db.accounts;
  }

  method CreateScopedSigningKey(store: Store, req: CreateKeyRequest, now: int) returns (r: Result<ScopedKey>)
    requires store.Valid()
    modifies store
    ensures store.Valid() && store.next >= old(store.next) && store.faults >= old(store.faults)
    ensures CreateKeyStep(State(old(store.db), old(store.next)), req, now, r.Ok?,
                          store.faults - old(store.faults), store.db)
    ensures r.Ok? ==> r.value == NewKey(req, old(store.next), now)
    ensures store.faults == old(store.faults) && r.Err? ==>
              r.error == if req.name == "" then Invalid
                         else if req.accountId !in old(store.db).accounts then NotFound
                         else if KeyTaken(old(store.db), req.accountId, req.name) then AlreadyExists
                         else Unsignable
  {
    hide Supplied, Resigned, KeysFit, AccountsFit, OperatorsFit, UsersFit, ClustersFit;
    if req.name == "" { return Err(Invalid); }
    var ra := store.GetAccount(req.accountId);
    if ra.Err? { return Err(ra.error); }
    var existing := store.GetKeyByName(req.accountId, req.name);
    if existing.Err? && existing.error != NotFound { return Err(existing.error); }
    if existing.Ok? { return Err(AlreadyExists); }
    var n := store.Draw();
    var f := store.Fault();
    if f { return Err(Broken); }
    var id := store.Draw();
    var key := ScopedKey(id, req.accountId, req.name, req.description, Seed(Key('A', n)), Key('A', n),
                         req.pubAllow, req.pubDeny, req.subAllow, req.subDeny,
                         req.responseMaxMsgs, req.responseTtl, now);
    ghost var s := State(old(store.db), old(store.next));
    FreshKeyFits(s, req, now);
    RollbackKey(s.db, key);
    var rc := store.CreateKey(key);
    if rc.Err? { return Err(rc.error); }
    var rr := RegenerateAccountJwt(store, req.accountId);
    if rr.Err? {
      var undone := store.DeleteKey(key.id);
      return Err(rr.error);
    }
    r := Ok(key);
  }

  /** The fields of an update that need no check, the name apart. */
  method PatchFields(k: ScopedKey, req: UpdateKeyRequest, changed: bool) returns (key: ScopedKey, updated: bool)
    ensures key == PatchedKey(k, req.(name := None))
    ensures updated == (changed || ChangesKey(k, req.(name := None)))
  {
    key, updated := k, changed;
    if Differs(req.description, key.description) {
      key := key.(description := req.description.value);
      updated := true;
    }
    if req.pubAllow.Some? {
      key := key.(pubAllow := req.pubAllow.value);
      updated := true;
    }
    if req.pubDeny.Some? {
      key := key.(pubDeny := req.pubDeny.value);
      updated := true;
    }
    if req.subAllow.Some? {
      key := key.(subAllow := req.subAllow.value);
      updated := true;
    }
    if req.subDeny.Some? {
      key := key.(subDeny := req.subDeny.value);
      updated := true;
    }
    if Differs(req.responseMaxMsgs, key.responseMaxMsgs) {
      key := key.(responseMaxMsgs := req.responseMaxMsgs.value);
      updated := true;
    }
    if Differs(req.responseTtl, key.responseTtl) {
      key := key.(responseTtl := req.responseTtl.value);
      updated := true;
    }
  }

  method UpdateScopedSigningKey(store: Store, id: Id, req: UpdateKeyRequest) returns (r: Result<ScopedKey>)
    requires store.Valid()
    modifies store`db, store`plan, store`faults
    ensures store.Valid() && store.faults >= old(store.faults)
    ensures UpdateKeyStep(State(old(store.db), old(store.next)), id, req, r.Ok?,
                          store.faults - old(store.faults), store.db)
    ensures r.Ok? ==> id in old(store.db).keys && r.value == PatchedKey(old(store.db).keys[id], req)
    ensures store.faults == old(store.faults) && r.Err? ==>
              r.error == if id !in old(store.db).keys then NotFound
                         else if Differs(req.name, old(store.db).keys[id].name)
                                 && KeyTaken(old(store.db), old(store.db).keys[id].accountId, req.name.value)
                              then AlreadyExists
                         else Unsignable
  {
    hide Supplied, Resigned, KeysFit, AccountsFit, OperatorsFit, UsersFit, ClustersFit;
    var rk := store.GetKey(id);
    if rk.Err? { return rk; }
    var key := rk.value;
    var updated := false;
    if Differs(req.name, key.name) {
      var existing := store.GetKeyByName(key.accountId, req.name.value);
      if existing.Err? && existing.error != NotFound { return Err(existing.error); }
      if existing.Ok? && existing.value.id != id { return Err(AlreadyExists); }
      key := key.(name := req.name.value);
      updated := true;
    }
    key, updated := PatchFields(key, req, updated);
    if !updated { return Ok(key); }
    PatchedKeyFits(store.db, id, req);
    var ru := store.UpdateKey(key);
    if ru.Err? { return Err(ru.error); }
    var rr := RegenerateAccountJwt(store, key.accountId);
    if rr.Err? { return Err(rr.error); }
    r := Ok(key);
  }

  method DeleteScopedSigningKey(store: Store, id: Id) returns (r: Result<()>)
    requires store.Valid()
    modifies store`db, store`plan, store`faults
    ensures store.Valid() && store.faults >= old(store.faults)
    ensures DeleteKeyStep(State(old(store.db), old(store.next)), id, r.Ok?, store.faults - old(store.faults), store.db)
    ensures store.faults == old(store.faults) && r.Err? ==>
              r.error == if id in old(store.db).keys then Unsignable else NotFound
  {
    hide Supplied, Resigned, AccountsFit, OperatorsFit, UsersFit, ClustersFit;
    var rk := store.GetKey(id);
    if rk.Err? { return Err(rk.error); }
    assert FitsKey(store.db.accounts.Keys, store.db.keys, rk.value);
    var rd := store.DeleteKey(id);
    if rd.Err? { return rd; }
    r := RegenerateAccountJwt(store, rk.value.accountId);
  }
}
