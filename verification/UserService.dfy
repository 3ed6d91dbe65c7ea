/** Users, signed by their account's own key or by one of its scoped signing keys. */
module UserService {
  import opened Entities
  import opened Database
  import opened Repositories
  import opened Jwts
  import opened Transitions

  lemma FreshUserFits(s: State, req: CreateUserRequest, now: int, jwt: Jwt)
    requires Sound(s.db, s.next) && req.accountId in s.db.accounts && !UserTaken(s.db, req.accountId, req.name)
    requires req.scopedKeyId.Some? ==> req.scopedKeyId.value in s.db.keys
    ensures var u := NewUser(req, s.next, now).(jwt := jwt);
            u.id !in s.db.users && FitsUser(s.db.accounts.Keys, s.db.keys.Keys, s.db.users, u)
  {
  }

  method CreateUser(store: Store, req: CreateUserRequest, now: int) returns (r: Result<User>)
    requires store.Valid()
    modifies store
    ensures store.Valid() && store.next >= old(store.next) && store.faults >= old(store.faults)
    ensures CreateUserStep(State(old(store.db), old(store.next)), req, now, r.Ok?,
                           store.faults - old(store.faults), store.db)
    ensures r.Ok? ==> r.value.id !in old(store.db).users && r.value.id in store.db.users
                      && store.db.users[r.value.id] == r.value
    ensures store.faults == old(store.faults) && r.Err? ==>
              r.error == if req.name == "" then Invalid
                         else if req.accountId !in old(store.db).accounts then NotFound
                         else if UserTaken(old(store.db), req.accountId, req.name) then AlreadyExists
                         else if req.scopedKeyId.None? then Unsignable
                         else if req.scopedKeyId.value !in old(store.db).keys then NotFound
                         else if old(store.db).keys[req.scopedKeyId.value].accountId != req.accountId then Invalid
                         else Unsignable
  {
    hide Sound, FitsUser;
    ghost var s := State(store.db, store.next);
    if req.name == "" { return Err(Invalid); }
    var ra := store.GetAccount(req.accountId);
    if ra.Err? { return Err(ra.error); }
    var existing := store.GetUserByName(req.accountId, req.name);
    if existing.Err? && existing.error != NotFound { return Err(existing.error); }
    if existing.Ok? { return Err(AlreadyExists); }
    var scopedKey := None;
    if req.scopedKeyId.Some? {
      var rk := store.GetKey(req.scopedKeyId.value);
      if rk.Err? { return Err(rk.error); }
      if rk.value.accountId != req.accountId { return Err(Invalid); }
      scopedKey := Some(rk.value);
    }
    var n := store.Draw();
    var f := store.Fault();
    if f { return Err(Broken); }
    var id := store.Draw();
    var user := User(id, req.accountId, req.name, req.description, Seed(Key('U', n)), Key('U', n), NoJwt,
                     req.scopedKeyId, now);
    var rj := GenerateUserJwt(store, user, ra.value, scopedKey);
    if rj.Err? { return Err(rj.error); }
    user := user.(jwt := rj.value);
    FreshUserFits(s, req, now, rj.value);
    var rc := store.CreateUser(user);
    if rc.Err? { return Err(rc.error); }
    r := Ok(user);
  }

  lemma PatchedUserFits(db: Db, id: Id, req: UpdateRequest, jwt: Jwt)
    requires UsersFit(db.accounts.Keys, db.keys.Keys, db.users) && id in db.users
    requires Differs(req.name, db.users[id].name) ==> !UserTaken(db, db.users[id].accountId, req.name.value)
    ensures FitsUser(db.accounts.Keys, db.keys.Keys, db.users, PatchedUser(db.users[id], req).(jwt := jwt))
  {
    assert FitsUser(db.accounts.Keys, db.keys.Keys, db.users, db.users[id]);
  }

  method UpdateUser(store: Store, id: Id, req: UpdateRequest) returns (r: Result<User>)
    requires store.Valid()
    modifies store`db, store`plan, store`faults
    ensures store.Valid() && store.faults >= old(store.faults)
    ensures UpdateUserStep(State(old(store.db), old(store.next)), id, req, r.Ok?,
                           store.faults - old(store.faults), store.db)
    ensures r.Ok? ==> id in store.db.users && store.db.users[id] == r.value
    ensures store.faults == old(store.faults) && r.Err? ==>
              r.error == if id !in old(store.db).users then NotFound
                         else if Differs(req.name, old(store.db).users[id].name)
                                 && UserTaken(old(store.db), old(store.db).users[id].accountId, req.name.value)
                              then AlreadyExists
                         else Unsignable
  {
    hide Supplied, UsersFit, AccountsFit, KeysFit, OperatorsFit, ClustersFit;
    var ru := store.GetUser(id);
    if ru.Err? { return ru; }
    var user := ru.value;
    var updated := false;
    if Differs(req.name, user.name) {
      var existing := store.GetUserByName(user.accountId, req.name.value);
      if existing.Err? && existing.error != NotFound { return Err(existing.error); }
      if existing.Ok? && existing.value.id != id { return Err(AlreadyExists); }
      user := user.(name := req.name.value);
      updated := true;
    }
    if Differs(req.description, user.description) {
      user := user.(description := req.description.value);
      updated := true;
    }
    if !updated { return Ok(user); }
    r := SignAndSave(store, user, req);
  }

  /** The rest of an update: fetch the account and the scoped key, sign, save. */
  method SignAndSave(store: Store, user: User, ghost req: UpdateRequest) returns (r: Result<User>)
    requires store.Valid() && user.id in store.db.users
    requires user == PatchedUser(store.db.users[user.id], req)
    requires Differs(req.name, store.db.users[user.id].name) ==> !UserTaken(store.db, user.accountId, req.name.value)
    modifies store`db, store`plan, store`faults
    ensures store.Valid() && store.faults >= old(store.faults)
    ensures store.faults == old(store.faults) ==> (r.Ok? <==> HasSigner(old(store.db), user))
    ensures r.Ok? ==> HasSigner(old(store.db), user) && store.db == WithUser(old(store.db),
            SignedUser(old(store.db), user))
    ensures r.Ok? ==> store.db.users[user.id] == r.value
    ensures r.Err? ==> store.db == old(store.db)
    ensures store.faults == old(store.faults) && r.Err? ==> r.error == Unsignable
  {
    hide AccountsFit, KeysFit, OperatorsFit, ClustersFit;
    assert FitsUser(store.db.accounts.Keys, store.db.keys.Keys, store.db.users, store.db.users[user.id]);
    var ra := store.GetAccount(user.accountId);
    if ra.Err? { return Err(ra.error); }
    var scopedKey := None;
    if user.scopedKeyId.Some? {
      var rk := store.GetKey(user.scopedKeyId.value);
      if rk.Err? { return Err(rk.error); }
      scopedKey := Some(rk.value);
    }
    var rj := GenerateUserJwt(store, user, ra.value, scopedKey);
    if rj.Err? { return Err(rj.error); }
    var signed := user.(jwt := rj.value);
    PatchedUserFits(store.db, user.id, req, rj.value);
    var rs := store.UpdateUser(signed);
    if rs.Err? { return Err(rs.error); }
    r := Ok(signed);
  }

  method DeleteUser(store: Store, id: Id) returns (r: Result<()>)
    requires store.Valid()
    modifies store`db, store`plan, store`faults
    ensures store.Valid() && store.faults >= old(store.faults)
    ensures DeleteUserStep(State(old(store.db), old(store.next)), id, r.Ok?, store.faults - old(store.faults), store.db)
    ensures store.faults == old(store.faults) && r.Err? ==>
              r.error == if id in old(store.db).users then Invalid else NotFound
  {
    hide Supplied, AccountsFit, KeysFit, OperatorsFit, ClustersFit;
    var ru := store.GetUser(id);
    if ru.Err? { return Err(ru.error); }
    assert FitsUser(store.db.accounts.Keys, store.db.keys.Keys, store.db.users, ru.value);
    var ra := store.GetAccount(ru.value.accountId);
    if ra.Err? { return Err(ra.error); }
    if ra.value.name == "$SYS" && ru.value.name == "system" { return Err(Invalid); }
    r := store.DeleteUser(id);
  }
}
