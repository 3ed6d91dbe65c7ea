/** Operators: created together with their $SYS account and system user, deleted by a manual cascade. */
module OperatorService {
  import opened Entities
  import opened Database
  import opened Repositories
  import opened Jwts
  import opened Transitions
  import AccountService
  import UserService

  lemma FreshOperatorFits(s: State, name: string, description: string, now: int)
    requires Sound(s.db, s.next) && !OperatorTaken(s.db, name)
    ensures var o := NewOperator(name, description, s.next, now);
            o.id !in s.db.operators && FitsOperator(s.db.operators, o)
  {
  }

  /** A new operator has no account yet, so its $SYS account is accepted. */
  lemma SystemAccountAccepted(s: State, name: string, description: string, now: int)
    requires Sound(s.db, s.next) && name != "" && !OperatorTaken(s.db, name)
    ensures var o := NewOperator(name, description, s.next, now);
            AcceptsNewAccount(WithOperator(s.db, o), SystemAccountRequest(o.id))
  {
    var o := NewOperator(name, description, s.next, now);
    forall i | i in s.db.accounts ensures s.db.accounts[i].operatorId != o.id {
      assert FitsAccount(s.db.operators.Keys, s.db.accounts, s.db.accounts[i]);
    }
  }

  /** Its $SYS account is new as well and has no user yet. */
  lemma SystemUserAccepted(s: State, name: string, description: string, now: int)
    requires Sound(s.db, s.next)
    ensures var d := CreateOperatorStage(s, name, description, now, 2);
            s.next + 3 in d.accounts && !UserTaken(d, s.next + 3, "system")
  {
    hide SystemAccountDescription, DefaultKeyDescription, SystemUserDescription;
    var d := CreateOperatorStage(s, name, description, now, 2);
    assert d.users == s.db.users;
    forall i | i in d.users ensures d.users[i].accountId != s.next + 3 {
      assert FitsUser(s.db.accounts.Keys, s.db.keys.Keys, s.db.users, s.db.users[i]);
    }
  }

  lemma DesignatedFits(s: State, name: string, description: string, now: int)
    requires Sound(s.db, s.next) && !OperatorTaken(s.db, name)
    ensures var o := NewOperator(name, description, s.next, now);
            var d3 := CreateOperatorStage(s, name, description, now, 3);
            && o.id in d3.operators && d3.operators[o.id] == o
            && FitsOperator(d3.operators, Designating(o, Key('A', s.next + 2)))
  {
    FreshOperatorFits(s, name, description, now);
  }

  method CreateOperator(store: Store, name: string, description: string, now: int) returns (r: Result<Operator>)
    requires store.Valid()
    modifies store
    ensures store.Valid() && store.next >= old(store.next) && store.faults >= old(store.faults)
    ensures CreateOperatorStep(State(old(store.db), old(store.next)), name, description, now, r.Ok?,
                               store.faults - old(store.faults), store.db)
    ensures r.Ok? ==> r.value.id !in old(store.db).operators && r.value.id in store.db.operators
                      && store.db.operators[r.value.id] == r.value
    ensures store.faults == old(store.faults) && r.Err? ==> r.error == if name == "" then Invalid else AlreadyExists
  {
    hide Sound, FitsOperator, FitsUser, WithNewAccount, WithDefaultKey, SignedNewAccount, WithUser, SignedUser,
         SystemAccountRequest, SystemUserRequest, Designating;
    ghost var s := State(store.db, store.next);
    if name == "" { return Err(Invalid); }
    var existing := store.GetOperatorByName(name);
    if existing.Err? && existing.error != NotFound { return Err(existing.error); }
    if existing.Ok? { return Err(AlreadyExists); }
    var n := store.Draw();
    var f := store.Fault();
    if f { return Err(Broken); }
    var id := store.Draw();
    var operator := Operator(id, name, description, Seed(Key('O', n)), Key('O', n), NoJwt, NoKey, now);
    var rj := GenerateOperatorJwt(store, operator);
    if rj.Err? { return Err(rj.error); }
    operator := operator.(jwt := rj.value);
    assert operator == NewOperator(name, description, n, now);
    FreshOperatorFits(s, name, description, now);
    var rc := store.CreateOperator(operator);
    if rc.Err? { return Err(rc.error); }
    assert store.db == CreateOperatorStage(s, name, description, now, 1);
    SystemAccountAccepted(s, name, description, now);
    var ra := AccountService.CreateAccount(store, SystemAccountRequest(id), now);
    if ra.Err? { return Err(ra.error); }
    assert store.db == CreateOperatorStage(s, name, description, now, 2);
    var ru := CreateSystemUser(store, ra.value, now, s, operator, description);
    if ru.Err? { return Err(ru.error); }
    r := Designate(store, operator, ra.value.publicKey, s, name, description, now);
  }

  /** The state after the first two stages, as the last two see it. */
  lemma StageTables(s: State, name: string, description: string, now: int)
    requires Sound(s.db, s.next)
    ensures var o := NewOperator(name, description, s.next, now);
            var d2 := CreateOperatorStage(s, name, description, now, 2);
            var u := SignedUser(d2, NewUser(SystemUserRequest(s.next + 3), s.next + 6, now));
            && d2.operators == s.db.operators[o.id := o]
            && d2.accounts[s.next + 3].publicKey == Key('A', s.next + 2)
            && d2.accounts[s.next + 3].seed == Seed(Key('A', s.next + 2))
            && CreateOperatorStage(s, name, description, now, 3) == WithUser(d2, u)
            && CreateOperatorStage(s, name, description, now, 4)
               == WithOperator(WithUser(d2, u), Designating(o, Key('A', s.next + 2)))
  {
    hide SystemAccountDescription, DefaultKeyDescription, SystemUserDescription;
  }

  method CreateSystemUser(store: Store, account: Account, now: int, ghost s: State, ghost o: Operator,
                          ghost description: string) returns (r: Result<()>)
    requires store.Valid() && store.next == s.next + 6
    requires Sound(s.db, s.next) && !OperatorTaken(s.db, o.name)
    requires o == NewOperator(o.name, description, s.next, now)
    requires store.db == CreateOperatorStage(s, o.name, description, now, 2)
    requires account == SignedNewAccount(WithOperator(s.db, o), SystemAccountRequest(o.id), s.next + 2, now)
    modifies store
    ensures store.Valid() && store.next >= old(store.next) && store.faults >= old(store.faults)
    ensures if r.Ok? then store.faults == old(store.faults) else store.faults > old(store.faults)
    ensures store.db == if r.Ok? then CreateOperatorStage(s, o.name, description, now, 3) else old(store.db)
  {
    hide Schema, Supplied, FitsUser, UserTaken, CreateOperatorStage, SystemAccountDescription, DefaultKeyDescription,
         SystemUserDescription;
    SystemUserAccepted(s, o.name, description, now);
    StageTables(s, o.name, description, now);
    ghost var d := store.db;
    var n := store.Draw();
    var f := store.Fault();
    if f { return Err(Broken); }
    var id := store.Draw();
    var user := User(id, account.id, "system", SystemUserDescription(), Seed(Key('U', n)), Key('U', n), NoJwt, None,
        now);
    var rj := GenerateUserJwt(store, user, account, None);
    if rj.Err? { return Err(rj.error); }
    user := user.(jwt := rj.value);
    UserService.FreshUserFits(State(d, s.next + 6), SystemUserRequest(account.id), now, rj.value);
    r := store.CreateUser(user);
  }

  method Designate(store: Store, operator: Operator, systemAccount: PubKey, ghost s: State,
                   ghost name: string, ghost description: string, ghost now: int) returns (r: Result<Operator>)
    requires store.Valid() && Sound(s.db, s.next) && !OperatorTaken(s.db, name) && s.next + 2 <= store.next
    requires operator == NewOperator(name, description, s.next, now) && systemAccount == Key('A', s.next + 2)
    requires store.db == CreateOperatorStage(s, name, description, now, 3)
    modifies store`db, store`plan, store`faults
    ensures store.Valid()
    ensures if r.Ok? then store.faults == old(store.faults) else store.faults > old(store.faults)
    ensures store.db == CreateOperatorStage(s, name, description, now, if r.Ok? then 4 else 3)
    ensures r.Ok? ==> r.value.id == operator.id && operator.id in store.db.operators
                      && store.db.operators[operator.id] == r.value
  {
    DesignatedFits(s, name, description, now);
    StageTables(s, name, description, now);
    hide Sound, FitsOperator, CreateOperatorStage;
    var o := operator.(systemAccount := systemAccount);
    var rj := GenerateOperatorJwt(store, o);
    if rj.Err? { return Err(rj.error); }
    o := o.(jwt := rj.value);
    var ru := store.UpdateOperator(o);
    if ru.Err? { return Err(ru.error); }
    r := Ok(o);
  }

  lemma PatchedOperatorFits(db: Db, id: Id, req: UpdateRequest)
    requires OperatorsFit(db.operators) && id in db.operators
    requires Differs(req.name, db.operators[id].name) ==> !OperatorTaken(db, req.name.value)
    ensures forall o: Operator | o.id == id && o.name == PatchedOperator(db.operators[id], req).name
                                 && o.publicKey == db.operators[id].publicKey :: FitsOperator(db.operators, o)
  {
    assert FitsOperator(db.operators, db.operators[id]);
  }

  method UpdateOperator(store: Store, id: Id, req: UpdateRequest) returns (r: Result<Operator>)
    requires store.Valid()
    modifies store`db, store`plan, store`faults
    ensures store.Valid() && store.faults >= old(store.faults)
    ensures UpdateOperatorStep(State(old(store.db), old(store.next)), id, req, r.Ok?,
                               store.faults - old(store.faults), store.db)
    ensures r.Ok? ==> id in store.db.operators && store.db.operators[id] == r.value
    ensures store.faults == old(store.faults) && r.Err? ==>
              r.error == if id !in old(store.db).operators then NotFound
                         else if Differs(req.name, old(store.db).operators[id].name)
                                 && OperatorTaken(old(store.db), req.name.value)
                              then AlreadyExists
                         else Unsignable
  {
    hide Supplied, UsersFit, AccountsFit, KeysFit, OperatorsFit, ClustersFit;
    var ro := store.GetOperator(id);
    if ro.Err? { return ro; }
    var operator := ro.value;
    var updated := false;
    if Differs(req.name, operator.name) {
      var existing := store.GetOperatorByName(req.name.value);
      if existing.Err? && existing.error != NotFound { return Err(existing.error); }
      if existing.Ok? && existing.value.id != id { return Err(AlreadyExists); }
      operator := operator.(name := req.name.value);
      updated := true;
    }
    if Differs(req.description, operator.description) {
      operator := operator.(description := req.description.value);
      updated := true;
    }
    if !updated { return Ok(operator); }
    var rj := GenerateOperatorJwt(store, operator);
    if rj.Err? { return Err(rj.error); }
    operator := operator.(jwt := rj.value);
    PatchedOperatorFits(store.db, id, req);
    var ru := store.UpdateOperator(operator);
    if ru.Err? { return Err(ru.error); }
    r := Ok(operator);
  }

  method SetSystemAccount(store: Store, id: Id, key: PubKey) returns (r: Result<Operator>)
    requires store.Valid()
    modifies store`db, store`plan, store`faults
    ensures store.Valid() && store.faults >= old(store.faults)
    ensures SetSystemAccountStep(State(old(store.db), old(store.next)), id, key, r.Ok?,
                                 store.faults - old(store.faults), store.db)
    ensures r.Ok? ==> id in store.db.operators && store.db.operators[id] == r.value
    ensures store.faults == old(store.faults) && r.Err? ==>
              r.error == if id !in old(store.db).operators then NotFound
                         else if key.Key? && key.prefix != 'A' then Invalid else Unsignable
  {
    hide Supplied, UsersFit, AccountsFit, KeysFit, OperatorsFit, ClustersFit;
    var ro := store.GetOperator(id);
    if ro.Err? { return ro; }
    if key.Key? && key.prefix != 'A' { return Err(Invalid); }
    var operator := ro.value.(systemAccount := key);
    if !NamesSystemAccount(operator.jwt, key) {
      var rj := GenerateOperatorJwt(store, operator);
      if rj.Err? { return Err(rj.error); }
      operator := operator.(jwt := rj.value);
    }
    PatchedOperatorFits(store.db, id, UpdateRequest(None, None));
    var ru := store.UpdateOperator(operator);
    if ru.Err? { return Err(ru.error); }
    r := Ok(operator);
  }

  // Deletion: what is gone after some of the deletes, and that the order does not matter.

  lemma NothingDeleted(db: Db, id: Id)
    requires Schema(db)
    ensures PartlyDeleted(db, id, db)
  {
    forall i | i in db.keys ensures db.keys[i].accountId in db.accounts {
      assert FitsKey(db.accounts.Keys, db.keys, db.keys[i]);
    }
    forall i | i in db.users
      ensures db.users[i].accountId in db.accounts && Unlink(db.users[i], db.keys.Keys) == db.users[i]
    {
      assert FitsUser(db.accounts.Keys, db.keys.Keys, db.users, db.users[i]);
    }
  }

  lemma UserDeleted(db: Db, id: Id, d: Db, u: Id)
    requires PartlyDeleted(db, id, d) && u in d.users && d.users[u].accountId in AccountsOf(db, id)
    ensures PartlyDeleted(db, id, WithoutUser(d, u))
    ensures WithoutUser(d, u).accounts == d.accounts && WithoutUser(d, u).users == d.users - {u}
  {
    var d' := WithoutUser(d, u);
    assert d'.accounts == d.accounts && d'.keys == d.keys;
    assert AccountsLeft(db, id, d');
    hide AccountsLeft;
    assert d'.users == d.users - {u};
  }

  lemma WithoutAccountRows(d: Db, a: Id)
    ensures var d' := WithoutAccount(d, a);
            && d'.operators == d.operators && d'.clusters == d.clusters
            && (forall i :: i in d'.accounts <==> i in d.accounts && i != a)
            && (forall i | i in d'.accounts :: d'.accounts[i] == d.accounts[i])
            && (forall k :: k in d'.keys <==> k in d.keys && d.keys[k].accountId in d'.accounts)
            && (forall k | k in d'.keys :: d'.keys[k] == d.keys[k])
            && (forall u :: u in d'.users <==> u in d.users && d.users[u].accountId in d'.accounts)
            && (forall u | u in d'.users :: d'.users[u] == Unlink(d.users[u], d'.keys.Keys))
  {
    hide KeepBelow, Unlink;
    BelowRows(d, d.accounts.Keys - {a}, d.users.Keys);
  }

  lemma AccountDeletedUsers(db: Db, id: Id, d: Db, a: Id)
    requires PartlyDeleted(db, id, d) && a in AccountsOf(db, id)
    ensures UsersLeft(db, id, WithoutAccount(d, a))
  {
    hide WithoutAccount, Unlink;
    WithoutAccountRows(d, a);
    var d' := WithoutAccount(d, a);
    forall u | u in d'.users
      ensures u in db.users && db.users[u].accountId in d'.accounts && d'.users[u] == Unlink(db.users[u], d'.keys.Keys)
    {
      UnlinkTwice(db.users[u], d.keys.Keys, d'.keys.Keys);
    }
    forall u | u in db.users && db.users[u].accountId !in AccountsOf(db, id) ensures u in d'.users {
      UnlinkTwice(db.users[u], d.keys.Keys, d.keys.Keys);
    }
  }

  lemma AccountDeleted(db: Db, id: Id, d: Db, a: Id)
    requires PartlyDeleted(db, id, d) && a in AccountsOf(db, id)
    ensures PartlyDeleted(db, id, WithoutAccount(d, a))
    ensures WithoutAccount(d, a).accounts.Keys == d.accounts.Keys - {a}
  {
    hide WithoutAccount, Unlink, UsersLeft;
    WithoutAccountRows(d, a);
    AccountDeletedUsers(db, id, d, a);
  }

  /** Row by row: what is left below the other operators' accounts is the same either way. */
  lemma RowLeft(db: Db, id: Id, d: Db, i: Id)
    requires PartlyDeleted(db, id, d)
    ensures var x, y := WithoutOperator(d, id), WithoutOperator(db, id);
            && (i in x.accounts <==> i in y.accounts) && (i in x.accounts ==> x.accounts[i] == y.accounts[i])
            && (i in x.keys <==> i in y.keys) && (i in x.keys ==> x.keys[i] == y.keys[i])
  {
    BelowRows(d, d.accounts.Keys - AccountsOf(d, id), d.users.Keys);
    BelowRows(db, db.accounts.Keys - AccountsOf(db, id), db.users.Keys);
    hide KeepBelow;
  }

  lemma UserLeft(db: Db, id: Id, d: Db, i: Id)
    requires PartlyDeleted(db, id, d)
    requires WithoutOperator(d, id).keys.Keys == WithoutOperator(db, id).keys.Keys
    ensures var x, y := WithoutOperator(d, id), WithoutOperator(db, id);
            && (i in x.users <==> i in y.users) && (i in x.users ==> x.users[i] == y.users[i])
  {
    BelowRows(d, d.accounts.Keys - AccountsOf(d, id), d.users.Keys);
    BelowRows(db, db.accounts.Keys - AccountsOf(db, id), db.users.Keys);
    var x, y := WithoutOperator(d, id), WithoutOperator(db, id);
    assert x.keys.Keys <= d.keys.Keys;
    if i in db.users {
      UnlinkTwice(db.users[i], d.keys.Keys, x.keys.Keys);
    }
    hide KeepBelow, Unlink, WithoutOperator;
  }

  lemma OperatorDeleted(db: Db, id: Id, d: Db)
    requires PartlyDeleted(db, id, d)
    ensures WithoutOperator(d, id) == WithoutOperator(db, id)
  {
    var x, y := WithoutOperator(d, id), WithoutOperator(db, id);
    assert x.operators == y.operators && x.clusters == y.clusters;
    hide WithoutOperator, AccountsLeft, UsersLeft;
    forall i {
      RowLeft(db, id, d, i);
    }
    assert x.accounts == y.accounts;
    assert x.keys == y.keys;
    forall i {
      UserLeft(db, id, d, i);
    }
    assert x.users == y.users;
  }

  lemma ListedUsers(db: Db, accountId: Id, users: seq<User>, ids: seq<Id>)
    requires UsersFit(db.accounts.Keys, db.keys.Keys, db.users)
    requires IsListing(db.users, UserTimes(db, accountId), BULK, users, ids)
    ensures forall i | 0 <= i < |users| :: users[i].id in UsersOf(db, accountId)
    ensures forall i, j | 0 <= i < j < |users| :: users[i].id != users[j].id
  {
  }

  /** One round of the cascade: the users of an account, then the account. `db` is the database
      before the deletion of operator `id` began. */
  method DeleteAccountWithUsers(store: Store, accountId: Id, ghost id: Id, ghost db: Db) returns (r: Result<()>)
    requires store.Valid() && PartlyDeleted(db, id, store.db)
    requires accountId in AccountsOf(db, id) && accountId in store.db.accounts
    modifies store`db, store`plan, store`faults
    ensures store.Valid() && PartlyDeleted(db, id, store.db)
    ensures if r.Ok? then store.faults == old(store.faults) else store.faults > old(store.faults)
    ensures r.Ok? ==> store.db.accounts.Keys == old(store.db).accounts.Keys - {accountId}
  {
    hide IsPage, PartlyDeleted, WithoutUser, WithoutAccount, Supplied, UsersFit;
    var ru, ids := store.ListUsersByAccount(accountId, BULK);
    if ru.Err? { return Err(ru.error); }
    var users := ru.value;
    ListedUsers(store.db, accountId, users, ids);
    for i := 0 to |users|
      invariant store.Valid() && store.faults == old(store.faults)
      invariant PartlyDeleted(db, id, store.db)
      invariant store.db.accounts == old(store.db).accounts
      invariant forall j | i <= j < |users| :: users[j].id in UsersOf(store.db, accountId)
    {
      UserDeleted(db, id, store.db, users[i].id);
      r := store.DeleteUser(users[i].id);
      if r.Err? { return; }
    }
    AccountDeleted(db, id, store.db, accountId);
    r := store.DeleteAccount(accountId);
  }

  method DeleteAccounts(store: Store, accounts: seq<Account>, ghost id: Id, ghost db: Db) returns (r: Result<()>)
    requires store.Valid() && PartlyDeleted(db, id, store.db)
    requires forall i | 0 <= i < |accounts| :: accounts[i].id in AccountsOf(db,
             id) && accounts[i].id in store.db.accounts
    requires forall i, j | 0 <= i < j < |accounts| :: accounts[i].id != accounts[j].id
    modifies store`db, store`plan, store`faults
    ensures store.Valid() && PartlyDeleted(db, id, store.db)
    ensures if r.Ok? then store.faults == old(store.faults) else store.faults > old(store.faults)
    ensures r.Ok? ==> forall i | 0 <= i < |accounts| :: accounts[i].id !in store.db.accounts
  {
    hide Sound, AccountsLeft, UsersLeft;
    for i := 0 to |accounts|
      invariant store.Valid() && store.faults == old(store.faults)
      invariant PartlyDeleted(db, id, store.db)
      invariant forall j | i <= j < |accounts| :: accounts[j].id in store.db.accounts
      invariant forall j | 0 <= j < i :: accounts[j].id !in store.db.accounts
    {
      r := DeleteAccountWithUsers(store, accounts[i].id, id, db);
      if r.Err? { return; }
    }
    r := Ok(());
  }

  method DeleteOperator(store: Store, id: Id) returns (r: Result<()>)
    requires store.Valid()
    modifies store`db, store`plan, store`faults
    ensures store.Valid() && store.faults >= old(store.faults)
    ensures DeleteOperatorStep(State(old(store.db), old(store.next)), id, r.Ok?,
                               store.faults - old(store.faults), store.db)
    ensures store.faults == old(store.faults) && r.Err? ==>
              r.error == if id in old(store.db).operators then Rejected else NotFound
  {
    ghost var db := store.db;
    NothingDeleted(db, id);
    hide Sound, IsPage, AccountsLeft, UsersLeft;
    var ro := store.GetOperator(id);
    if ro.Err? { return Err(ro.error); }
    var ra, ids := store.ListAccountsByOperator(id, BULK);
    if ra.Err? { return Err(ra.error); }
    ListedAccounts(store.db, id, ra.value, ids);
    r := DeleteAccounts(store, ra.value, id, db);
    if r.Err? { return; }
    OperatorDeleted(db, id, store.db);
    StillThere(db, id, store.db);
    NoneLeft(db, id, store.db, ra.value);
    hide WithoutOperator;
    r := store.DeleteOperator(id);
  }

  lemma NoneLeft(db: Db, id: Id, d: Db, accounts: seq<Account>)
    requires PartlyDeleted(db, id, d)
    requires |AccountsOf(db, id)| <= BULK ==>
               forall a | a in AccountsOf(db, id) :: exists i :: 0 <= i < |accounts| && accounts[i].id == a
    requires forall i | 0 <= i < |accounts| :: accounts[i].id !in d.accounts
    ensures |AccountsOf(db, id)| <= BULK ==> AccountsOf(d, id) == {}
  {
    if |AccountsOf(db, id)| <= BULK {
      assert AccountsOf(d, id) <= AccountsOf(db, id);
      forall a | a in AccountsOf(db, id) ensures a !in d.accounts {
        var i :| 0 <= i < |accounts| && accounts[i].id == a;
      }
    }
  }

  lemma ListedAccounts(db: Db, id: Id, accounts: seq<Account>, ids: seq<Id>)
    requires AccountsFit(db.operators.Keys, db.accounts)
    requires IsListing(db.accounts, AccountTimes(db, id), BULK, accounts, ids)
    ensures forall i | 0 <= i < |accounts| :: accounts[i].id in AccountsOf(db, id)
    ensures forall i, j | 0 <= i < j < |accounts| :: accounts[i].id != accounts[j].id
    ensures |AccountsOf(db, id)| <= BULK ==>
              forall a | a in AccountsOf(db, id) :: exists i :: 0 <= i < |accounts| && accounts[i].id == a
  {
    if |AccountsOf(db, id)| <= BULK {
      assert AccountTimes(db, id).Keys == AccountsOf(db, id);
      DistinctSize(ids);
      SubsetSize(Elements(ids), AccountsOf(db, id));
      forall a | a in AccountsOf(db, id) ensures exists i :: 0 <= i < |accounts| && accounts[i].id == a {
        assert a in Elements(ids);
        var i :| 0 <= i < |ids| && ids[i] == a;
        assert accounts[i].id == a;
      }
    }
  }

  lemma StillThere(db: Db, id: Id, d: Db)
    requires PartlyDeleted(db, id, d)
    ensures d.operators == db.operators && ClustersOf(d, id) == ClustersOf(db, id)
  {
  }
}
