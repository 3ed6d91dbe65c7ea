/** The repositories, as one class over the shared database. Any call can fail: `plan` says, call by
    call, which ones do, and `faults` counts those that did. A failing statement changes no row. */
module Repositories {
  import opened Entities
  import opened Database

  /** The newest `limit` ids of `created`, newest first. */
  method NewestFirst(created: map<Id, int>, limit: nat) returns (ids: seq<Id>)
    ensures IsPage(created, limit, ids)
  {
    ids := [];
    var rest := created.Keys;
    var n := PageSize(|created|, limit);
    assert |created.Keys| == |created|;
    while |ids| < n
      invariant |ids| <= n && |ids| + |rest| == |created|
      invariant forall x :: x in created <==> x in rest || x in ids
      invariant forall i | 0 <= i < |ids| :: ids[i] !in rest
      invariant forall i, j | 0 <= i < j < |ids| :: ids[i] != ids[j] && created[ids[i]] >= created[ids[j]]
      invariant forall i, x | 0 <= i < |ids| && x in rest :: created[ids[i]] >= created[x]
      decreases n - |ids|
    {
      var top := Newest(created, rest);
      rest := rest - {top};
      ids := ids + [top];
    }
  }

  method Newest(created: map<Id, int>, among: set<Id>) returns (top: Id)
    requires among != {} && among <= created.Keys
    ensures top in among && forall x | x in among :: created[x] <= created[top]
  {
    top :| top in among;
    var left := among - {top};
    while left != {}
      invariant left <= among && top in among
      invariant forall x | x in among - left :: created[x] <= created[top]
      decreases left
    {
      var x :| x in left;
      if created[x] > created[top] {
        top := x;
      }
      left := left - {x};
    }
  }

  method Select<T>(table: map<Id, T>, ids: seq<Id>) returns (rows: seq<T>)
    requires forall i | 0 <= i < |ids| :: ids[i] in table
    ensures |rows| == |ids| && forall i | 0 <= i < |rows| :: rows[i] == table[ids[i]]
  {
    rows := [];
    for j := 0 to |ids|
      invariant |rows| == j && forall i | 0 <= i < j :: rows[i] == table[ids[i]]
    {
      rows := rows + [table[ids[j]]];
    }
  }

  function Lookup<T>(table: map<Id, T>, id: Id): Result<T> {
    if id in table then Ok(table[id]) else Err(NotFound)
  }

  /** The result of an INSERT whose row is `free` under its id and violates no constraint. */
  function Inserted(free: bool): Result<()> {
    if free then Ok(()) else Err(Rejected)
  }

  /** The result of an UPDATE or DELETE; `allowed` speaks of the constraints. */
  function Changed(present: bool, allowed: bool): Result<()> {
    if !present then Err(NotFound) else if allowed then Ok(()) else Err(Rejected)
  }

  /** A call either fails, which counts as a fault, or gives the expected result. */
  predicate Gives<T(==)>(r: Result<T>, expected: Result<T>, before: nat, after: nat) {
    (r == Err(Broken) && after == before + 1) || (r == expected && after == before)
  }

  class Store {
    var db: Db
    var next: nat
    var plan: seq<bool>
    var faults: nat

    ghost predicate Valid()
      reads this
    {
      Sound(db, next)
    }

    constructor (plan: seq<bool>)
      ensures Valid() && db == EMPTY && faults == 0 && this.plan == plan
    {
      db, next, this.plan, faults := EMPTY, 0, plan, 0;
    }

    /** Does the next call to a repository or to the encryptor fail? */
    method Fault() returns (f: bool)
      modifies this`plan, this`faults
      ensures faults == old(faults) + (if f then 1 else 0)
      ensures old(plan) == [] ==> !f && plan == []
    {
      f := plan != [] && plan[0];
      if plan != [] {
        plan := plan[1..];
      }
      if f {
        faults := faults + 1;
      }
    }

    /** A draw from the random supply: a UUID or the number of a key pair. */
    method Draw() returns (n: nat)
      requires Valid()
      modifies this`next
      ensures Valid() && n == old(next) && next == n + 1
    {
      n := next;
      next := next + 1;
    }

    /** Draws never collide with an id or a key pair that is known from elsewhere; `bound` is above
        all of those. */
    method Avoid(bound: nat)
      requires Valid()
      modifies this`next
      ensures Valid() && next == if bound > old(next) then bound else old(next)
    {
      if bound > next {
        next := bound;
      }
    }

    // Operators

    method CreateOperator(o: Operator) returns (r: Result<()>)
      requires Valid() && Drawn(o.id, o.publicKey, next)
      modifies this`db, this`plan, this`faults
      ensures Valid()
      ensures Gives(r, Inserted(o.id !in old(db).operators && FitsOperator(old(db).operators, o)), old(faults), faults)
      ensures db == if r.Ok? then old(db).(operators := old(db).operators[o.id := o]) else old(db)
    {
      var f := Fault();
      r := if f then Err(Broken) else Inserted(o.id !in db.operators && FitsOperator(db.operators, o));
      if r.Ok? {
        PutOperator(db, next, o);
        db := db.(operators := db.operators[o.id := o]);
      }
    }

    method GetOperator(id: Id) returns (r: Result<Operator>)
      requires Valid()
      modifies this`plan, this`faults
      ensures Valid()
      ensures Gives(r, Lookup(db.operators, id), old(faults), faults)
      ensures r.Ok? ==> r.value.id == id && Drawn(id, r.value.publicKey, next)
    {
      var f := Fault();
      r := if f then Err(Broken) else Lookup(db.operators, id);
    }

    method GetOperatorByName(name: string) returns (r: Result<Operator>)
      requires Valid()
      modifies this`plan, this`faults
      ensures Valid()
      ensures faults == old(faults) + (if r == Err(Broken) then 1 else 0)
      ensures r.Ok? || r == Err(NotFound) || r == Err(Broken)
      ensures r.Ok? ==> r.value.id in db.operators && db.operators[r.value.id] == r.value
                        && db.operators[r.value.id].name == name
      ensures r == Err(NotFound) ==> forall i | i in db.operators :: !(db.operators[i].name == name)
    {
      var f := Fault();
      if f {
        r := Err(Broken);
      } else if i :| i in db.operators && db.operators[i].name == name {
        r := Ok(db.operators[i]);
      } else {
        r := Err(NotFound);
      }
    }

    method UpdateOperator(o: Operator) returns (r: Result<()>)
      requires Valid() && Drawn(o.id, o.publicKey, next)
      modifies this`db, this`plan, this`faults
      ensures Valid()
      ensures Gives(r, Changed(o.id in old(db).operators, FitsOperator(old(db).operators, o)), old(faults), faults)
      ensures r.Ok? ==> o.id in old(db).operators
      ensures db == if !r.Ok? then old(db)
                    else old(db).(operators :=
                           old(db).operators[o.id := o.(createdAt := old(db).operators[o.id].createdAt)])
    {
      var f := Fault();
      r := if f then Err(Broken) else Changed(o.id in db.operators, FitsOperator(db.operators, o));
      if r.Ok? {
        PutOperator(db, next, o.(createdAt := db.operators[o.id].createdAt));
        db := db.(operators := db.operators[o.id := o.(createdAt := db.operators[o.id].createdAt)]);
      }
    }

    method DeleteOperator(id: Id) returns (r: Result<()>)
      requires Valid()
      modifies this`db, this`plan, this`faults
      ensures Valid()
      ensures Gives(r, Changed(id in old(db).operators, ClustersOf(old(db), id) == {}), old(faults), faults)
      ensures db == if r.Ok? then WithoutOperator(old(db), id) else old(db)
    {
      hide Schema, Supplied, WithoutOperator;
      var f := Fault();
      r := if f then Err(Broken) else Changed(id in db.operators, ClustersOf(db, id) == {});
      if r.Ok? {
        WithoutOperatorSound(db, next, id);
        db := WithoutOperator(db, id);
      }
    }

    // Accounts

    method CreateAccount(a: Account) returns (r: Result<()>)
      requires Valid() && Drawn(a.id, a.publicKey, next)
      modifies this`db, this`plan, this`faults
      ensures Valid()
      ensures Gives(r, Inserted(a.id !in old(db).accounts && FitsAccount(old(db).operators.Keys, old(db).accounts, a)),
              old(faults), faults)
      ensures db == if r.Ok? then old(db).(accounts := old(db).accounts[a.id := AccountRow(a)]) else old(db)
    {
      var f := Fault();
      r := if f then Err(Broken) else Inserted(a.id !in db.accounts && FitsAccount(db.operators.Keys, db.accounts, a));
      if r.Ok? {
        PutAccount(db, next, AccountRow(a));
        db := db.(accounts := db.accounts[a.id := AccountRow(a)]);
      }
    }

    method GetAccount(id: Id) returns (r: Result<Account>)
      requires Valid()
      modifies this`plan, this`faults
      ensures Valid()
      ensures Gives(r, Lookup(db.accounts, id), old(faults), faults)
      ensures r.Ok? ==> r.value.id == id && Drawn(id, r.value.publicKey, next)
    {
      var f := Fault();
      r := if f then Err(Broken) else Lookup(db.accounts, id);
    }

    method GetAccountByName(operatorId: Id, name: string) returns (r: Result<Account>)
      requires Valid()
      modifies this`plan, this`faults
      ensures Valid()
      ensures faults == old(faults) + (if r == Err(Broken) then 1 else 0)
      ensures r.Ok? || r == Err(NotFound) || r == Err(Broken)
      ensures r.Ok? ==> r.value.id in db.accounts && db.accounts[r.value.id] == r.value
                        && db.accounts[r.value.id].operatorId == operatorId && db.accounts[r.value.id].name == name
      ensures r == Err(NotFound) ==> forall i | i in db.accounts ::
                !(db.accounts[i].operatorId == operatorId && db.accounts[i].name == name)
    {
      var f := Fault();
      if f {
        r := Err(Broken);
      } else if i :| i in db.accounts && db.accounts[i].operatorId == operatorId && db.accounts[i].name == name {
        r := Ok(db.accounts[i]);
      } else {
        r := Err(NotFound);
      }
    }

    method GetAccountByPublicKey(key: PubKey) returns (r: Result<Account>)
      requires Valid()
      modifies this`plan, this`faults
      ensures Valid()
      ensures faults == old(faults) + (if r == Err(Broken) then 1 else 0)
      ensures r.Ok? || r == Err(NotFound) || r == Err(Broken)
      ensures r.Ok? ==> r.value.id in db.accounts && db.accounts[r.value.id] == r.value
                        && db.accounts[r.value.id].publicKey == key
      ensures r == Err(NotFound) ==> forall i | i in db.accounts :: !(db.accounts[i].publicKey == key)
    {
      var f := Fault();
      if f {
        r := Err(Broken);
      } else if i :| i in db.accounts && db.accounts[i].publicKey == key {
        r := Ok(db.accounts[i]);
      } else {
        r := Err(NotFound);
      }
    }

    method ListAccountsByOperator(operatorId: Id, limit: nat) returns (r: Result<seq<Account>>, ghost ids: seq<Id>)
      requires Valid()
      modifies this`plan, this`faults
      ensures Valid()
      ensures faults == old(faults) + (if r.Err? then 1 else 0)
      ensures r.Err? ==> r.error == Broken
      ensures r.Ok? ==> IsListing(db.accounts, AccountTimes(db, operatorId), limit, r.value, ids)
    {
      var f := Fault();
      ids := [];
      if f {
        r := Err(Broken);
      } else {
        var page := NewestFirst(AccountTimes(db, operatorId), limit);
        var rows := Select(db.accounts, page);
        ids := page;
        r := Ok(rows);
      }
    }

    method UpdateAccount(a: Account) returns (r: Result<()>)
      requires Valid() && Drawn(a.id, a.publicKey, next)
      modifies this`db, this`plan, this`faults
      ensures Valid()
      ensures Gives(r, Changed(a.id in old(db).accounts, FitsAccount(old(db).operators.Keys, old(db).accounts, a)),
              old(faults), faults)
      ensures r.Ok? ==> a.id in old(db).accounts
      ensures db == if !r.Ok? then old(db)
                    else old(db).(accounts :=
                           old(db).accounts[a.id := a.(createdAt := old(db).accounts[a.id].createdAt)])
    {
      var f := Fault();
      r := if f then Err(Broken) else Changed(a.id in db.accounts, FitsAccount(db.operators.Keys, db.accounts, a));
      if r.Ok? {
        PutAccount(db, next, a.(createdAt := db.accounts[a.id].createdAt));
        db := db.(accounts := db.accounts[a.id := a.(createdAt := db.accounts[a.id].createdAt)]);
      }
    }

    method DeleteAccount(id: Id) returns (r: Result<()>)
      requires Valid()
      modifies this`db, this`plan, this`faults
      ensures Valid()
      ensures Gives(r, Changed(id in old(db).accounts, true), old(faults), faults)
      ensures db == if r.Ok? then WithoutAccount(old(db), id) else old(db)
    {
      hide Schema, Supplied, WithoutAccount;
      var f := Fault();
      r := if f then Err(Broken) else Changed(id in db.accounts, true);
      if r.Ok? {
        WithoutAccountSound(db, next, id);
        db := WithoutAccount(db, id);
      }
    }

    // Scoped signing keys

    method CreateKey(k: ScopedKey) returns (r: Result<()>)
      requires Valid() && Drawn(k.id, k.publicKey, next)
      modifies this`db, this`plan, this`faults
      ensures Valid()
      ensures Gives(r, Inserted(k.id !in old(db).keys && FitsKey(old(db).accounts.Keys, old(db).keys, k)), old(faults),
              faults)
      ensures db == if r.Ok? then old(db).(keys := old(db).keys[k.id := KeyRow(k)]) else old(db)
    {
      var f := Fault();
      r := if f then Err(Broken) else Inserted(k.id !in db.keys && FitsKey(db.accounts.Keys, db.keys, k));
      if r.Ok? {
        PutKey(db, next, KeyRow(k));
        db := db.(keys := db.keys[k.id := KeyRow(k)]);
      }
    }

    method GetKey(id: Id) returns (r: Result<ScopedKey>)
      requires Valid()
      modifies this`plan, this`faults
      ensures Valid()
      ensures Gives(r, Lookup(db.keys, id), old(faults), faults)
      ensures r.Ok? ==> r.value.id == id && Drawn(id, r.value.publicKey, next)
    {
      var f := Fault();
      r := if f then Err(Broken) else Lookup(db.keys, id);
    }

    method GetKeyByName(accountId: Id, name: string) returns (r: Result<ScopedKey>)
      requires Valid()
      modifies this`plan, this`faults
      ensures Valid()
      ensures faults == old(faults) + (if r == Err(Broken) then 1 else 0)
      ensures r.Ok? || r == Err(NotFound) || r == Err(Broken)
      ensures r.Ok? ==> r.value.id in db.keys && db.keys[r.value.id] == r.value
                        && db.keys[r.value.id].accountId == accountId && db.keys[r.value.id].name == name
      ensures r == Err(NotFound) ==> forall i | i in db.keys ::
                !(db.keys[i].accountId == accountId && db.keys[i].name == name)
    {
      var f := Fault();
      if f {
        r := Err(Broken);
      } else if i :| i in db.keys && db.keys[i].accountId == accountId && db.keys[i].name == name {
        r := Ok(db.keys[i]);
      } else {
        r := Err(NotFound);
      }
    }

    method ListKeysByAccount(accountId: Id, limit: nat) returns (r: Result<seq<ScopedKey>>, ghost ids: seq<Id>)
      requires Valid()
      modifies this`plan, this`faults
      ensures Valid()
      ensures faults == old(faults) + (if r.Err? then 1 else 0)
      ensures r.Err? ==> r.error == Broken
      ensures r.Ok? ==> IsListing(db.keys, KeyTimes(db, accountId), limit, r.value, ids)
    {
      var f := Fault();
      ids := [];
      if f {
        r := Err(Broken);
      } else {
        var page := NewestFirst(KeyTimes(db, accountId), limit);
        var rows := Select(db.keys, page);
        ids := page;
        r := Ok(rows);
      }
    }

    method UpdateKey(k: ScopedKey) returns (r: Result<()>)
      requires Valid() && Drawn(k.id, k.publicKey, next)
      modifies this`db, this`plan, this`faults
      ensures Valid()
      ensures Gives(r, Changed(k.id in old(db).keys, FitsKey(old(db).accounts.Keys, old(db).keys, k)), old(faults),
              faults)
      ensures r.Ok? ==> k.id in old(db).keys
      ensures db == if !r.Ok? then old(db)
                    else old(db).(keys :=
                           old(db).keys[k.id := KeyRow(k.(createdAt := old(db).keys[k.id].createdAt))])
    {
      var f := Fault();
      r := if f then Err(Broken) else Changed(k.id in db.keys, FitsKey(db.accounts.Keys, db.keys, k));
      if r.Ok? {
        PutKey(db, next, KeyRow(k.(createdAt := db.keys[k.id].createdAt)));
        db := db.(keys := db.keys[k.id := KeyRow(k.(createdAt := db.keys[k.id].createdAt))]);
      }
    }

    method DeleteKey(id: Id) returns (r: Result<()>)
      requires Valid()
      modifies this`db, this`plan, this`faults
      ensures Valid()
      ensures Gives(r, Changed(id in old(db).keys, true), old(faults), faults)
      ensures db == if r.Ok? then WithoutKey(old(db), id) else old(db)
    {
      hide Schema, Supplied, WithoutKey;
      var f := Fault();
      r := if f then Err(Broken) else Changed(id in db.keys, true);
      if r.Ok? {
        WithoutKeySound(db, next, id);
        db := WithoutKey(db, id);
      }
    }

    // Users

    method CreateUser(u: User) returns (r: Result<()>)
      requires Valid() && Drawn(u.id, u.publicKey, next)
      modifies this`db, this`plan, this`faults
      ensures Valid()
      ensures Gives(r, Inserted(u.id !in old(db).users
              && FitsUser(old(db).accounts.Keys, old(db).keys.Keys, old(db).users, u)), old(faults), faults)
      ensures db == if r.Ok? then old(db).(users := old(db).users[u.id := u]) else old(db)
    {
      var f := Fault();
      r := if f then Err(Broken) else Inserted(u.id !in db.users
          && FitsUser(db.accounts.Keys, db.keys.Keys, db.users, u));
      if r.Ok? {
        PutUser(db, next, u);
        db := db.(users := db.users[u.id := u]);
      }
    }

    method GetUser(id: Id) returns (r: Result<User>)
      requires Valid()
      modifies this`plan, this`faults
      ensures Valid()
      ensures Gives(r, Lookup(db.users, id), old(faults), faults)
      ensures r.Ok? ==> r.value.id == id && Drawn(id, r.value.publicKey, next)
    {
      var f := Fault();
      r := if f then Err(Broken) else Lookup(db.users, id);
    }

    method GetUserByName(accountId: Id, name: string) returns (r: Result<User>)
      requires Valid()
      modifies this`plan, this`faults
      ensures Valid()
      ensures faults == old(faults) + (if r == Err(Broken) then 1 else 0)
      ensures r.Ok? || r == Err(NotFound) || r == Err(Broken)
      ensures r.Ok? ==> r.value.id in db.users && db.users[r.value.id] == r.value
                        && db.users[r.value.id].accountId == accountId && db.users[r.value.id].name == name
      ensures r == Err(NotFound) ==> forall i | i in db.users ::
                !(db.users[i].accountId == accountId && db.users[i].name == name)
    {
      var f := Fault();
      if f {
        r := Err(Broken);
      } else if i :| i in db.users && db.users[i].accountId == accountId && db.users[i].name == name {
        r := Ok(db.users[i]);
      } else {
        r := Err(NotFound);
      }
    }

    method ListUsersByAccount(accountId: Id, limit: nat) returns (r: Result<seq<User>>, ghost ids: seq<Id>)
      requires Valid()
      modifies this`plan, this`faults
      ensures Valid()
      ensures faults == old(faults) + (if r.Err? then 1 else 0)
      ensures r.Err? ==> r.error == Broken
      ensures r.Ok? ==> IsListing(db.users, UserTimes(db, accountId), limit, r.value, ids)
    {
      var f := Fault();
      ids := [];
      if f {
        r := Err(Broken);
      } else {
        var page := NewestFirst(UserTimes(db, accountId), limit);
        var rows := Select(db.users, page);
        ids := page;
        r := Ok(rows);
      }
    }

    method UpdateUser(u: User) returns (r: Result<()>)
      requires Valid() && Drawn(u.id, u.publicKey, next)
      modifies this`db, this`plan, this`faults
      ensures Valid()
      ensures Gives(r, Changed(u.id in old(db).users,
              FitsUser(old(db).accounts.Keys, old(db).keys.Keys, old(db).users, u)), old(faults), faults)
      ensures r.Ok? ==> u.id in old(db).users
      ensures db == if !r.Ok? then old(db)
                    else old(db).(users :=
                           old(db).users[u.id := u.(createdAt := old(db).users[u.id].createdAt)])
    {
      var f := Fault();
      r := if f then Err(Broken) else Changed(u.id in db.users, FitsUser(db.accounts.Keys, db.keys.Keys, db.users, u));
      if r.Ok? {
        PutUser(db, next, u.(createdAt := db.users[u.id].createdAt));
        db := db.(users := db.users[u.id := u.(createdAt := db.users[u.id].createdAt)]);
      }
    }

    method DeleteUser(id: Id) returns (r: Result<()>)
      requires Valid()
      modifies this`db, this`plan, this`faults
      ensures Valid()
      ensures Gives(r, Changed(id in old(db).users, true), old(faults), faults)
      ensures db == if r.Ok? then WithoutUser(old(db), id) else old(db)
    {
      hide Schema, Supplied, WithoutUser;
      var f := Fault();
      r := if f then Err(Broken) else Changed(id in db.users, true);
      if r.Ok? {
        WithoutUserSound(db, next, id);
        db := WithoutUser(db, id);
      }
    }

    // Clusters

    method CreateCluster(c: Cluster) returns (r: Result<()>)
      requires Valid() && c.id < next
      modifies this`db, this`plan, this`faults
      ensures Valid()
      ensures Gives(r, Inserted(c.id !in old(db).clusters && FitsCluster(old(db).operators.Keys, old(db).clusters, c)),
              old(faults), faults)
      ensures db == if r.Ok? then old(db).(clusters := old(db).clusters[c.id := c]) else old(db)
    {
      var f := Fault();
      r := if f then Err(Broken) else Inserted(c.id !in db.clusters && FitsCluster(db.operators.Keys, db.clusters, c));
      if r.Ok? {
        PutCluster(db, next, c);
        db := db.(clusters := db.clusters[c.id := c]);
      }
    }

    method GetCluster(id: Id) returns (r: Result<Cluster>)
      requires Valid()
      modifies this`plan, this`faults
      ensures Valid()
      ensures Gives(r, Lookup(db.clusters, id), old(faults), faults)
      ensures r.Ok? ==> r.value.id == id
    {
      var f := Fault();
      r := if f then Err(Broken) else Lookup(db.clusters, id);
    }

    method GetClusterByName(name: string) returns (r: Result<Cluster>)
      requires Valid()
      modifies this`plan, this`faults
      ensures Valid()
      ensures faults == old(faults) + (if r == Err(Broken) then 1 else 0)
      ensures r.Ok? || r == Err(NotFound) || r == Err(Broken)
      ensures r.Ok? ==> r.value.id in db.clusters && db.clusters[r.value.id] == r.value
                        && db.clusters[r.value.id].name == name
      ensures r == Err(NotFound) ==> forall i | i in db.clusters :: !(db.clusters[i].name == name)
    {
      var f := Fault();
      if f {
        r := Err(Broken);
      } else if i :| i in db.clusters && db.clusters[i].name == name {
        r := Ok(db.clusters[i]);
      } else {
        r := Err(NotFound);
      }
    }

    method UpdateCluster(c: Cluster) returns (r: Result<()>)
      requires Valid() && c.id < next
      modifies this`db, this`plan, this`faults
      ensures Valid()
      ensures Gives(r, Changed(c.id in old(db).clusters, FitsCluster(old(db).operators.Keys, old(db).clusters, c)),
              old(faults), faults)
      ensures r.Ok? ==> c.id in old(db).clusters
      ensures db == if !r.Ok? then old(db)
                    else old(db).(clusters :=
                           old(db).clusters[c.id := c.(createdAt := old(db).clusters[c.id].createdAt)])
    {
      var f := Fault();
      r := if f then Err(Broken) else Changed(c.id in db.clusters, FitsCluster(db.operators.Keys, db.clusters, c));
      if r.Ok? {
        PutCluster(db, next, c.(createdAt := db.clusters[c.id].createdAt));
        db := db.(clusters := db.clusters[c.id := c.(createdAt := db.clusters[c.id].createdAt)]);
      }
    }

    method DeleteCluster(id: Id) returns (r: Result<()>)
      requires Valid()
      modifies this`db, this`plan, this`faults
      ensures Valid()
      ensures Gives(r, Changed(id in old(db).clusters, true), old(faults), faults)
      ensures db == if r.Ok? then WithoutCluster(old(db), id) else old(db)
    {
      var f := Fault();
      r := if f then Err(Broken) else Changed(id in db.clusters, true);
      if r.Ok? {
        WithoutClusterFits(db, next, id);
        db := WithoutCluster(db, id);
      }
    }

    method ListClustersByOperator(operatorId: Id, limit: nat) returns (r: Result<seq<Cluster>>, ghost ids: seq<Id>)
      requires Valid()
      modifies this`plan, this`faults
      ensures Valid()
      ensures faults == old(faults) + (if r.Err? then 1 else 0)
      ensures r.Err? ==> r.error == Broken
      ensures r.Ok? ==> IsListing(db.clusters, ClusterTimes(db, operatorId), limit, r.value, ids)
    {
      var f := Fault();
      ids := [];
      if f {
        r := Err(Broken);
      } else {
        var page := NewestFirst(ClusterTimes(db, operatorId), limit);
        var rows := Select(db.clusters, page);
        ids := page;
        r := Ok(rows);
      }
    }
  }
}
