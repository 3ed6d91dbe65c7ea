/** Cluster rows and the credentials stored in them. */
module ClusterService {
  import opened Entities
  import opened Database
  import opened Repositories
  import opened Transitions
  import opened Encryption
  import opened Sealing

  /** The user's credentials file, encrypted. Drawing the nonce can fail. */
  method Seal(store: Store, v: Vault, nonce: Bytes, u: User) returns (r: Result<string>)
    requires store.Valid()
    modifies store`plan, store`faults
    ensures store.Valid()
    ensures r.Err? && store.faults == old(store.faults) ==> r == Sealed(v, nonce, u)
    ensures r.Ok? ==> store.faults == old(store.faults) && r == Sealed(v, nonce, u)
    ensures store.faults >= old(store.faults)
  {
    hide Decrypt, Encrypt;
    var file := UserCredentials(v, u);
    if file.Err? { return Err(file.error); }
    var f := store.Fault();
    if f { return Err(Broken); }
    r := Encrypt(v.aead, v.encryptor, nonce, ToBytes(file.value));
  }

  lemma RowFits(db: Db, next: nat, id: Id, c: Cluster)
    requires Sound(db, next) && id in db.clusters && c.id == id && c.operatorId == db.clusters[id].operatorId
    requires c.name == db.clusters[id].name || !ClusterTaken(db, c.name)
    ensures db.clusters[id].id == id < next && FitsCluster(db.operators.Keys, db.clusters, c)
  {
    assert FitsCluster(db.operators.Keys, db.clusters, db.clusters[id]);
  }

  method UpdateClusterCredentials(store: Store, id: Id, userId: Id, v: Vault, nonce: Bytes)
    returns (r: Result<Cluster>)
    requires store.Valid()
    modifies store`db, store`plan, store`faults
    ensures store.Valid() && store.faults >= old(store.faults)
    ensures ClusterCredentialsStep(State(old(store.db), old(store.next)), id, userId, v, nonce, r.Ok?,
                                   store.faults - old(store.faults), store.db)
    ensures r.Ok? ==> id in store.db.clusters && store.db.clusters[id] == r.value
    ensures store.faults == old(store.faults) && r.Err? ==>
              r.error == if id !in old(store.db).clusters || userId !in old(store.db).users then NotFound
                         else Sealed(v, nonce, old(store.db).users[userId]).error
  {
    hide Schema, Supplied, FitsCluster, Sealed;
    var rc := store.GetCluster(id);
    if rc.Err? { return rc; }
    var ru := store.GetUser(userId);
    if ru.Err? { return Err(ru.error); }
    var creds := Seal(store, v, nonce, ru.value);
    if creds.Err? { return Err(creds.error); }
    var cluster := rc.value.(creds := creds.value);
    RowFits(store.db, store.next, id, cluster);
    var rs := store.UpdateCluster(cluster);
    if rs.Err? { return Err(rs.error); }
    r := Ok(cluster);
  }

  lemma FreshClusterFits(db: Db, next: nat, c: Cluster)
    requires Sound(db, next) && c.id >= next && c.operatorId in db.operators && !ClusterTaken(db, c.name)
    ensures c.id !in db.clusters && FitsCluster(db.operators.Keys, db.clusters, c)
  {
  }

  /** The first user of the listing that is called "system". */
  method FindSystemUser(users: seq<User>) returns (r: Option<User>)
    ensures r.Some? ==> r.value in users && r.value.name == "system"
    ensures r.None? ==> forall u | u in users :: u.name != "system"
  {
    for i := 0 to |users|
      invariant forall u | u in users[..i] :: u.name != "system"
    {
      if users[i].name == "system" {
        return Some(users[i]);
      }
      assert users[..i + 1] == users[..i] + [users[i]];
    }
    assert users[..|users|] == users;
    return None;
  }

  /** An unlimited listing holds exactly the users of the account. */
  lemma ListsAllUsers(db: Db, accountId: Id, users: seq<User>, ids: seq<Id>)
    requires Schema(db) && IsListing(db.users, UserTimes(db, accountId), 0, users, ids)
    ensures forall u | u in users :: u.id in db.users && db.users[u.id] == u && u.accountId == accountId
    ensures forall i | i in UsersOf(db, accountId) :: db.users[i] in users
  {
    var times := UserTimes(db, accountId);
    PageHasAll(times, ids);
    forall i | i in UsersOf(db, accountId) ensures db.users[i] in users {
      assert i in times && i in Elements(ids);
      var n :| 0 <= n < |ids| && ids[n] == i;
      assert users[n] == db.users[i];
    }
  }

  /** Which user, if any, a new cluster takes its credentials from. */
  lemma ManagerListed(db: Db, a: Account, users: seq<User>, ids: seq<Id>, found: Option<User>)
    requires Schema(db) && a.id in db.accounts && db.accounts[a.id] == a
    requires IsListing(db.users, UserTimes(db, a.id), 0, users, ids)
    requires found.Some? ==> found.value in users && found.value.name == "system"
    requires found.None? ==> forall u | u in users :: u.name != "system"
    ensures forall u :: IsManager(db, a.publicKey, u) <==> found.Some? && found.value.id == u
  {
    ListsAllUsers(db, a.id, users, ids);
    forall u | IsManager(db, a.publicKey, u) ensures found.Some? && found.value.id == u {
      assert FitsAccount(db.operators.Keys, db.accounts, db.accounts[db.users[u].accountId]);
      assert u in UsersOf(db, a.id);
      assert FitsUser(db.accounts.Keys, db.keys.Keys, db.users, db.users[u]);
    }
  }

  method CreateCluster(store: Store, req: CreateClusterRequest, v: Vault, nonce: Bytes, now: int)
    returns (r: Result<Cluster>)
    requires store.Valid()
    modifies store
    ensures store.Valid() && store.next >= old(store.next) && store.faults >= old(store.faults)
    ensures CreateClusterStep(State(old(store.db), old(store.next)), req, v, nonce, now, r.Ok?,
                              store.faults - old(store.faults), store.db)
    ensures r.Ok? ==> r.value.id !in old(store.db).clusters && r.value.id in store.db.clusters
                      && r.value == store.db.clusters[r.value.id].(creds := "")
    ensures store.faults == old(store.faults) && r.Err? ==>
              r.error == if req.name == "" || req.serverUrls == [] then Invalid
                         else if req.operatorId !in old(store.db).operators then NotFound
                         else if old(store.db).operators[req.operatorId].systemAccount == NoKey then Invalid
                         else if ClusterTaken(old(store.db), req.name) then AlreadyExists else NotFound
  {
    hide Schema, Supplied, FitsCluster, IsManager, IsListing, Sealed;
    if req.name == "" || req.serverUrls == [] { return Err(Invalid); }
    var ro := store.GetOperator(req.operatorId);
    if ro.Err? { return Err(ro.error); }
    if ro.value.systemAccount == NoKey { return Err(Invalid); }
    var existing := store.GetClusterByName(req.name);
    if existing.Err? && existing.error != NotFound { return Err(existing.error); }
    if existing.Ok? { return Err(AlreadyExists); }
    var ra := store.GetAccountByPublicKey(ro.value.systemAccount);
    if ra.Err? { return Err(ra.error); }
    FreshClusterFits(store.db, store.next, NewCluster(req, ra.value.publicKey, store.next, now));
    ghost var before := store.db;
    var id := store.Draw();
    var cluster := NewCluster(req, ra.value.publicKey, id, now);
    var rc := store.CreateCluster(cluster);
    if rc.Err? { return Err(rc.error); }
    SetInitialCredentials(store, before, ra.value, cluster, v, nonce);
    r := Ok(cluster);
  }

  /** Errors here are logged and dropped. */
  method SetInitialCredentials(store: Store, ghost before: Db, a: Account, c: Cluster, v: Vault, nonce: Bytes)
    requires store.Valid() && store.db == WithCluster(before, c) && c.creds == ""
    requires a.id in before.accounts && before.accounts[a.id] == a
    modifies store`db, store`plan, store`faults
    ensures store.Valid() && store.faults >= old(store.faults)
    ensures
      || (store.db == WithCluster(before, c)
          && (store.faults == old(store.faults) ==>
                forall u | IsManager(before, a.publicKey, u) :: Sealed(v, nonce, before.users[u]).Err?))
      || exists u | IsManager(before, a.publicKey, u) ::
           && Sealed(v, nonce, before.users[u]).Ok?
           && store.db == WithCluster(before, c.(creds := Sealed(v, nonce, before.users[u]).value))
  {
    hide Schema, Supplied, IsListing, IsManager, Sealed, ClusterCredentialsStep;
    var ru, ids := store.ListUsersByAccount(a.id, 0);
    if ru.Ok? && |ru.value| > 0 {
      var systemUser := FindSystemUser(ru.value);
      ManagerListed(store.db, a, ru.value, ids, systemUser);
      ManagerElsewhere(before, store.db, a.publicKey);
      if systemUser.Some? {
        ghost var next, faults := store.next, store.faults;
        var rs := UpdateClusterCredentials(store, c.id, systemUser.value.id, v, nonce);
        CredentialsSet(before, next, c, systemUser.value.id, v, nonce, rs.Ok?, store.faults - faults, store.db);
      }
    } else if ru.Ok? {
      ManagerListed(store.db, a, ru.value, ids, None);
      ManagerElsewhere(before, store.db, a.publicKey);
    }
  }

  /** Setting the credentials of the cluster just stored, in terms of the database before it. */
  lemma CredentialsSet(before: Db, next: nat, c: Cluster, u: Id, v: Vault, nonce: Bytes, ok: bool, faults: nat, d: Db)
    requires ClusterCredentialsStep(State(WithCluster(before, c), next), c.id, u, v, nonce, ok, faults, d)
    requires u in before.users
    ensures d == WithCluster(before, c) || Sealed(v, nonce, before.users[u]).Ok?
    ensures d == WithCluster(before, c)
            || d == WithCluster(before, c.(creds := Sealed(v, nonce, before.users[u]).value))
    ensures faults == 0 && Sealed(v, nonce, before.users[u]).Ok? ==> ok
    ensures ok ==> Sealed(v, nonce, before.users[u]).Ok?
                   && d == WithCluster(before, c.(creds := Sealed(v, nonce, before.users[u]).value))
  {
    hide Sealed;
  }

  lemma ManagerElsewhere(db: Db, d: Db, key: PubKey)
    requires d.users == db.users && d.accounts == db.accounts
    ensures forall u :: IsManager(d, key, u) <==> IsManager(db, key, u)
    ensures forall u | IsManager(d, key, u) :: u in d.users
  {
  }

  method Patch(c: Cluster, req: UpdateClusterRequest) returns (cluster: Cluster, updated: bool)
    ensures cluster == PatchedCluster(c, req) && (!updated ==> cluster == c)
  {
    cluster, updated := c, false;
    if Differs(req.name, cluster.name) {
      cluster := cluster.(name := req.name.value);
      updated := true;
    }
    if Differs(req.description, cluster.description) {
      cluster := cluster.(description := req.description.value);
      updated := true;
    }
    if req.serverUrls.Some? {
      cluster := cluster.(serverUrls := req.serverUrls.value);
      updated := true;
    }
    if Differs(req.systemAccount, cluster.systemAccount) {
      cluster := cluster.(systemAccount := req.systemAccount.value);
      updated := true;
    }
    if Differs(req.skipVerifyTls, cluster.skipVerifyTls) {
      cluster := cluster.(skipVerifyTls := req.skipVerifyTls.value);
      updated := true;
    }
  }

  method UpdateCluster(store: Store, id: Id, req: UpdateClusterRequest) returns (r: Result<Cluster>)
    requires store.Valid()
    modifies store`db, store`plan, store`faults
    ensures store.Valid() && store.faults >= old(store.faults)
    ensures UpdateClusterStep(State(old(store.db), old(store.next)), id, req, r.Ok?,
                              store.faults - old(store.faults), store.db)
    ensures r.Ok? ==> id in store.db.clusters && store.db.clusters[id] == r.value
    ensures store.faults == old(store.faults) && r.Err? ==>
              r.error == if id in old(store.db).clusters then AlreadyExists else NotFound
  {
    hide Schema, Supplied, FitsCluster;
    var rc := store.GetCluster(id);
    if rc.Err? { return rc; }
    OwnId(store.db);
    if Differs(req.name, rc.value.name) {
      var existing := store.GetClusterByName(req.name.value);
      if existing.Err? && existing.error != NotFound { return Err(existing.error); }
      if existing.Ok? && existing.value.id != id { return Err(AlreadyExists); }
    }
    var cluster, updated := Patch(rc.value, req);
    if !updated { return Ok(cluster); }
    RowFits(store.db, store.next, id, cluster);
    var rs := store.UpdateCluster(cluster);
    if rs.Err? { return Err(rs.error); }
    r := Ok(cluster);
  }

  lemma OwnId(db: Db)
    requires Schema(db)
    ensures forall i | i in db.clusters :: db.clusters[i].id == i
  {
  }

  method DeleteCluster(store: Store, id: Id) returns (r: Result<()>)
    requires store.Valid()
    modifies store`db, store`plan, store`faults
    ensures store.Valid() && store.faults >= old(store.faults)
    ensures DeleteClusterStep(State(old(store.db), old(store.next)), id, r.Ok?,
                              store.faults - old(store.faults), store.db)
    ensures store.faults == old(store.faults) && r.Err? ==> r.error == NotFound
  {
    hide Schema, Supplied;
    var rc := store.GetCluster(id);
    if rc.Err? { return Err(rc.error); }
    r := store.DeleteCluster(id);
  }
}
