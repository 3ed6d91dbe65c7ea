/** Exporting an operator with all its rows, and importing such an export into a store. */
module ExportService {
  import opened Entities
  import opened Database
  import opened Repositories

  datatype Export = Export(version: string, operator: Operator, accounts: seq<Account>, keys: seq<ScopedKey>,
                           users: seq<User>, clusters: seq<Cluster>)

  const VERSION := "1.0"

  // What an export shows of a database: seeds and credentials only on request, and never whether a
  // cluster skips the verification of certificates.

  function ShownSeed(seed: Secret, secrets: bool): Secret {
    if secrets then seed else NoSeed
  }

  function ShownOperator(o: Operator, secrets: bool): Operator {
    o.(seed := ShownSeed(o.seed, secrets))
  }

  function ShownAccount(a: Account, secrets: bool): Account {
    a.(seed := ShownSeed(a.seed, secrets))
  }

  function ShownKey(k: ScopedKey, secrets: bool): ScopedKey {
    k.(seed := ShownSeed(k.seed, secrets))
  }

  function ShownUser(u: User, secrets: bool): User {
    u.(seed := ShownSeed(u.seed, secrets))
  }

  function ShownCluster(c: Cluster, secrets: bool): Cluster {
    c.(creds := if secrets then c.creds else "", skipVerifyTls := false)
  }

  function Shown(db: Db, secrets: bool): Db {
    Db(map i | i in db.operators :: ShownOperator(db.operators[i], secrets),
       map i | i in db.accounts :: ShownAccount(db.accounts[i], secrets),
       map i | i in db.keys :: ShownKey(db.keys[i], secrets),
       map i | i in db.users :: ShownUser(db.users[i], secrets),
       map i | i in db.clusters :: ShownCluster(db.clusters[i], secrets))
  }

  // Lists of rows

  function AccountIds(rows: seq<Account>): seq<Id> {
    seq(|rows|, i requires 0 <= i < |rows| => rows[i].id)
  }

  function KeyIds(rows: seq<ScopedKey>): seq<Id> {
    seq(|rows|, i requires 0 <= i < |rows| => rows[i].id)
  }

  function UserIds(rows: seq<User>): seq<Id> {
    seq(|rows|, i requires 0 <= i < |rows| => rows[i].id)
  }

  function ClusterIds(rows: seq<Cluster>): seq<Id> {
    seq(|rows|, i requires 0 <= i < |rows| => rows[i].id)
  }

  ghost predicate Distinct(ids: seq<Id>) {
    forall i, j | 0 <= i < j < |ids| :: ids[i] != ids[j]
  }

  /** The rows are exactly those of `table` under the ids in `which`, each once. */
  ghost predicate Lists<T(!new)>(rows: seq<T>, ids: seq<Id>, table: map<Id, T>, which: set<Id>) {
    && Distinct(ids) && Elements(ids) == which && which <= table.Keys
    && |rows| == |ids| && forall i | 0 <= i < |rows| :: ids[i] in which && rows[i] == table[ids[i]]
  }

  function KeysUnder(db: Db, accts: set<Id>): set<Id> {
    set k | k in db.keys && db.keys[k].accountId in accts
  }

  function UsersUnder(db: Db, accts: set<Id>): set<Id> {
    set u | u in db.users && db.users[u].accountId in accts
  }

  /** The export holds the operator and exactly the rows below it. */
  ghost predicate IsExport(db: Db, id: Id, e: Export) {
    && e.version == VERSION && id in db.operators && e.operator == db.operators[id]
    && Lists(e.accounts, AccountIds(e.accounts), db.accounts, AccountsOf(db, id))
    && Lists(e.keys, KeyIds(e.keys), db.keys, KeysUnder(db, AccountsOf(db, id)))
    && Lists(e.users, UserIds(e.users), db.users, UsersUnder(db, AccountsOf(db, id)))
    && Lists(e.clusters, ClusterIds(e.clusters), db.clusters, ClustersOf(db, id))
  }

  lemma ListsMore<T(!new)>(xs: seq<T>, xids: seq<Id>, xset: set<Id>, ys: seq<T>, yids: seq<Id>, yset: set<Id>,
                            table: map<Id, T>)
    requires Lists(xs, xids, table, xset) && Lists(ys, yids, table, yset) && xset !! yset
    ensures Lists(xs + ys, xids + yids, table, xset + yset)
  {
    assert forall i | 0 <= i < |xids| :: xids[i] in xset;
    assert forall i | 0 <= i < |yids| :: yids[i] in yset;
    assert Elements(xids + yids) == xset + yset;
  }

  // Exporting

  method ExportAccount(a: Account, secrets: bool) returns (r: Account)
    ensures r == ShownAccount(a, secrets)
  {
    r := a.(seed := NoSeed);
    if secrets {
      r := r.(seed := a.seed);
    }
  }

  method ExportKeys(rows: seq<ScopedKey>, secrets: bool) returns (shown: seq<ScopedKey>)
    ensures |shown| == |rows| && forall i | 0 <= i < |rows| :: shown[i] == ShownKey(rows[i], secrets)
  {
    shown := [];
    for i := 0 to |rows|
      invariant |shown| == i && forall j | 0 <= j < i :: shown[j] == ShownKey(rows[j], secrets)
    {
      var exported := rows[i].(seed := NoSeed);
      if secrets {
        exported := exported.(seed := rows[i].seed);
      }
      shown := shown + [exported];
    }
  }

  method ExportUsers(rows: seq<User>, secrets: bool) returns (shown: seq<User>)
    ensures |shown| == |rows| && forall i | 0 <= i < |rows| :: shown[i] == ShownUser(rows[i], secrets)
  {
    shown := [];
    for i := 0 to |rows|
      invariant |shown| == i && forall j | 0 <= j < i :: shown[j] == ShownUser(rows[j], secrets)
    {
      var exported := rows[i].(seed := NoSeed);
      if secrets {
        exported := exported.(seed := rows[i].seed);
      }
      shown := shown + [exported];
    }
  }

  method ExportClusters(rows: seq<Cluster>, secrets: bool) returns (shown: seq<Cluster>)
    ensures |shown| == |rows| && forall i | 0 <= i < |rows| :: shown[i] == ShownCluster(rows[i], secrets)
  {
    shown := [];
    for i := 0 to |rows|
      invariant |shown| == i && forall j | 0 <= j < i :: shown[j] == ShownCluster(rows[j], secrets)
    {
      var exported := rows[i].(creds := "", skipVerifyTls := false);
      if secrets {
        exported := exported.(creds := rows[i].creds);
      }
      shown := shown + [exported];
    }
  }

  lemma ShownKeysListed(db: Db, secrets: bool, a: Id, rows: seq<ScopedKey>, ids: seq<Id>, shown: seq<ScopedKey>)
    requires KeysFit(db.accounts.Keys, db.keys) && IsListing(db.keys, KeyTimes(db, a), 0, rows, ids)
    requires |shown| == |rows| && forall i | 0 <= i < |rows| :: shown[i] == ShownKey(rows[i], secrets)
    ensures Lists(shown, KeyIds(shown), Shown(db, secrets).keys, KeysOf(db.keys, a))
  {
    PageHasAll(KeyTimes(db, a), ids);
    hide FitsKey;
    assert KeyIds(shown) == ids;
  }

  lemma ShownUsersListed(db: Db, secrets: bool, a: Id, rows: seq<User>, ids: seq<Id>, shown: seq<User>)
    requires UsersFit(db.accounts.Keys, db.keys.Keys, db.users) && IsListing(db.users, UserTimes(db, a), 0, rows, ids)
    requires |shown| == |rows| && forall i | 0 <= i < |rows| :: shown[i] == ShownUser(rows[i], secrets)
    ensures Lists(shown, UserIds(shown), Shown(db, secrets).users, UsersOf(db, a))
  {
    PageHasAll(UserTimes(db, a), ids);
    hide FitsUser;
    assert UserIds(shown) == ids;
  }

  lemma ShownClustersListed(db: Db, secrets: bool, id: Id, rows: seq<Cluster>, ids: seq<Id>, shown: seq<Cluster>)
    requires ClustersFit(db.operators.Keys, db.clusters) && IsListing(db.clusters, ClusterTimes(db, id), 0, rows, ids)
    requires |shown| == |rows| && forall i | 0 <= i < |rows| :: shown[i] == ShownCluster(rows[i], secrets)
    ensures Lists(shown, ClusterIds(shown), Shown(db, secrets).clusters, ClustersOf(db, id))
  {
    PageHasAll(ClusterTimes(db, id), ids);
    hide FitsCluster;
    assert ClusterIds(shown) == ids;
  }

  /** What the outer loop has collected after the first accounts of the page. */
  ghost predicate Collected(db: Db, accts: set<Id>, accounts: seq<Account>, keys: seq<ScopedKey>, users: seq<User>) {
    && Lists(accounts, AccountIds(accounts), db.accounts, accts)
    && Lists(keys, KeyIds(keys), db.keys, KeysUnder(db, accts))
    && Lists(users, UserIds(users), db.users, UsersUnder(db, accts))
  }

  lemma CollectedMore(db: Db, accts: set<Id>, accounts: seq<Account>, keys: seq<ScopedKey>, users: seq<User>,
                      a: Account, ks: seq<ScopedKey>, us: seq<User>)
    requires Collected(db, accts, accounts, keys, users)
    requires a.id in db.accounts && db.accounts[a.id] == a && a.id !in accts
    requires Lists(ks, KeyIds(ks), db.keys, KeysUnder(db, {a.id}))
    requires Lists(us, UserIds(us), db.users, UsersUnder(db, {a.id}))
    ensures Collected(db, accts + {a.id}, accounts + [a], keys + ks, users + us)
  {
    hide Lists;
    assert Lists([a], [a.id], db.accounts, {a.id}) by { SingleListed(db, a); }
    ListsMore(accounts, AccountIds(accounts), accts, [a], [a.id], {a.id}, db.accounts);
    assert AccountIds(accounts + [a]) == AccountIds(accounts) + [a.id];
    ListsMore(keys, KeyIds(keys), KeysUnder(db, accts), ks, KeyIds(ks), KeysUnder(db, {a.id}), db.keys);
    assert KeyIds(keys + ks) == KeyIds(keys) + KeyIds(ks);
    assert KeysUnder(db, accts + {a.id}) == KeysUnder(db, accts) + KeysUnder(db, {a.id});
    ListsMore(users, UserIds(users), UsersUnder(db, accts), us, UserIds(us), UsersUnder(db, {a.id}), db.users);
    assert UserIds(users + us) == UserIds(users) + UserIds(us);
    assert UsersUnder(db, accts + {a.id}) == UsersUnder(db, accts) + UsersUnder(db, {a.id});
  }

  lemma SingleListed(db: Db, a: Account)
    requires a.id in db.accounts && db.accounts[a.id] == a
    ensures Lists([a], [a.id], db.accounts, {a.id})
  {
    assert Elements([a.id]) == {a.id};
  }

  lemma NothingCollected(db: Db)
    ensures Collected(db, {}, [], [], [])
  {
    assert KeysUnder(db, {}) == {} && UsersUnder(db, {}) == {};
  }

  lemma ShownAt(db: Db, secrets: bool, a: Id)
    ensures var shown := Shown(db, secrets);
            && KeysUnder(shown, {a}) == KeysOf(db.keys, a) && UsersUnder(shown, {a}) == UsersOf(db, a)
            && AccountsOf(shown, a) == AccountsOf(db, a) && ClustersOf(shown, a) == ClustersOf(db, a)
            && (a in db.accounts ==> a in shown.accounts && shown.accounts[a] == ShownAccount(db.accounts[a], secrets))
            && (a in db.operators ==> a in shown.operators && shown.operators[a] == ShownOperator(db.operators[a],
                secrets))
  {
  }

  /** The keys and users of one account, without a limit. */
  method ExportBelow(store: Store, a: Id, secrets: bool) returns (r: Result<(seq<ScopedKey>, seq<User>)>)
    requires store.Valid()
    modifies store`plan, store`faults
    ensures store.Valid() && store.faults == old(store.faults) + (if r.Err? then 1 else 0)
    ensures r.Ok? ==>
              var shown := Shown(store.db, secrets);
              && Lists(r.value.0, KeyIds(r.value.0), shown.keys, KeysUnder(shown, {a}))
              && Lists(r.value.1, UserIds(r.value.1), shown.users, UsersUnder(shown, {a}))
  {
    hide KeysFit, UsersFit, ClustersFit, AccountsFit, OperatorsFit, Supplied, IsListing, Lists, Shown;
    var rk, keyIds := store.ListKeysByAccount(a, 0);
    if rk.Err? { return Err(rk.error); }
    var keys := ExportKeys(rk.value, secrets);
    ShownKeysListed(store.db, secrets, a, rk.value, keyIds, keys);
    var ru, userIds := store.ListUsersByAccount(a, 0);
    if ru.Err? { return Err(ru.error); }
    var users := ExportUsers(ru.value, secrets);
    ShownUsersListed(store.db, secrets, a, ru.value, userIds, users);
    ShownAt(store.db, secrets, a);
    r := Ok((keys, users));
  }

  lemma PageAccount(db: Db, id: Id, rows: seq<Account>, ids: seq<Id>, i: nat)
    requires AccountsFit(db.operators.Keys, db.accounts)
    requires IsListing(db.accounts, AccountTimes(db, id), 0, rows, ids) && i < |rows|
    ensures |ids| == |rows| && rows[i].id == ids[i] && ids[i] in db.accounts && rows[i] == db.accounts[ids[i]]
    ensures ids[i] !in Elements(ids[..i]) && Elements(ids[..i + 1]) == Elements(ids[..i]) + {ids[i]}
  {
    hide FitsAccount;
    assert ids[..i + 1] == ids[..i] + [ids[i]];
  }

  lemma WholePage(db: Db, id: Id, rows: seq<Account>, ids: seq<Id>)
    requires IsListing(db.accounts, AccountTimes(db, id), 0, rows, ids)
    ensures |ids| == |rows| && Elements(ids[..|rows|]) == AccountsOf(db, id)
  {
    PageHasAll(AccountTimes(db, id), ids);
    assert ids[..|rows|] == ids;
  }

  method ExportOperator(store: Store, id: Id, secrets: bool) returns (r: Result<Export>)
    requires store.Valid()
    modifies store`plan, store`faults
    ensures store.Valid() && store.faults >= old(store.faults)
    ensures r.Ok? ==> IsExport(Shown(store.db, secrets), id, r.value)
    ensures store.faults == old(store.faults) ==> (r.Ok? <==> id in store.db.operators)
    ensures store.faults == old(store.faults) && r.Err? ==> r.error == NotFound
  {
    hide KeysFit, UsersFit, ClustersFit, AccountsFit, OperatorsFit, Supplied, IsListing, Lists, Shown;
    var ro := store.GetOperator(id);
    if ro.Err? { return Err(ro.error); }
    var operator := ro.value.(seed := NoSeed);
    if secrets {
      operator := operator.(seed := ro.value.seed);
    }
    var ra, ids := store.ListAccountsByOperator(id, 0);
    if ra.Err? { return Err(ra.error); }
    ghost var db := store.db;
    ghost var shown := Shown(db, secrets);
    var accounts, keys, users := [], [], [];
    NothingCollected(shown);
    WholePage(db, id, ra.value, ids);
    assert Elements(ids[..0]) == {};
    for i := 0 to |ra.value|
      invariant store.Valid() && store.db == db && store.faults == old(store.faults)
      invariant Collected(shown, Elements(ids[..i]), accounts, keys, users)
    {
      hide Collected;
      PageAccount(db, id, ra.value, ids, i);
      var a := ExportAccount(ra.value[i], secrets);
      var below := ExportBelow(store, a.id, secrets);
      if below.Err? { return Err(below.error); }
      ShownAt(db, secrets, a.id);
      CollectedMore(shown, Elements(ids[..i]), accounts, keys, users, a, below.value.0, below.value.1);
      accounts, keys, users := accounts + [a], keys + below.value.0, users + below.value.1;
    }
    var rc, clusterIds := store.ListClustersByOperator(id, 0);
    if rc.Err? { return Err(rc.error); }
    var clusters := ExportClusters(rc.value, secrets);
    ShownClustersListed(db, secrets, id, rc.value, clusterIds, clusters);
    ShownAt(db, secrets, id);
    r := Ok(Export(VERSION, operator, accounts, keys, users, clusters));
  }

  // What an export holds, row by row, in terms of the stored rows: seeds exactly on request.

  lemma ExportedOperator(db: Db, secrets: bool, id: Id, e: Export)
    requires IsExport(Shown(db, secrets), id, e)
    ensures e.version == "1.0" && id in db.operators
    ensures e.operator == db.operators[id].(seed := e.operator.seed)
    ensures e.operator.seed == if secrets then db.operators[id].seed else NoSeed
  {
    hide Lists;
  }

  /** A listed row, from its id and from its place. */
  lemma Listed<T(!new)>(rows: seq<T>, ids: seq<Id>, table: map<Id, T>, which: set<Id>)
    requires Lists(rows, ids, table, which)
    ensures |rows| == |ids|
    ensures forall x | x in which :: exists i :: 0 <= i < |rows| && ids[i] == x
    ensures forall i | 0 <= i < |rows| :: ids[i] in which && ids[i] in table && rows[i] == table[ids[i]]
  {
    forall x | x in which ensures exists i :: 0 <= i < |rows| && ids[i] == x {
      assert x in Elements(ids);
    }
  }

  lemma ExportedAccounts(db: Db, secrets: bool, id: Id, e: Export)
    requires IsExport(Shown(db, secrets), id, e)
    ensures forall a | a in e.accounts ::
              && a.id in db.accounts && db.accounts[a.id].operatorId == id
              && a == db.accounts[a.id].(seed := a.seed)
              && a.seed == if secrets then db.accounts[a.id].seed else NoSeed
    ensures forall x | x in db.accounts && db.accounts[x].operatorId == id :: exists a :: a in e.accounts && a.id == x
  {
    hide Lists;
    var shown := Shown(db, secrets);
    ShownAt(db, secrets, id);
    Listed(e.accounts, AccountIds(e.accounts), shown.accounts, AccountsOf(shown, id));
    forall x | x in db.accounts && db.accounts[x].operatorId == id ensures exists a :: a in e.accounts && a.id == x {
      assert x in AccountsOf(shown, id);
      var i :| 0 <= i < |e.accounts| && AccountIds(e.accounts)[i] == x;
      assert e.accounts[i] in e.accounts;
    }
    forall a | a in e.accounts ensures a.id in AccountsOf(shown, id) && a == shown.accounts[a.id] {
      var i :| 0 <= i < |e.accounts| && e.accounts[i] == a;
      assert AccountIds(e.accounts)[i] == a.id;
    }
  }

  /** The account is one of the operator's. */
  predicate Below(db: Db, account: Id, id: Id) {
    account in db.accounts && db.accounts[account].operatorId == id
  }

  lemma KeysShown(db: Db, secrets: bool, id: Id)
    ensures var shown := Shown(db, secrets);
            && (forall x :: x in KeysUnder(shown, AccountsOf(shown, id))
                            <==> x in db.keys && Below(db, db.keys[x].accountId, id))
            && shown.keys.Keys == db.keys.Keys
            && forall x | x in db.keys ::
                 shown.keys[x] == db.keys[x].(seed := if secrets then db.keys[x].seed else NoSeed)
  {
    ShownAt(db, secrets, id);
  }

  lemma ExportedKeys(db: Db, secrets: bool, id: Id, e: Export)
    requires IsExport(Shown(db, secrets), id, e)
    ensures forall k | k in e.keys ::
              && k.id in db.keys && Below(db, db.keys[k.id].accountId, id) && k == db.keys[k.id].(seed := k.seed)
              && k.seed == if secrets then db.keys[k.id].seed else NoSeed
    ensures forall x | x in db.keys && Below(db, db.keys[x].accountId, id) :: exists k :: k in e.keys && k.id == x
  {
    hide Lists, Shown, KeysUnder, AccountsOf, ShownKey, Below;
    var shown := Shown(db, secrets);
    var which := KeysUnder(shown, AccountsOf(shown, id));
    KeysShown(db, secrets, id);
    Listed(e.keys, KeyIds(e.keys), shown.keys, which);
    forall x | x in db.keys && Below(db, db.keys[x].accountId, id) ensures exists k :: k in e.keys && k.id == x {
      assert x in which;
      var i :| 0 <= i < |e.keys| && KeyIds(e.keys)[i] == x;
      assert e.keys[i] in e.keys;
    }
    forall k | k in e.keys ensures k.id in which && k == shown.keys[k.id] {
      var i :| 0 <= i < |e.keys| && e.keys[i] == k;
      assert KeyIds(e.keys)[i] == k.id;
    }
  }

  lemma UsersShown(db: Db, secrets: bool, id: Id)
    ensures var shown := Shown(db, secrets);
            && (forall x :: x in UsersUnder(shown, AccountsOf(shown, id))
                            <==> x in db.users && Below(db, db.users[x].accountId, id))
            && shown.users.Keys == db.users.Keys
            && forall x | x in db.users ::
                 shown.users[x] == db.users[x].(seed := if secrets then db.users[x].seed else NoSeed)
  {
    ShownAt(db, secrets, id);
  }

  lemma ExportedUsers(db: Db, secrets: bool, id: Id, e: Export)
    requires IsExport(Shown(db, secrets), id, e)
    ensures forall u | u in e.users ::
              && u.id in db.users && Below(db, db.users[u.id].accountId, id) && u == db.users[u.id].(seed := u.seed)
              && u.seed == if secrets then db.users[u.id].seed else NoSeed
    ensures forall x | x in db.users && Below(db, db.users[x].accountId, id) :: exists u :: u in e.users && u.id == x
  {
    hide Lists, Shown, UsersUnder, AccountsOf, ShownUser, Below;
    var shown := Shown(db, secrets);
    var which := UsersUnder(shown, AccountsOf(shown, id));
    UsersShown(db, secrets, id);
    Listed(e.users, UserIds(e.users), shown.users, which);
    forall x | x in db.users && Below(db, db.users[x].accountId, id) ensures exists u :: u in e.users && u.id == x {
      assert x in which;
      var i :| 0 <= i < |e.users| && UserIds(e.users)[i] == x;
      assert e.users[i] in e.users;
    }
    forall u | u in e.users ensures u.id in which && u == shown.users[u.id] {
      var i :| 0 <= i < |e.users| && e.users[i] == u;
      assert UserIds(e.users)[i] == u.id;
    }
  }

  lemma ExportedClusters(db: Db, secrets: bool, id: Id, e: Export)
    requires IsExport(Shown(db, secrets), id, e)
    ensures forall c | c in e.clusters ::
              && c.id in db.clusters && db.clusters[c.id].operatorId == id
              && c == db.clusters[c.id].(creds := c.creds, skipVerifyTls := false)
              && c.creds == if secrets then db.clusters[c.id].creds else ""
    ensures forall x | x in db.clusters && db.clusters[x].operatorId == id :: exists c :: c in e.clusters && c.id == x
  {
    hide Lists;
    var shown := Shown(db, secrets);
    ShownAt(db, secrets, id);
    Listed(e.clusters, ClusterIds(e.clusters), shown.clusters, ClustersOf(shown, id));
    forall x | x in db.clusters && db.clusters[x].operatorId == id ensures exists c :: c in e.clusters && c.id == x {
      assert x in ClustersOf(shown, id);
      var i :| 0 <= i < |e.clusters| && ClusterIds(e.clusters)[i] == x;
      assert e.clusters[i] in e.clusters;
    }
    forall c | c in e.clusters ensures c.id in ClustersOf(shown, id) && c == shown.clusters[c.id] {
      var i :| 0 <= i < |e.clusters| && e.clusters[i] == c;
      assert ClusterIds(e.clusters)[i] == c.id;
    }
  }

  /** Without secrets no seed and no credentials leave the database, whatever it holds. */
  lemma NoSecretsShown(db: Db, id: Id, e: Export)
    requires IsExport(Shown(db, false), id, e)
    ensures e.operator.seed == NoSeed
    ensures (forall a | a in e.accounts :: a.seed == NoSeed) && (forall k | k in e.keys :: k.seed == NoSeed)
    ensures (forall u | u in e.users :: u.seed == NoSeed) && (forall c | c in e.clusters :: c.creds == "")
  {
    hide IsExport, Shown;
    ExportedOperator(db, false, id, e);
    ExportedAccounts(db, false, id, e);
    ExportedKeys(db, false, id, e);
    ExportedUsers(db, false, id, e);
    ExportedClusters(db, false, id, e);
  }

  /** With secrets every row is the stored one, whether a cluster skips certificate checks apart. */
  lemma AllShown(db: Db, id: Id, e: Export)
    requires IsExport(Shown(db, true), id, e)
    ensures id in db.operators && e.operator == db.operators[id]
    ensures forall a | a in e.accounts :: a.id in db.accounts && a == db.accounts[a.id]
    ensures forall k | k in e.keys :: k.id in db.keys && k == db.keys[k.id]
    ensures forall u | u in e.users :: u.id in db.users && u == db.users[u.id]
    ensures forall c | c in e.clusters :: c.id in db.clusters && c == db.clusters[c.id].(skipVerifyTls := false)
  {
    hide IsExport, Shown;
    ExportedOperator(db, true, id, e);
    ExportedAccounts(db, true, id, e);
    ExportedKeys(db, true, id, e);
    ExportedUsers(db, true, id, e);
    ExportedClusters(db, true, id, e);
  }
}
