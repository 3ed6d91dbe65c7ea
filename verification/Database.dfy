/** The five tables, the constraints the schema puts on them, and what one page of a listing is. */
module Database {
  import opened Entities

  datatype Db = Db(operators: map<Id, Operator>, accounts: map<Id, Account>, keys: map<Id, ScopedKey>,
                   users: map<Id, User>, clusters: map<Id, Cluster>)

  const EMPTY := Db(map[], map[], map[], map[], map[])

  // Foreign keys and unique indexes, row by row. A row fits if storing it under its own id
  // violates no constraint; each predicate takes only the tables its constraints mention.

  predicate FitsOperator(operators: map<Id, Operator>, o: Operator) {
    forall i | i in operators && i != o.id ::
      operators[i].name != o.name && operators[i].publicKey != o.publicKey
  }

  predicate FitsAccount(operatorIds: set<Id>, accounts: map<Id, Account>, a: Account) {
    && a.operatorId in operatorIds
    && forall i | i in accounts && i != a.id ::
      && accounts[i].publicKey != a.publicKey
      && !(accounts[i].operatorId == a.operatorId && accounts[i].name == a.name)
  }

  predicate FitsKey(accountIds: set<Id>, keys: map<Id, ScopedKey>, k: ScopedKey) {
    && k.accountId in accountIds
    && forall i | i in keys && i != k.id ::
      && keys[i].publicKey != k.publicKey
      && !(keys[i].accountId == k.accountId && keys[i].name == k.name)
  }

  predicate FitsUser(accountIds: set<Id>, keyIds: set<Id>, users: map<Id, User>, u: User) {
    && u.accountId in accountIds
    && (u.scopedKeyId.Some? ==> u.scopedKeyId.value in keyIds)
    && forall i | i in users && i != u.id ::
      && users[i].publicKey != u.publicKey
      && !(users[i].accountId == u.accountId && users[i].name == u.name)
  }

  predicate FitsCluster(operatorIds: set<Id>, clusters: map<Id, Cluster>, c: Cluster) {
    && c.operatorId in operatorIds
    && forall i | i in clusters && i != c.id :: clusters[i].name != c.name
  }

  ghost predicate OperatorsFit(operators: map<Id, Operator>) {
    forall i | i in operators :: operators[i].id == i && FitsOperator(operators, operators[i])
  }

  ghost predicate AccountsFit(operatorIds: set<Id>, accounts: map<Id, Account>) {
    forall i | i in accounts :: accounts[i].id == i && FitsAccount(operatorIds, accounts, accounts[i])
  }

  ghost predicate KeysFit(accountIds: set<Id>, keys: map<Id, ScopedKey>) {
    forall i | i in keys :: keys[i].id == i && FitsKey(accountIds, keys, keys[i])
  }

  ghost predicate UsersFit(accountIds: set<Id>, keyIds: set<Id>, users: map<Id, User>) {
    forall i | i in users :: users[i].id == i && FitsUser(accountIds, keyIds, users, users[i])
  }

  ghost predicate ClustersFit(operatorIds: set<Id>, clusters: map<Id, Cluster>) {
    forall i | i in clusters :: clusters[i].id == i && FitsCluster(operatorIds, clusters, clusters[i])
  }

  /** Every row sits under its own id and violates no constraint. */
  ghost predicate Schema(db: Db) {
    && OperatorsFit(db.operators)
    && AccountsFit(db.operators.Keys, db.accounts)
    && KeysFit(db.accounts.Keys, db.keys)
    && UsersFit(db.accounts.Keys, db.keys.Keys, db.users)
    && ClustersFit(db.operators.Keys, db.clusters)
  }

  predicate Drawn(id: Id, k: PubKey, next: nat) {
    id < next && (k.Key? ==> k.n < next)
  }

  /** Ids and key pairs come from one supply: whatever the store holds was drawn before `next`, so
      the next draw collides with nothing. */
  ghost predicate Supplied(db: Db, next: nat) {
    && (forall i | i in db.operators :: Drawn(i, db.operators[i].publicKey, next))
    && (forall i | i in db.accounts :: Drawn(i, db.accounts[i].publicKey, next))
    && (forall i | i in db.keys :: Drawn(i, db.keys[i].publicKey, next))
    && (forall i | i in db.users :: Drawn(i, db.users[i].publicKey, next))
    && (forall i | i in db.clusters :: i < next)
  }

  ghost predicate Sound(db: Db, next: nat) {
    Schema(db) && Supplied(db, next)
  }

  function AccountsOf(db: Db, operatorId: Id): set<Id> {
    set i | i in db.accounts && db.accounts[i].operatorId == operatorId
  }

  function KeysOf(keys: map<Id, ScopedKey>, accountId: Id): set<Id> {
    set i | i in keys && keys[i].accountId == accountId
  }

  function UsersOf(db: Db, accountId: Id): set<Id> {
    set i | i in db.users && db.users[i].accountId == accountId
  }

  function ClustersOf(db: Db, operatorId: Id): set<Id> {
    set i | i in db.clusters && db.clusters[i].operatorId == operatorId
  }

  // Deletion. The schema cascades from operators to accounts to keys and users, and sets a user's
  // signing key to NULL when that key goes.

  function Unlink(u: User, keys: set<Id>): User {
    if u.scopedKeyId.Some? && u.scopedKeyId.value !in keys then u.(scopedKeyId := None) else u
  }

  lemma UnlinkTwice(u: User, keys: set<Id>, fewer: set<Id>)
    requires fewer <= keys
    ensures Unlink(Unlink(u, keys), fewer) == Unlink(u, fewer) && Unlink(u, keys).accountId == u.accountId
  {
  }

  /** The database with only the accounts `accts`, the keys `ks` and the users `us` left. */
  function Keep(db: Db, accts: set<Id>, ks: set<Id>, us: set<Id>): Db {
    db.(accounts := map i | i in db.accounts && i in accts :: db.accounts[i],
        keys := map i | i in db.keys && i in ks :: db.keys[i],
        users := map i | i in db.users && i in us :: Unlink(db.users[i], db.keys.Keys * ks))
  }

  /** `accts` with everything that hangs below them, less the users outside `us`. */
  function KeepBelow(db: Db, accts: set<Id>, us: set<Id>): Db {
    Keep(db, accts,
         set i | i in db.keys && db.keys[i].accountId in accts,
         set i | i in db.users && db.users[i].accountId in accts && i in us)
  }

  function WithoutAccount(db: Db, id: Id): Db {
    KeepBelow(db, db.accounts.Keys - {id}, db.users.Keys)
  }

  function WithoutKey(db: Db, id: Id): Db {
    Keep(db, db.accounts.Keys, db.keys.Keys - {id}, db.users.Keys)
  }

  function WithoutUser(db: Db, id: Id): Db {
    Keep(db, db.accounts.Keys, db.keys.Keys, db.users.Keys - {id})
  }

  function WithoutCluster(db: Db, id: Id): Db {
    db.(clusters := map i | i in db.clusters && i != id :: db.clusters[i])
  }

  function WithoutOperator(db: Db, id: Id): Db {
    KeepBelow(db, db.accounts.Keys - AccountsOf(db, id), db.users.Keys).(operators := db.operators - {id})
  }

  // Listings. `created` maps the listed rows to their creation times.

  function PageSize(n: nat, limit: nat): nat {
    if limit == 0 || n < limit then n else limit
  }

  /** `ids` is a page of the newest `limit` rows (all rows when `limit` is 0), newest first; rows
      created at the same instant come in any order. */
  ghost predicate IsPage(created: map<Id, int>, limit: nat, ids: seq<Id>) {
    && |ids| == PageSize(|created|, limit)
    && (forall i | 0 <= i < |ids| :: ids[i] in created)
    && (forall i, j | 0 <= i < j < |ids| :: ids[i] != ids[j] && created[ids[i]] >= created[ids[j]])
    && (forall i, x | 0 <= i < |ids| && x in created && x !in ids :: created[ids[i]] >= created[x])
  }

  function AccountTimes(db: Db, operatorId: Id): map<Id, int> {
    map i | i in AccountsOf(db, operatorId) :: db.accounts[i].createdAt
  }

  function KeyTimes(db: Db, accountId: Id): map<Id, int> {
    map i | i in KeysOf(db.keys, accountId) :: db.keys[i].createdAt
  }

  function UserTimes(db: Db, accountId: Id): map<Id, int> {
    map i | i in UsersOf(db, accountId) :: db.users[i].createdAt
  }

  function ClusterTimes(db: Db, operatorId: Id): map<Id, int> {
    map i | i in ClustersOf(db, operatorId) :: db.clusters[i].createdAt
  }

  /** The rows are those of `table` under the ids of one page. */
  ghost predicate IsListing<T(!new)>(table: map<Id, T>, created: map<Id, int>, limit: nat, rows: seq<T>, ids: seq<Id>) {
    && IsPage(created, limit, ids)
    && created.Keys <= table.Keys
    && |rows| == |ids|
    && forall i | 0 <= i < |rows| :: rows[i] == table[ids[i]]
  }

  lemma SubsetSize<T>(a: set<T>, b: set<T>)
    requires a <= b
    ensures |a| <= |b| && (|a| == |b| <==> a == b)
  {
    assert b == a + (b - a);
  }

  function Elements(ids: seq<Id>): set<Id> {
    set x | x in ids
  }

  lemma {:induction false} DistinctSize(ids: seq<Id>)
    requires forall i, j | 0 <= i < j < |ids| :: ids[i] != ids[j]
    ensures |Elements(ids)| == |ids|
  {
    if ids == [] {
      assert Elements(ids) == {};
    } else {
      var front, last := ids[..|ids| - 1], ids[|ids| - 1];
      DistinctSize(front);
      assert last !in Elements(front);
      assert ids == front + [last];
      assert Elements(ids) == Elements(front) + {last};
    }
  }

  /** With no limit, a page is the whole listing. */
  lemma PageHasAll(created: map<Id, int>, ids: seq<Id>)
    requires IsPage(created, 0, ids)
    ensures Elements(ids) == created.Keys
  {
    DistinctSize(ids);
    SubsetSize(Elements(ids), created.Keys);
    assert |created.Keys| == |created|;
  }

  // Entity to row conversions that change a value.

  const SECOND := 1_000_000_000

  /** A response TTL is stored in whole seconds; Go's conversion truncates toward zero. */
  function WholeSeconds(ns: int): int {
    if ns >= 0 then ns / SECOND * SECOND else -((-ns) / SECOND * SECOND)
  }

  function KeyRow(k: ScopedKey): ScopedKey {
    k.(responseTtl := WholeSeconds(k.responseTtl))
  }

  function Limit(n: int): int {
    if n == 0 then -1 else n
  }

  /** Inserting an account stores the column default -1 for each JetStream maximum that is 0. */
  function AccountRow(a: Account): Account {
    a.(jetStream := JetStream(Limit(a.jetStream.maxMemory), Limit(a.jetStream.maxStorage),
                              Limit(a.jetStream.maxStreams), Limit(a.jetStream.maxConsumers)))
  }

  // Lemmas about deletion.

  /** `KeepBelow`, row by row. */
  lemma BelowRows(db: Db, accts: set<Id>, us: set<Id>)
    ensures var d := KeepBelow(db, accts, us);
            && d.operators == db.operators && d.clusters == db.clusters
            && (forall a :: a in d.accounts <==> a in db.accounts && a in accts)
            && (forall a | a in d.accounts :: d.accounts[a] == db.accounts[a])
            && (forall k :: k in d.keys <==> k in db.keys && db.keys[k].accountId in accts)
            && (forall k | k in d.keys :: d.keys[k] == db.keys[k])
            && (forall u :: u in d.users <==> u in db.users && db.users[u].accountId in accts && u in us)
            && (forall u | u in d.users :: d.users[u] == Unlink(db.users[u], d.keys.Keys))
  {
    var d := KeepBelow(db, accts, us);
    assert d.keys.Keys == db.keys.Keys * (set i | i in db.keys && db.keys[i].accountId in accts);
  }

  lemma KeptAccountsFit(db: Db, operatorIds: set<Id>, accts: set<Id>)
    requires AccountsFit(db.operators.Keys, db.accounts)
    requires forall i | i in db.accounts && i in accts :: db.accounts[i].operatorId in operatorIds
    ensures AccountsFit(operatorIds, Keep(db, accts, {}, {}).accounts)
  {
  }

  lemma KeptKeysFit(db: Db, accts: set<Id>, ks: set<Id>)
    requires KeysFit(db.accounts.Keys, db.keys)
    requires forall i | i in db.keys && i in ks :: db.keys[i].accountId in accts
    ensures KeysFit(db.accounts.Keys * accts, Keep(db, accts, ks, {}).keys)
  {
  }

  lemma KeptUsersFit(db: Db, accts: set<Id>, ks: set<Id>, us: set<Id>)
    requires UsersFit(db.accounts.Keys, db.keys.Keys, db.users)
    requires forall i | i in db.users && i in us :: db.users[i].accountId in accts
    ensures UsersFit(db.accounts.Keys * accts, db.keys.Keys * ks, Keep(db, accts, ks, us).users)
  {
  }

  lemma KeepFits(db: Db, accts: set<Id>, ks: set<Id>, us: set<Id>)
    requires Schema(db)
    requires forall i | i in db.keys && i in ks :: db.keys[i].accountId in accts
    requires forall i | i in db.users && i in us :: db.users[i].accountId in accts
    ensures Schema(Keep(db, accts, ks, us))
  {
    var d := Keep(db, accts, ks, us);
    assert d.accounts.Keys == db.accounts.Keys * accts;
    assert d.keys.Keys == db.keys.Keys * ks;
    KeptAccountsFit(db, db.operators.Keys, accts);
    KeptKeysFit(db, accts, ks);
    KeptUsersFit(db, accts, ks, us);
  }

  lemma KeepBelowFits(db: Db, accts: set<Id>, us: set<Id>)
    requires Schema(db)
    ensures Schema(KeepBelow(db, accts, us))
  {
    KeepFits(db, accts, set i | i in db.keys && db.keys[i].accountId in accts,
             set i | i in db.users && db.users[i].accountId in accts && i in us);
  }

  lemma WithoutRowFits(db: Db, ks: set<Id>, us: set<Id>)
    requires Schema(db)
    ensures Schema(Keep(db, db.accounts.Keys, ks, us))
  {
    forall i | i in db.keys ensures db.keys[i].accountId in db.accounts {
      assert FitsKey(db.accounts.Keys, db.keys, db.keys[i]);
    }
    forall i | i in db.users ensures db.users[i].accountId in db.accounts {
      assert FitsUser(db.accounts.Keys, db.keys.Keys, db.users, db.users[i]);
    }
    KeepFits(db, db.accounts.Keys, ks, us);
  }

  /** Keeping some of the rows keeps them drawn. */
  lemma KeepSupplied(db: Db, next: nat, d: Db)
    requires Supplied(db, next)
    requires d.operators == db.operators && d.clusters == db.clusters
    requires d.accounts.Items <= db.accounts.Items && d.keys.Items <= db.keys.Items
    requires forall i | i in d.users :: i in db.users && d.users[i].publicKey == db.users[i].publicKey
    ensures Supplied(d, next)
  {
    forall i | i in d.accounts ensures Drawn(i, d.accounts[i].publicKey, next) {
      assert (i, d.accounts[i]) in d.accounts.Items;
    }
    forall i | i in d.keys ensures Drawn(i, d.keys[i].publicKey, next) {
      assert (i, d.keys[i]) in d.keys.Items;
    }
  }

  lemma FitBelowMoreOperators(db: Db, operatorIds: set<Id>)
    requires Schema(db) && db.operators.Keys <= operatorIds
    ensures AccountsFit(operatorIds, db.accounts) && ClustersFit(operatorIds, db.clusters)
  {
  }

  lemma KeysFitMoreAccounts(db: Db, accountIds: set<Id>)
    requires Schema(db) && db.accounts.Keys <= accountIds
    ensures KeysFit(accountIds, db.keys)
  {
  }

  lemma UsersFitMore(db: Db, accountIds: set<Id>, keyIds: set<Id>)
    requires Schema(db) && db.accounts.Keys <= accountIds && db.keys.Keys <= keyIds
    ensures UsersFit(accountIds, keyIds, db.users)
  {
  }

  // Storing a row that fits keeps the database sound.

  lemma PutOperator(db: Db, next: nat, o: Operator)
    requires Sound(db, next) && FitsOperator(db.operators, o) && Drawn(o.id, o.publicKey, next)
    ensures Sound(db.(operators := db.operators[o.id := o]), next)
  {
    var rows := db.operators[o.id := o];
    forall i | i in rows && i != o.id ensures FitsOperator(rows, rows[i]) {
      assert FitsOperator(db.operators, db.operators[i]);
    }
    assert OperatorsFit(rows);
    var d := db.(operators := rows);
    FitBelowMoreOperators(db, d.operators.Keys);
  }

  lemma PutAccount(db: Db, next: nat, a: Account)
    requires Sound(db, next) && FitsAccount(db.operators.Keys, db.accounts, a) && Drawn(a.id, a.publicKey, next)
    ensures Sound(db.(accounts := db.accounts[a.id := a]), next)
  {
    var rows := db.accounts[a.id := a];
    forall i | i in rows && i != a.id ensures FitsAccount(db.operators.Keys, rows, rows[i]) {
      assert FitsAccount(db.operators.Keys, db.accounts, db.accounts[i]);
    }
    assert AccountsFit(db.operators.Keys, rows);
    var d := db.(accounts := rows);
    KeysFitMoreAccounts(db, d.accounts.Keys);
    UsersFitMore(db, d.accounts.Keys, db.keys.Keys);
  }

  lemma PutKey(db: Db, next: nat, k: ScopedKey)
    requires Sound(db, next) && FitsKey(db.accounts.Keys, db.keys, k) && Drawn(k.id, k.publicKey, next)
    ensures Sound(db.(keys := db.keys[k.id := k]), next)
  {
    var rows := db.keys[k.id := k];
    forall i | i in rows && i != k.id ensures FitsKey(db.accounts.Keys, rows, rows[i]) {
      assert FitsKey(db.accounts.Keys, db.keys, db.keys[i]);
    }
    assert KeysFit(db.accounts.Keys, rows);
    var d := db.(keys := rows);
    UsersFitMore(db, db.accounts.Keys, d.keys.Keys);
  }

  lemma PutUser(db: Db, next: nat, u: User)
    requires Sound(db, next) && FitsUser(db.accounts.Keys, db.keys.Keys, db.users, u) && Drawn(u.id, u.publicKey, next)
    ensures Sound(db.(users := db.users[u.id := u]), next)
  {
    var rows := db.users[u.id := u];
    forall i | i in rows && i != u.id ensures FitsUser(db.accounts.Keys, db.keys.Keys, rows, rows[i]) {
      assert FitsUser(db.accounts.Keys, db.keys.Keys, db.users, db.users[i]);
    }
    assert UsersFit(db.accounts.Keys, db.keys.Keys, rows);
    var d := db.(users := rows);
  }

  lemma PutCluster(db: Db, next: nat, c: Cluster)
    requires Sound(db, next) && FitsCluster(db.operators.Keys, db.clusters, c) && c.id < next
    ensures Sound(db.(clusters := db.clusters[c.id := c]), next)
  {
    var rows := db.clusters[c.id := c];
    forall i | i in rows && i != c.id ensures FitsCluster(db.operators.Keys, rows, rows[i]) {
      assert FitsCluster(db.operators.Keys, db.clusters, db.clusters[i]);
    }
    assert ClustersFit(db.operators.Keys, rows);
    var d := db.(clusters := rows);
  }

  lemma WithoutClusterFits(db: Db, next: nat, id: Id)
    requires Sound(db, next)
    ensures Sound(WithoutCluster(db, id), next)
  {
    var d := WithoutCluster(db, id);
    assert ClustersFit(db.operators.Keys, d.clusters);
  }

  lemma WithoutOperatorFits(db: Db, id: Id)
    requires Schema(db) && ClustersOf(db, id) == {}
    ensures Schema(WithoutOperator(db, id))
  {
    var kept := db.accounts.Keys - AccountsOf(db, id);
    KeepFits(db, kept, set i | i in db.keys && db.keys[i].accountId in kept,
             set i | i in db.users && db.users[i].accountId in kept && i in db.users.Keys);
    var d := WithoutOperator(db, id);
    assert d.operators.Keys == db.operators.Keys - {id};
    KeptAccountsFit(db, d.operators.Keys, kept);
    forall i | i in db.clusters ensures db.clusters[i].operatorId in d.operators {
      assert FitsCluster(db.operators.Keys, db.clusters, db.clusters[i]) && i !in ClustersOf(db, id);
    }
    assert ClustersFit(d.operators.Keys, d.clusters);
  }

  // Deleting a row keeps the database sound.

  lemma WithoutOperatorSound(db: Db, next: nat, id: Id)
    requires Sound(db, next) && ClustersOf(db, id) == {}
    ensures Sound(WithoutOperator(db, id), next)
  {
    hide OperatorsFit, AccountsFit, KeysFit, UsersFit, ClustersFit;
    WithoutOperatorFits(db, id);
  }

  lemma WithoutAccountSound(db: Db, next: nat, id: Id)
    requires Sound(db, next)
    ensures Sound(WithoutAccount(db, id), next)
  {
    hide OperatorsFit, AccountsFit, KeysFit, UsersFit, ClustersFit;
    KeepBelowFits(db, db.accounts.Keys - {id}, db.users.Keys);
    KeepSupplied(db, next, WithoutAccount(db, id));
  }

  lemma WithoutKeySound(db: Db, next: nat, id: Id)
    requires Sound(db, next)
    ensures Sound(WithoutKey(db, id), next)
  {
    hide OperatorsFit, AccountsFit, KeysFit, UsersFit, ClustersFit, Supplied;
    WithoutRowFits(db, db.keys.Keys - {id}, db.users.Keys);
    KeepSupplied(db, next, WithoutKey(db, id));
  }

  lemma WithoutUserSound(db: Db, next: nat, id: Id)
    requires Sound(db, next)
    ensures Sound(WithoutUser(db, id), next)
  {
    hide OperatorsFit, AccountsFit, KeysFit, UsersFit, ClustersFit, Supplied;
    WithoutRowFits(db, db.keys.Keys, db.users.Keys - {id});
    KeepSupplied(db, next, WithoutUser(db, id));
  }
}
