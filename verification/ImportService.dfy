/** Importing an export, under its own ids or under new ones. */
module ImportService {
  import opened Entities
  import opened Database
  import opened Repositories
  import opened Transitions
  import opened ExportService

  /** The table after storing the rows one by one, each under its id. */
  function Stored<T>(table: map<Id, T>, ids: seq<Id>, rows: seq<T>): map<Id, T>
    requires |ids| == |rows|
  {
    if ids == [] then table
    else Stored(table, ids[..|ids| - 1], rows[..|rows| - 1])[ids[|ids| - 1] := rows[|rows| - 1]]
  }

  lemma StoredNext<T>(table: map<Id, T>, ids: seq<Id>, rows: seq<T>, i: nat)
    requires |ids| == |rows| && i < |ids|
    ensures Stored(table, ids[..i + 1], rows[..i + 1]) == Stored(table, ids[..i], rows[..i])[ids[i] := rows[i]]
  {
    assert ids[..i + 1][..i] == ids[..i] && rows[..i + 1][..i] == rows[..i];
  }

  // The ids the rows are imported under. New ids are drawn in the order of the import, from `n` on.

  function OperatorTarget(e: Export, n: nat, regenerate: bool): Id {
    if regenerate then n else e.operator.id
  }

  function AccountTargets(e: Export, n: nat, regenerate: bool): seq<Id> {
    seq(|e.accounts|, i requires 0 <= i < |e.accounts| => if regenerate then n + 1 + i else e.accounts[i].id)
  }

  function KeyTargets(e: Export, n: nat, regenerate: bool): seq<Id> {
    seq(|e.keys|, i requires 0 <= i < |e.keys| => if regenerate then n + 1 + |e.accounts| + i else e.keys[i].id)
  }

  function UserTargets(e: Export, n: nat, regenerate: bool): seq<Id> {
    seq(|e.users|, i requires 0 <= i < |e.users| =>
        if regenerate then n + 1 + |e.accounts| + |e.keys| + i else e.users[i].id)
  }

  function ClusterTargets(e: Export, n: nat, regenerate: bool): seq<Id> {
    seq(|e.clusters|, i requires 0 <= i < |e.clusters| =>
        if regenerate then n + 1 + |e.accounts| + |e.keys| + |e.users| + i else e.clusters[i].id)
  }

  /** The ids that are renamed, in the order of the import. Cluster ids are not: nothing refers to them. */
  function Sources(e: Export): seq<Id> {
    [e.operator.id] + AccountIds(e.accounts) + KeyIds(e.keys) + UserIds(e.users)
  }

  function NewIds(n: nat, q: nat): seq<Id> {
    seq(q, i requires 0 <= i < q => n + i)
  }

  /** The renaming after `q` rows. One map serves all kinds of rows. */
  function IdMapAt(e: Export, n: nat, q: nat): map<Id, Id>
    requires q <= |Sources(e)|
  {
    Stored(map[], Sources(e)[..q], NewIds(n, q))
  }

  function Renamed(idMap: map<Id, Id>, id: Id): Id {
    if id in idMap then idMap[id] else id
  }

  lemma IdMapNext(e: Export, n: nat, q: nat)
    requires q < |Sources(e)|
    ensures IdMapAt(e, n, q + 1) == IdMapAt(e, n, q)[Sources(e)[q] := n + q]
  {
    var targets := NewIds(n, |Sources(e)|);
    StoredNext(map[], Sources(e), targets, q);
    assert targets[..q] == NewIds(n, q) && targets[..q + 1] == NewIds(n, q + 1);
  }

  // The rows that are stored.

  function OperatorCopy(e: Export, n: nat, regenerate: bool): Operator {
    e.operator.(id := OperatorTarget(e, n, regenerate))
  }

  function AccountCopy(e: Export, n: nat, regenerate: bool, i: nat): Account
    requires i < |e.accounts|
  {
    e.accounts[i].(id := AccountTargets(e, n, regenerate)[i], operatorId := OperatorTarget(e, n, regenerate))
  }

  /** A key or a user is renamed itself before its references are looked up. */
  function KeyCopy(e: Export, n: nat, regenerate: bool, i: nat): ScopedKey
    requires i < |e.keys|
  {
    var k := e.keys[i];
    k.(id := KeyTargets(e, n, regenerate)[i],
       accountId := if regenerate then Renamed(IdMapAt(e, n, 2 + |e.accounts| + i), k.accountId) else k.accountId)
  }

  function UserCopy(e: Export, n: nat, regenerate: bool, i: nat): User
    requires i < |e.users|
  {
    var u := e.users[i];
    if !regenerate then u
    else
      var idMap := IdMapAt(e, n, 2 + |e.accounts| + |e.keys| + i);
      u.(id := UserTargets(e, n, true)[i], accountId := Renamed(idMap, u.accountId),
         scopedKeyId := if u.scopedKeyId.Some? && u.scopedKeyId.value in idMap
                        then Some(idMap[u.scopedKeyId.value]) else None)
  }

  function ClusterCopy(e: Export, n: nat, regenerate: bool, i: nat): Cluster
    requires i < |e.clusters|
  {
    e.clusters[i].(id := ClusterTargets(e, n, regenerate)[i], operatorId := OperatorTarget(e, n, regenerate),
                   skipVerifyTls := false)
  }

  function AccountRows(e: Export, n: nat, regenerate: bool): seq<Account> {
    seq(|e.accounts|, i requires 0 <= i < |e.accounts| => AccountRow(AccountCopy(e, n, regenerate, i)))
  }

  function KeyRows(e: Export, n: nat, regenerate: bool): seq<ScopedKey> {
    seq(|e.keys|, i requires 0 <= i < |e.keys| => KeyRow(KeyCopy(e, n, regenerate, i)))
  }

  function UserRows(e: Export, n: nat, regenerate: bool): seq<User> {
    seq(|e.users|, i requires 0 <= i < |e.users| => UserCopy(e, n, regenerate, i))
  }

  function ClusterRows(e: Export, n: nat, regenerate: bool): seq<Cluster> {
    seq(|e.clusters|, i requires 0 <= i < |e.clusters| => ClusterCopy(e, n, regenerate, i))
  }

  /** How many rows of each kind have been stored. */
  datatype Progress = Progress(operators: nat, accounts: nat, keys: nat, users: nat, clusters: nat)

  /** The kinds are imported one after the other. */
  predicate InOrder(e: Export, g: Progress) {
    && g.operators <= 1 && g.accounts <= |e.accounts| && g.keys <= |e.keys| && g.users <= |e.users|
        && g.clusters <= |e.clusters|
    && (g.accounts > 0 ==> g.operators == 1)
    && (g.keys > 0 ==> g.operators == 1 && g.accounts == |e.accounts|)
    && (g.users > 0 ==> g.operators == 1 && g.accounts == |e.accounts| && g.keys == |e.keys|)
    && (g.clusters > 0 ==> g.operators == 1 && g.accounts == |e.accounts| && g.keys == |e.keys| && g.users == |e.users|)
  }

  function Everything(e: Export): (g: Progress)
    ensures InOrder(e, g)
  {
    Progress(1, |e.accounts|, |e.keys|, |e.users|, |e.clusters|)
  }

  function After(db: Db, e: Export, n: nat, regenerate: bool, g: Progress): Db
    requires InOrder(e, g)
  {
    Db(if g.operators == 0 then db.operators
       else db.operators[OperatorTarget(e, n, regenerate) := OperatorCopy(e, n, regenerate)],
       Stored(db.accounts, AccountTargets(e, n, regenerate)[..g.accounts], AccountRows(e, n, regenerate)[..g.accounts]),
       Stored(db.keys, KeyTargets(e, n, regenerate)[..g.keys], KeyRows(e, n, regenerate)[..g.keys]),
       Stored(db.users, UserTargets(e, n, regenerate)[..g.users], UserRows(e, n, regenerate)[..g.users]),
       Stored(db.clusters, ClusterTargets(e, n, regenerate)[..g.clusters], ClusterRows(e, n, regenerate)[..g.clusters]))
  }

  // When one more row can be stored.

  predicate OperatorFits(db: Db, e: Export, n: nat, regenerate: bool) {
    var o := OperatorCopy(e, n, regenerate);
    o.id !in db.operators && FitsOperator(db.operators, o)
  }

  function AccountsIn(e: Export, i: nat): Progress { Progress(1, i, 0, 0, 0) }
  function KeysIn(e: Export, i: nat): Progress { Progress(1, |e.accounts|, i, 0, 0) }
  function UsersIn(e: Export, i: nat): Progress { Progress(1, |e.accounts|, |e.keys|, i, 0) }
  function ClustersIn(e: Export, i: nat): Progress { Progress(1, |e.accounts|, |e.keys|, |e.users|, i) }

  predicate AccountFits(db: Db, e: Export, n: nat, regenerate: bool, i: nat)
    requires i < |e.accounts|
  {
    var d, a := After(db, e, n, regenerate, AccountsIn(e, i)), AccountRow(AccountCopy(e, n, regenerate, i));
    a.id !in d.accounts && FitsAccount(d.operators.Keys, d.accounts, a)
  }

  predicate KeyFits(db: Db, e: Export, n: nat, regenerate: bool, i: nat)
    requires i < |e.keys|
  {
    var d, k := After(db, e, n, regenerate, KeysIn(e, i)), KeyRow(KeyCopy(e, n, regenerate, i));
    k.id !in d.keys && FitsKey(d.accounts.Keys, d.keys, k)
  }

  predicate UserFits(db: Db, e: Export, n: nat, regenerate: bool, i: nat)
    requires i < |e.users|
  {
    var d, u := After(db, e, n, regenerate, UsersIn(e, i)), UserCopy(e, n, regenerate, i);
    u.id !in d.users && FitsUser(d.accounts.Keys, d.keys.Keys, d.users, u)
  }

  predicate ClusterFits(db: Db, e: Export, n: nat, regenerate: bool, i: nat)
    requires i < |e.clusters|
  {
    var d, c := After(db, e, n, regenerate, ClustersIn(e, i)), ClusterCopy(e, n, regenerate, i);
    c.id !in d.clusters && FitsCluster(d.operators.Keys, d.clusters, c)
  }

  /** Every row up to this progress could be stored when its turn came. */
  ghost predicate Fitted(db: Db, e: Export, n: nat, regenerate: bool, g: Progress)
    requires InOrder(e, g)
  {
    && (g.operators > 0 ==> OperatorFits(db, e, n, regenerate))
    && (forall i | 0 <= i < g.accounts :: AccountFits(db, e, n, regenerate, i))
    && (forall i | 0 <= i < g.keys :: KeyFits(db, e, n, regenerate, i))
    && (forall i | 0 <= i < g.users :: UserFits(db, e, n, regenerate, i))
    && forall i | 0 <= i < g.clusters :: ClusterFits(db, e, n, regenerate, i)
  }

  ghost predicate Importable(db: Db, e: Export, n: nat, regenerate: bool) {
    e.version == VERSION && !OperatorTaken(db, e.operator.name) && Fitted(db, e, n, regenerate, Everything(e))
  }

  // A file may come from another installation, so it need not mention only what this store has drawn;
  // the draws that follow avoid whatever it mentions.

  ghost predicate Mentioned(e: Export, next: nat) {
    && Drawn(e.operator.id, e.operator.publicKey, next)
    && (forall i | 0 <= i < |e.accounts| :: Drawn(e.accounts[i].id, e.accounts[i].publicKey, next))
    && (forall i | 0 <= i < |e.keys| :: Drawn(e.keys[i].id, e.keys[i].publicKey, next))
    && (forall i | 0 <= i < |e.users| :: UserDrawn(e.users[i], next))
    && forall i | 0 <= i < |e.clusters| :: e.clusters[i].id < next
  }

  /** A user's JWT also mentions the key pair that signed it. */
  predicate UserDrawn(u: User, next: nat) {
    Drawn(u.id, u.publicKey, next) && (u.jwt.UserJwt? ==> Drawn(u.id, u.jwt.issuer, next))
  }

  function Above(id: Id, k: PubKey, bound: nat): (r: nat)
    ensures r >= bound && Drawn(id, k, r)
  {
    var m := if id >= bound then id + 1 else bound;
    if k.Key? && k.n >= m then k.n + 1 else m
  }

  function AboveAccounts(rows: seq<Account>, bound: nat): (r: nat)
    ensures r >= bound && forall i | 0 <= i < |rows| :: Drawn(rows[i].id, rows[i].publicKey, r)
  {
    if rows == [] then bound
    else Above(rows[|rows| - 1].id, rows[|rows| - 1].publicKey, AboveAccounts(rows[..|rows| - 1], bound))
  }

  function AboveKeys(rows: seq<ScopedKey>, bound: nat): (r: nat)
    ensures r >= bound && forall i | 0 <= i < |rows| :: Drawn(rows[i].id, rows[i].publicKey, r)
  {
    if rows == [] then bound
    else Above(rows[|rows| - 1].id, rows[|rows| - 1].publicKey, AboveKeys(rows[..|rows| - 1], bound))
  }

  function AboveUsers(rows: seq<User>, bound: nat): (r: nat)
    ensures r >= bound && forall i | 0 <= i < |rows| :: UserDrawn(rows[i], r)
  {
    if rows == [] then bound
    else
      var u := rows[|rows| - 1];
      var r := Above(u.id, u.publicKey, AboveUsers(rows[..|rows| - 1], bound));
      if u.jwt.UserJwt? then Above(u.id, u.jwt.issuer, r) else r
  }

  function AboveClusters(rows: seq<Cluster>, bound: nat): (r: nat)
    ensures r >= bound && forall i | 0 <= i < |rows| :: rows[i].id < r
  {
    if rows == [] then bound
    else Above(rows[|rows| - 1].id, NoKey, AboveClusters(rows[..|rows| - 1], bound))
  }

  /** The first number that an import draws: above what the store has drawn and what the file mentions. */
  function Start(e: Export, next: nat): (n: nat)
    ensures n >= next && Mentioned(e, n)
  {
    var a := AboveAccounts(e.accounts, Above(e.operator.id, e.operator.publicKey, next));
    AboveClusters(e.clusters, AboveUsers(e.users, AboveKeys(e.keys, a)))
  }

  // One more row, as a step from one progress to the next.

  lemma NextAccount(db: Db, e: Export, n: nat, regenerate: bool, i: nat)
    requires i < |e.accounts|
    ensures var a := AccountRow(AccountCopy(e, n, regenerate, i)); var d := After(db, e, n, regenerate,
            AccountsIn(e, i));
            After(db, e, n, regenerate, AccountsIn(e, i + 1)) == d.(accounts := d.accounts[a.id := a])
  {
    StoredNext(db.accounts, AccountTargets(e, n, regenerate), AccountRows(e, n, regenerate), i);
  }

  lemma NextKey(db: Db, e: Export, n: nat, regenerate: bool, i: nat)
    requires i < |e.keys|
    ensures var k := KeyRow(KeyCopy(e, n, regenerate, i)); var d := After(db, e, n, regenerate, KeysIn(e, i));
            After(db, e, n, regenerate, KeysIn(e, i + 1)) == d.(keys := d.keys[k.id := k])
  {
    StoredNext(db.keys, KeyTargets(e, n, regenerate), KeyRows(e, n, regenerate), i);
  }

  lemma NextUser(db: Db, e: Export, n: nat, regenerate: bool, i: nat)
    requires i < |e.users|
    ensures var u := UserCopy(e, n, regenerate, i); var d := After(db, e, n, regenerate, UsersIn(e, i));
            After(db, e, n, regenerate, UsersIn(e, i + 1)) == d.(users := d.users[u.id := u])
  {
    StoredNext(db.users, UserTargets(e, n, regenerate), UserRows(e, n, regenerate), i);
  }

  lemma NextCluster(db: Db, e: Export, n: nat, regenerate: bool, i: nat)
    requires i < |e.clusters|
    ensures var c := ClusterCopy(e, n, regenerate, i); var d := After(db, e, n, regenerate, ClustersIn(e, i));
            After(db, e, n, regenerate, ClustersIn(e, i + 1)) == d.(clusters := d.clusters[c.id := c])
  {
    StoredNext(db.clusters, ClusterTargets(e, n, regenerate), ClusterRows(e, n, regenerate), i);
  }

  /** Where the import of a file stands: `q` ids are renamed and `g` rows stored. */
  ghost predicate At(store: Store, db: Db, e: Export, n: nat, regenerate: bool, g: Progress, idMap: map<Id, Id>, q: nat)
    reads store
  {
    && store.Valid() && Mentioned(e, store.next) && InOrder(e, g) && store.db == After(db, e, n, regenerate, g)
    && Fitted(db, e, n, regenerate, g) && store.next >= n
    && (regenerate ==> store.next == n + q && q <= |Sources(e)| && idMap == IdMapAt(e, n, q))
  }

  /** A failed import leaves the rows of some incomplete progress, each of which fitted; the next one may
      have been refused, or a call failed. */
  ghost predicate Stopped(store: Store, db: Db, e: Export, n: nat, regenerate: bool)
    reads store
  {
    && store.Valid() && Mentioned(e, store.next) && store.next >= n
    && Partly(store.db, db, e, n, regenerate)
  }

  ghost predicate Partly(d: Db, db: Db, e: Export, n: nat, regenerate: bool) {
    exists g | InOrder(e, g) && g != Everything(e) && Fitted(db, e, n, regenerate, g) ::
      d == After(db, e, n, regenerate, g)
  }

  // What the constraints say of the row as the entity has it.

  lemma AccountFitsIff(db: Db, e: Export, n: nat, regenerate: bool, i: nat)
    requires i < |e.accounts|
    ensures var d, a := After(db, e, n, regenerate, AccountsIn(e, i)), AccountCopy(e, n, regenerate, i);
            AccountFits(db, e, n, regenerate, i) <==>
                  a.id !in d.accounts && FitsAccount(d.operators.Keys, d.accounts, a)
  {
  }

  lemma KeyFitsIff(db: Db, e: Export, n: nat, regenerate: bool, i: nat)
    requires i < |e.keys|
    ensures KeyRow(KeyCopy(e, n, regenerate, i)).id == KeyCopy(e, n, regenerate, i).id
    ensures var d, k := After(db, e, n, regenerate, KeysIn(e, i)), KeyCopy(e, n, regenerate, i);
            KeyFits(db, e, n, regenerate, i) <==> k.id !in d.keys && FitsKey(d.accounts.Keys, d.keys, k)
  {
  }

  lemma UserFitsIff(db: Db, e: Export, n: nat, regenerate: bool, i: nat)
    requires i < |e.users|
    ensures var d, u := After(db, e, n, regenerate, UsersIn(e, i)), UserCopy(e, n, regenerate, i);
            UserFits(db, e, n, regenerate, i) <==>
                  u.id !in d.users && FitsUser(d.accounts.Keys, d.keys.Keys, d.users, u)
  {
  }

  lemma ClusterFitsIff(db: Db, e: Export, n: nat, regenerate: bool, i: nat)
    requires i < |e.clusters|
    ensures var d, c := After(db, e, n, regenerate, ClustersIn(e, i)), ClusterCopy(e, n, regenerate, i);
            ClusterFits(db, e, n, regenerate, i) <==>
                  c.id !in d.clusters && FitsCluster(d.operators.Keys, d.clusters, c)
  {
  }

  lemma FittedAccount(db: Db, e: Export, n: nat, regenerate: bool, i: nat)
    requires i < |e.accounts|
    ensures Fitted(db, e, n, regenerate, AccountsIn(e, i)) && AccountFits(db, e, n, regenerate, i) ==>
              Fitted(db, e, n, regenerate, AccountsIn(e, i + 1))
  {
    hide AccountFits, KeyFits, UserFits, ClusterFits, OperatorFits;
  }

  lemma FittedKey(db: Db, e: Export, n: nat, regenerate: bool, i: nat)
    requires i < |e.keys|
    ensures Fitted(db, e, n, regenerate, KeysIn(e, i)) && KeyFits(db, e, n, regenerate, i) ==>
              Fitted(db, e, n, regenerate, KeysIn(e, i + 1))
  {
    hide AccountFits, KeyFits, UserFits, ClusterFits, OperatorFits;
  }

  lemma FittedUser(db: Db, e: Export, n: nat, regenerate: bool, i: nat)
    requires i < |e.users|
    ensures Fitted(db, e, n, regenerate, UsersIn(e, i)) && UserFits(db, e, n, regenerate, i) ==>
              Fitted(db, e, n, regenerate, UsersIn(e, i + 1))
  {
    hide AccountFits, KeyFits, UserFits, ClusterFits, OperatorFits;
  }

  lemma FittedCluster(db: Db, e: Export, n: nat, regenerate: bool, i: nat)
    requires i < |e.clusters|
    ensures Fitted(db, e, n, regenerate, ClustersIn(e, i)) && ClusterFits(db, e, n, regenerate, i) ==>
              Fitted(db, e, n, regenerate, ClustersIn(e, i + 1))
  {
    hide AccountFits, KeyFits, UserFits, ClusterFits, OperatorFits;
  }

  lemma AllFitted(db: Db, e: Export, n: nat, regenerate: bool, g: Progress)
    requires InOrder(e, g) && Fitted(db, e, n, regenerate, g)
    ensures forall i | 0 <= i < g.accounts :: AccountFits(db, e, n, regenerate, i)
    ensures forall i | 0 <= i < g.keys :: KeyFits(db, e, n, regenerate, i)
    ensures forall i | 0 <= i < g.users :: UserFits(db, e, n, regenerate, i)
    ensures forall i | 0 <= i < g.clusters :: ClusterFits(db, e, n, regenerate, i)
  {
    hide AccountFits, KeyFits, UserFits, ClusterFits;
  }

  /** The new id of the row that comes next, and the renaming with it. */
  method NextId(store: Store, e: Export, regenerate: bool, ghost db: Db, ghost n: nat, idMap: map<Id, Id>,
                exportedId: Id, ghost g: Progress, ghost q: nat)
    returns (id: Id, renamed: map<Id, Id>)
    requires At(store, db, e, n, regenerate, g, idMap, q) && q < |Sources(e)| && Sources(e)[q] == exportedId
    modifies store`next
    ensures At(store, db, e, n, regenerate, g, renamed, q + 1)
    ensures id == if regenerate then n + q else exportedId
    ensures store.next >= old(store.next)
  {
    hide Schema, After;
    id, renamed := exportedId, idMap;
    if regenerate {
      IdMapNext(e, n, q);
      id := store.Draw();
      renamed := renamed[exportedId := id];
    }
  }

  method ImportAccounts(store: Store, e: Export, regenerate: bool, ghost db: Db, ghost n: nat, idMap: map<Id, Id>,
      operatorId: Id)
    returns (r: Result<map<Id, Id>>)
    requires At(store, db, e, n, regenerate, AccountsIn(e, 0), idMap, 1)
             && operatorId == OperatorTarget(e, n, regenerate)
    modifies store
    ensures store.faults >= old(store.faults)
    ensures r.Ok? ==> At(store, db, e, n, regenerate, AccountsIn(e, |e.accounts|), r.value, 1 + |e.accounts|)
    ensures r.Err? ==> Stopped(store, db, e, n, regenerate)
    ensures store.faults == old(store.faults) && r.Err? ==> r.error == Rejected
    ensures store.faults == old(store.faults) ==>
              (r.Ok? <==> forall i | 0 <= i < |e.accounts| :: AccountFits(db, e, n, regenerate, i))
  {
    hide Schema, Supplied, After, FitsAccount, AccountFits, Fitted, IdMapAt;
    var renamed: map<Id, Id> := idMap;
    for i := 0 to |e.accounts|
      invariant At(store, db, e, n, regenerate, AccountsIn(e, i), renamed, 1 + i)
      invariant store.faults == old(store.faults)
    {
      var exported := e.accounts[i];
      var id;
      id, renamed := NextId(store, e, regenerate, db, n, renamed, exported.id, AccountsIn(e, i), 1 + i);
      NextAccount(db, e, n, regenerate, i);
      var a := exported.(id := id, operatorId := operatorId);
      assert a == AccountCopy(e, n, regenerate, i);
      AccountFitsIff(db, e, n, regenerate, i);
      FittedAccount(db, e, n, regenerate, i);
      var rc := store.CreateAccount(a);
      if rc.Err? {
        assert store.faults == old(store.faults) ==> !AccountFits(db, e, n, regenerate, i);
        assert AccountsIn(e, i) != Everything(e);
        return Err(rc.error);
      }
    }
    AllFitted(db, e, n, regenerate, AccountsIn(e, |e.accounts|));
    r := Ok(renamed);
  }

  lemma KeyCopyIs(e: Export, n: nat, regenerate: bool, i: nat, id: Id, accountId: Id)
    requires i < |e.keys| && id == KeyTargets(e, n, regenerate)[i]
             && |Sources(e)| == 1 + |e.accounts| + |e.keys| + |e.users|
    requires var m := IdMapAt(e, n, 2 + |e.accounts| + i);
             accountId == if regenerate then Renamed(m, e.keys[i].accountId) else e.keys[i].accountId
    ensures KeyCopy(e, n, regenerate, i) == e.keys[i].(id := id, accountId := accountId)
  {
  }

  method ImportKeys(store: Store, e: Export, regenerate: bool, ghost db: Db, ghost n: nat, idMap: map<Id, Id>)
    returns (r: Result<map<Id, Id>>)
    requires At(store, db, e, n, regenerate, KeysIn(e, 0), idMap, 1 + |e.accounts|)
    modifies store
    ensures store.faults >= old(store.faults)
    ensures r.Ok? ==> At(store, db, e, n, regenerate, KeysIn(e, |e.keys|), r.value, 1 + |e.accounts| + |e.keys|)
    ensures r.Err? ==> Stopped(store, db, e, n, regenerate)
    ensures store.faults == old(store.faults) && r.Err? ==> r.error == Rejected
    ensures store.faults == old(store.faults) ==>
              (r.Ok? <==> forall i | 0 <= i < |e.keys| :: KeyFits(db, e, n, regenerate, i))
  {
    hide Schema, Supplied, After, FitsKey, KeyFits, Fitted, KeyRow, KeyCopy, IdMapAt;
    var renamed: map<Id, Id> := idMap;
    for i := 0 to |e.keys|
      invariant At(store, db, e, n, regenerate, KeysIn(e, i), renamed, 1 + |e.accounts| + i)
      invariant store.faults == old(store.faults)
    {
      var exported := e.keys[i];
      var id, accountId := 0, exported.accountId;
      id, renamed := NextId(store, e, regenerate, db, n, renamed, exported.id, KeysIn(e, i), 1 + |e.accounts| + i);
      if regenerate && exported.accountId in renamed {
        accountId := renamed[exported.accountId];
      }
      NextKey(db, e, n, regenerate, i);
      var k := exported.(id := id, accountId := accountId);
      KeyCopyIs(e, n, regenerate, i, id, accountId);
      KeyFitsIff(db, e, n, regenerate, i);
      FittedKey(db, e, n, regenerate, i);
      var rc := store.CreateKey(k);
      if rc.Err? {
        assert store.faults == old(store.faults) ==> !KeyFits(db, e, n, regenerate, i);
        assert KeysIn(e, i) != Everything(e);
        return Err(rc.error);
      }
    }
    AllFitted(db, e, n, regenerate, KeysIn(e, |e.keys|));
    r := Ok(renamed);
  }

  lemma UserCopyIs(e: Export, n: nat, regenerate: bool, i: nat, copy: User)
    requires i < |e.users| && |Sources(e)| == 1 + |e.accounts| + |e.keys| + |e.users|
    requires var u, m := e.users[i], IdMapAt(e, n, 2 + |e.accounts| + |e.keys| + i);
             copy == if !regenerate then u
                     else u.(id := UserTargets(e, n, true)[i], accountId := Renamed(m, u.accountId),
                             scopedKeyId := if u.scopedKeyId.Some? && u.scopedKeyId.value in m
                                            then Some(m[u.scopedKeyId.value]) else None)
    ensures UserCopy(e, n, regenerate, i) == copy
  {
  }

  method ImportUsers(store: Store, e: Export, regenerate: bool, ghost db: Db, ghost n: nat, idMap: map<Id, Id>)
    returns (r: Result<map<Id, Id>>)
    requires At(store, db, e, n, regenerate, UsersIn(e, 0), idMap, 1 + |e.accounts| + |e.keys|)
    modifies store
    ensures store.faults >= old(store.faults)
    ensures r.Ok? ==> At(store, db, e, n, regenerate, UsersIn(e, |e.users|), r.value, |Sources(e)|)
    ensures r.Err? ==> Stopped(store, db, e, n, regenerate)
    ensures store.faults == old(store.faults) && r.Err? ==> r.error == Rejected
    ensures store.faults == old(store.faults) ==>
              (r.Ok? <==> forall i | 0 <= i < |e.users| :: UserFits(db, e, n, regenerate, i))
  {
    hide Schema, Supplied, After, FitsUser, UserFits, Fitted, UserCopy, IdMapAt;
    var renamed: map<Id, Id> := idMap;
    for i := 0 to |e.users|
      invariant At(store, db, e, n, regenerate, UsersIn(e, i), renamed, 1 + |e.accounts| + |e.keys| + i)
      invariant store.faults == old(store.faults)
    {
      var exported := e.users[i];
      var id, accountId, scopedKeyId := 0, exported.accountId, None;
      id, renamed := NextId(store, e, regenerate, db, n, renamed, exported.id, UsersIn(e, i),
          1 + |e.accounts| + |e.keys| + i);
      if regenerate {
        if exported.accountId in renamed {
          accountId := renamed[exported.accountId];
        }
        if exported.scopedKeyId.Some? && exported.scopedKeyId.value in renamed {
          scopedKeyId := Some(renamed[exported.scopedKeyId.value]);
        }
      } else {
        scopedKeyId := exported.scopedKeyId;
      }
      NextUser(db, e, n, regenerate, i);
      var u := exported.(id := id, accountId := accountId, scopedKeyId := scopedKeyId);
      UserCopyIs(e, n, regenerate, i, u);
      UserFitsIff(db, e, n, regenerate, i);
      FittedUser(db, e, n, regenerate, i);
      var rc := store.CreateUser(u);
      if rc.Err? {
        assert store.faults == old(store.faults) ==> !UserFits(db, e, n, regenerate, i);
        assert UsersIn(e, i) != Everything(e);
        return Err(rc.error);
      }
    }
    AllFitted(db, e, n, regenerate, UsersIn(e, |e.users|));
    r := Ok(renamed);
  }

  method ImportClusters(store: Store, e: Export, regenerate: bool, ghost db: Db, ghost n: nat,
      ghost idMap: map<Id, Id>, operatorId: Id)
    returns (r: Result<()>)
    requires At(store, db, e, n, regenerate, ClustersIn(e, 0), idMap, |Sources(e)|)
             && operatorId == OperatorTarget(e, n, regenerate)
    modifies store
    ensures store.faults >= old(store.faults)
    ensures store.Valid()
    ensures r.Ok? ==> store.db == After(db, e, n, regenerate, Everything(e))
                      && Fitted(db, e, n, regenerate, Everything(e)) && Mentioned(e, store.next) && store.next >= n
    ensures r.Err? ==> Stopped(store, db, e, n, regenerate)
    ensures store.faults == old(store.faults) && r.Err? ==> r.error == Rejected
    ensures store.faults == old(store.faults) ==>
              (r.Ok? <==> forall i | 0 <= i < |e.clusters| :: ClusterFits(db, e, n, regenerate, i))
  {
    hide Schema, Supplied, After, FitsCluster, ClusterFits, Fitted;
    for i := 0 to |e.clusters|
      invariant store.Valid() && Mentioned(e, store.next) && store.db == After(db, e, n, regenerate, ClustersIn(e, i))
      invariant Fitted(db, e, n, regenerate, ClustersIn(e, i))
      invariant store.next >= n && (regenerate ==> store.next == n + |Sources(e)| + i)
      invariant store.faults == old(store.faults)
    {
      var exported := e.clusters[i];
      var id := exported.id;
      if regenerate {
        id := store.Draw();
      }
      NextCluster(db, e, n, regenerate, i);
      var c := exported.(id := id, operatorId := operatorId, skipVerifyTls := false);
      assert c == ClusterCopy(e, n, regenerate, i);
      ClusterFitsIff(db, e, n, regenerate, i);
      FittedCluster(db, e, n, regenerate, i);
      var rc := store.CreateCluster(c);
      if rc.Err? {
        assert store.faults == old(store.faults) ==> !ClusterFits(db, e, n, regenerate, i);
        assert ClustersIn(e, i) != Everything(e);
        return Err(rc.error);
      }
    }
    AllFitted(db, e, n, regenerate, ClustersIn(e, |e.clusters|));
    r := Ok(());
  }

  lemma NothingStored(db: Db, e: Export, n: nat, regenerate: bool)
    ensures Partly(db, db, e, n, regenerate)
    ensures After(db, e, n, regenerate, AccountsIn(e, 0))
            == db.(operators := db.operators[OperatorTarget(e, n, regenerate) := OperatorCopy(e, n, regenerate)])
  {
    var nothing := Progress(0, 0, 0, 0, 0);
    assert InOrder(e, nothing) && nothing != Everything(e) && After(db, e, n, regenerate, nothing) == db;
  }

  lemma FirstId(e: Export, n: nat)
    ensures |Sources(e)| >= 1 && IdMapAt(e, n, 1) == map[e.operator.id := n]
    ensures IdMapAt(e, n, 0) == map[]
  {
    IdMapNext(e, n, 0);
  }

  /** Any file will do; the draws start above whatever it mentions. */
  method ImportOperator(store: Store, e: Export, regenerate: bool) returns (r: Result<()>)
    requires store.Valid()
    modifies store
    ensures store.Valid() && store.faults >= old(store.faults)
    ensures store.next >= old(store.next) && Mentioned(e, store.next)
    ensures r.Ok? ==> store.db == After(old(store.db), e, Start(e, old(store.next)), regenerate, Everything(e))
                      && Importable(old(store.db), e, Start(e, old(store.next)), regenerate)
    ensures r.Err? ==> Stopped(store, old(store.db), e, Start(e, old(store.next)), regenerate)
    ensures store.faults == old(store.faults) ==>
              (r.Ok? <==> Importable(old(store.db), e, Start(e, old(store.next)), regenerate))
    ensures store.faults == old(store.faults) && r.Err? ==>
              r.error == if e.version != "1.0" then Invalid
                         else if OperatorTaken(old(store.db), e.operator.name) then AlreadyExists else Rejected
  {
    hide Schema, Supplied, FitsOperator, AccountFits, KeyFits, UserFits, ClusterFits, After, Start,
         Partly, IdMapAt, Sources;
    store.Avoid(Start(e, store.next));
    ghost var db, n := store.db, store.next;
    NothingStored(db, e, n, regenerate);
    FirstId(e, n);
    if e.version != VERSION { return Err(Invalid); }
    var operatorId, idMap: map<Id, Id> := e.operator.id, map[];
    if regenerate {
      operatorId := store.Draw();
      idMap := idMap[e.operator.id := operatorId];
    }
    var existing := store.GetOperatorByName(e.operator.name);
    if existing.Err? && existing.error != NotFound { return Err(existing.error); }
    if existing.Ok? { return Err(AlreadyExists); }
    var operator := e.operator.(id := operatorId);
    var rc := store.CreateOperator(operator);
    if rc.Err? { return Err(rc.error); }
    var ra := ImportAccounts(store, e, regenerate, db, n, idMap, operatorId);
    if ra.Err? { return Err(ra.error); }
    var rk := ImportKeys(store, e, regenerate, db, n, ra.value);
    if rk.Err? { return Err(rk.error); }
    var ru := ImportUsers(store, e, regenerate, db, n, rk.value);
    if ru.Err? { return Err(ru.error); }
    r := ImportClusters(store, e, regenerate, db, n, ru.value, operatorId);
  }
}
