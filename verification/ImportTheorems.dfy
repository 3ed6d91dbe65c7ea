/** Importing what was exported gives an isomorphic copy, and every partial import resolves. */
module ImportTheorems {
  import opened Entities
  import opened Database
  import opened ExportService
  import opened ImportService

  // Storing rows under distinct, unused ids.

  ghost predicate Grown<T(!new)>(was: map<Id, T>, now: map<Id, T>, ids: seq<Id>, rows: seq<T>) {
    && |ids| == |rows|
    && (forall i :: i in now <==> i in was || i in ids)
    && (forall i | i in was :: i !in ids && now[i] == was[i])
    && forall j | 0 <= j < |ids| :: ids[j] in now && now[ids[j]] == rows[j]
  }

  lemma {:induction false} StoredGrown<T(!new)>(table: map<Id, T>, ids: seq<Id>, rows: seq<T>)
    requires |ids| == |rows| && Distinct(ids) && forall i | i in ids :: i !in table
    ensures Grown(table, Stored(table, ids, rows), ids, rows)
  {
    if ids != [] {
      var front, last := ids[..|ids| - 1], ids[|ids| - 1];
      StoredGrown(table, front, rows[..|ids| - 1]);
      assert ids == front + [last];
      assert last !in front;
    }
  }

  lemma {:induction false} StoredKeys<T>(table: map<Id, T>, ids: seq<Id>, rows: seq<T>, i: Id)
    requires |ids| == |rows|
    ensures i in Stored(table, ids, rows) <==> i in table || i in ids
  {
    if ids != [] {
      StoredKeys(table, ids[..|ids| - 1], rows[..|ids| - 1], i);
    }
  }

  /** The same, when each id was unused as its row was stored. */
  lemma {:induction false} FreshGrown<T(!new)>(table: map<Id, T>, ids: seq<Id>, rows: seq<T>, k: nat)
    requires |ids| == |rows| && k <= |ids|
    requires forall j | 0 <= j < k :: ids[j] !in Stored(table, ids[..j], rows[..j])
    ensures Grown(table, Stored(table, ids[..k], rows[..k]), ids[..k], rows[..k])
  {
    hide Stored, Grown;
    if k == 0 {
      StoredNothing(table);
      assert ids[..0] == [] && rows[..0] == [];
    } else {
      FreshGrown(table, ids, rows, k - 1);
      StoredNext(table, ids, rows, k - 1);
      GrownMore(table, Stored(table, ids[..k - 1], rows[..k - 1]), ids[..k - 1], rows[..k - 1], ids[k - 1],
          rows[k - 1]);
      assert ids[..k] == ids[..k - 1] + [ids[k - 1]] && rows[..k] == rows[..k - 1] + [rows[k - 1]];
    }
  }

  lemma StoredNothing<T(!new)>(table: map<Id, T>)
    ensures Grown(table, Stored(table, [], []), [], [])
  {
  }

  lemma GrownMore<T(!new)>(was: map<Id, T>, now: map<Id, T>, ids: seq<Id>, rows: seq<T>, id: Id, row: T)
    requires Grown(was, now, ids, rows) && id !in now
    ensures Grown(was, now[id := row], ids + [id], rows + [row])
  {
  }

  lemma DistinctPrefix(ids: seq<Id>, k: nat)
    requires Distinct(ids) && k <= |ids|
    ensures Distinct(ids[..k]) && forall i | i in ids[..k] :: i in ids
  {
  }

  lemma PrefixGrown<T(!new)>(table: map<Id, T>, ids: seq<Id>, rows: seq<T>, k: nat)
    requires |ids| == |rows| && k <= |ids| && Distinct(ids) && forall i | i in ids :: i !in table
    ensures Grown(table, Stored(table, ids[..k], rows[..k]), ids[..k], rows[..k])
  {
    DistinctPrefix(ids, k);
    StoredGrown(table, ids[..k], rows[..k]);
  }

  // Files whose references resolve, and stores that have room for them.

  ghost predicate NoTwoAlike(e: Export) {
    && (forall i, j | 0 <= i < j < |e.accounts| ::
          e.accounts[i].publicKey != e.accounts[j].publicKey && e.accounts[i].name != e.accounts[j].name)
    && (forall i, j | 0 <= i < j < |e.keys| ::
          e.keys[i].publicKey != e.keys[j].publicKey
          && !(e.keys[i].accountId == e.keys[j].accountId && e.keys[i].name == e.keys[j].name))
    && (forall i, j | 0 <= i < j < |e.users| ::
          e.users[i].publicKey != e.users[j].publicKey
          && !(e.users[i].accountId == e.users[j].accountId && e.users[i].name == e.users[j].name))
    && forall i, j | 0 <= i < j < |e.clusters| :: e.clusters[i].name != e.clusters[j].name
  }

  /** Ids differ across all kinds that share the renaming, and every reference is to a row of the file. */
  ghost predicate Resolves(e: Export) {
    && Distinct(Sources(e)) && Distinct(ClusterIds(e.clusters))
    && (forall i | 0 <= i < |e.keys| :: e.keys[i].accountId in AccountIds(e.accounts))
    && forall i | 0 <= i < |e.users| ::
         && e.users[i].accountId in AccountIds(e.accounts)
         && (e.users[i].scopedKeyId.Some? ==> e.users[i].scopedKeyId.value in KeyIds(e.keys))
  }

  /** The store holds none of the file's names and public keys, nor its ids if they are kept. */
  ghost predicate NoClash(db: Db, e: Export, regenerate: bool) {
    && (forall i | i in db.operators ::
          db.operators[i].name != e.operator.name && db.operators[i].publicKey != e.operator.publicKey)
    && (forall i, j | i in db.accounts && 0 <= j < |e.accounts| :: db.accounts[i].publicKey != e.accounts[j].publicKey)
    && (forall i, j | i in db.keys && 0 <= j < |e.keys| :: db.keys[i].publicKey != e.keys[j].publicKey)
    && (forall i, j | i in db.users && 0 <= j < |e.users| :: db.users[i].publicKey != e.users[j].publicKey)
    && (forall i, j | i in db.clusters && 0 <= j < |e.clusters| :: db.clusters[i].name != e.clusters[j].name)
    && (!regenerate ==>
          && e.operator.id !in db.operators
          && (forall j | 0 <= j < |e.accounts| :: e.accounts[j].id !in db.accounts)
          && (forall j | 0 <= j < |e.keys| :: e.keys[j].id !in db.keys)
          && (forall j | 0 <= j < |e.users| :: e.users[j].id !in db.users)
          && forall j | 0 <= j < |e.clusters| :: e.clusters[j].id !in db.clusters)
  }

  // The renaming

  function Targets(e: Export, n: nat, regenerate: bool): seq<Id> {
    [OperatorTarget(e, n, regenerate)] + AccountTargets(e, n, regenerate) + KeyTargets(e, n, regenerate)
    + UserTargets(e, n, regenerate)
  }

  /** The id that each renamed row of the file is imported under. */
  function Renaming(e: Export, n: nat, regenerate: bool): map<Id, Id> {
    Stored(map[], Sources(e), Targets(e, n, regenerate))
  }

  lemma TargetsAre(e: Export, n: nat, regenerate: bool)
    ensures |Targets(e, n, regenerate)| == |Sources(e)|
    ensures Targets(e, n, regenerate) == if regenerate then NewIds(n, |Sources(e)|) else Sources(e)
  {
  }

  lemma TargetsDistinct(e: Export, n: nat, regenerate: bool)
    requires Distinct(Sources(e))
    ensures Distinct(Targets(e, n, regenerate))
    ensures Distinct(AccountTargets(e, n, regenerate)) && Distinct(KeyTargets(e, n, regenerate))
            && Distinct(UserTargets(e, n, regenerate))
  {
    TargetsAre(e, n, regenerate);
    hide Sources, Targets, AccountTargets, KeyTargets, UserTargets;
    Positions(e, n, regenerate);
    SameLengths(e, n, regenerate);
    var all, a, k := Targets(e, n, regenerate), |e.accounts|, |e.keys|;
    SliceDistinct(all, AccountTargets(e, n, regenerate), 1);
    SliceDistinct(all, KeyTargets(e, n, regenerate), 1 + a);
    SliceDistinct(all, UserTargets(e, n, regenerate), 1 + a + k);
  }

  lemma SliceDistinct(all: seq<Id>, part: seq<Id>, from: nat)
    requires Distinct(all) && from + |part| <= |all| && forall i | 0 <= i < |part| :: part[i] == all[from + i]
    ensures Distinct(part)
  {
  }

  lemma RenamingIs(e: Export, n: nat, regenerate: bool)
    requires Distinct(Sources(e))
    ensures var m := Renaming(e, n, regenerate);
            && m.Keys == Elements(Sources(e))
            && forall q | 0 <= q < |Sources(e)| ::
                  Sources(e)[q] in m && m[Sources(e)[q]] == Targets(e, n, regenerate)[q]
  {
    StoredGrown(map[], Sources(e), Targets(e, n, regenerate));
  }

  /** The renaming, kind by kind. */
  lemma RenamingByKind(e: Export, n: nat, regenerate: bool)
    requires Distinct(Sources(e))
    ensures var m := Renaming(e, n, regenerate);
            && e.operator.id in m && m[e.operator.id] == OperatorTarget(e, n, regenerate)
            && (forall i | 0 <= i < |e.accounts| ::
                  e.accounts[i].id in m && m[e.accounts[i].id] == AccountTargets(e, n, regenerate)[i])
            && (forall i | 0 <= i < |e.keys| :: e.keys[i].id in m && m[e.keys[i].id] == KeyTargets(e, n, regenerate)[i])
            && (forall i | 0 <= i < |e.users| ::
                  e.users[i].id in m && m[e.users[i].id] == UserTargets(e, n, regenerate)[i])
  {
    hide Renaming, Sources, Targets, Distinct;
    RenamingIs(e, n, regenerate);
    Positions(e, n, regenerate);
    var s, t, a, k := Sources(e), Targets(e, n, regenerate), |e.accounts|, |e.keys|;
    assert e.operator.id == s[0];
    forall i | 0 <= i < a ensures e.accounts[i].id == s[1 + i] && AccountTargets(e, n, regenerate)[i] == t[1 + i] {}
    forall i | 0 <= i < k ensures e.keys[i].id == s[1 + a + i] && KeyTargets(e, n, regenerate)[i] == t[1 + a + i] {}
    forall i | 0 <= i < |e.users|
      ensures e.users[i].id == s[1 + a + k + i] && UserTargets(e, n, regenerate)[i] == t[1 + a + k + i] {}
  }

  lemma Positions(e: Export, n: nat, regenerate: bool)
    ensures var s, t, a, k := Sources(e), Targets(e, n, regenerate), |e.accounts|, |e.keys|;
            && |s| == |t| == 1 + a + k + |e.users|
            && s[0] == e.operator.id && t[0] == OperatorTarget(e, n, regenerate)
            && (forall i | 0 <= i < a :: s[1 + i] == e.accounts[i].id && t[1 + i] == AccountTargets(e, n,
                regenerate)[i])
            && (forall i | 0 <= i < k :: s[1 + a + i] == e.keys[i].id && t[1 + a + i] == KeyTargets(e, n,
                regenerate)[i])
            && forall i | 0 <= i < |e.users| ::
                 s[1 + a + k + i] == e.users[i].id && t[1 + a + k + i] == UserTargets(e, n, regenerate)[i]
  {
  }

  /** Once a row is renamed, the lookups that follow find it where the whole renaming has it. */
  lemma LookupFinds(e: Export, n: nat, q: nat, j: nat)
    requires Distinct(Sources(e)) && j < q <= |Sources(e)|
    ensures Sources(e)[j] in IdMapAt(e, n, q) && Sources(e)[j] in Renaming(e, n, true)
    ensures IdMapAt(e, n, q)[Sources(e)[j]] == Renaming(e, n, true)[Sources(e)[j]]
  {
    var s := Sources(e);
    DistinctPrefix(s, q);
    StoredGrown(map[], s[..q], NewIds(n, q));
    RenamingIs(e, n, true);
    TargetsAre(e, n, true);
    assert s[..q][j] == s[j];
  }

  /** What a lookup finds, whatever the file: when row `q - 1` looks up the id of row `j`, it finds that
      row's new id if and only if no row imported in between, of whatever kind, has the same old id. */
  lemma {:induction false} LookupIff(e: Export, n: nat, j: nat, q: nat)
    requires j < q <= |Sources(e)|
    ensures Sources(e)[j] in IdMapAt(e, n, q)
    ensures IdMapAt(e, n, q)[Sources(e)[j]] == n + j <==> forall l | j < l < q :: Sources(e)[l] != Sources(e)[j]
    ensures IdMapAt(e, n, q)[Sources(e)[j]] < n + q
    decreases q
  {
    hide IdMapAt, Sources;
    IdMapNext(e, n, q - 1);
    if j < q - 1 {
      LookupIff(e, n, j, q - 1);
    }
  }

  lemma KeyReference(e: Export, n: nat, regenerate: bool, i: nat)
    requires Resolves(e) && i < |e.keys|
    ensures var m := Renaming(e, n, regenerate);
            && e.keys[i].accountId in m && KeyCopy(e, n, regenerate, i).accountId == m[e.keys[i].accountId]
            && m[e.keys[i].accountId] in AccountTargets(e, n, regenerate)
  {
    hide Renaming, IdMapAt;
    assert e.keys[i].accountId in AccountIds(e.accounts);
    var j :| 0 <= j < |e.accounts| && AccountIds(e.accounts)[j] == e.keys[i].accountId;
    RenamingByKind(e, n, regenerate);
    assert Sources(e)[1 + j] == e.keys[i].accountId;
    if regenerate {
      LookupFinds(e, n, 2 + |e.accounts| + i, 1 + j);
    }
  }

  lemma UserAccountReference(e: Export, n: nat, regenerate: bool, i: nat)
    requires Resolves(e) && i < |e.users|
    ensures var m, u := Renaming(e, n, regenerate), e.users[i];
            && u.accountId in m && UserCopy(e, n, regenerate, i).accountId == m[u.accountId]
            && m[u.accountId] in AccountTargets(e, n, regenerate)
  {
    hide Renaming, IdMapAt;
    var u, a, k := e.users[i], |e.accounts|, |e.keys|;
    assert u.accountId in AccountIds(e.accounts);
    var j :| 0 <= j < a && AccountIds(e.accounts)[j] == u.accountId;
    RenamingByKind(e, n, regenerate);
    assert Sources(e)[1 + j] == u.accountId;
    if regenerate {
      LookupFinds(e, n, 2 + a + k + i, 1 + j);
    }
  }

  lemma UserKeyReference(e: Export, n: nat, regenerate: bool, i: nat)
    requires Resolves(e) && i < |e.users|
    ensures var m, u, copy := Renaming(e, n, regenerate), e.users[i], UserCopy(e, n, regenerate, i);
            if u.scopedKeyId.None? then copy.scopedKeyId.None?
            else u.scopedKeyId.value in m && copy.scopedKeyId == Some(m[u.scopedKeyId.value])
                 && m[u.scopedKeyId.value] in KeyTargets(e, n, regenerate)
  {
    hide Renaming, IdMapAt;
    var u, a, k := e.users[i], |e.accounts|, |e.keys|;
    if u.scopedKeyId.Some? {
      assert u.scopedKeyId.value in KeyIds(e.keys);
      var l :| 0 <= l < k && KeyIds(e.keys)[l] == u.scopedKeyId.value;
      RenamingByKind(e, n, regenerate);
      assert Sources(e)[1 + a + l] == u.scopedKeyId.value;
      if regenerate {
        LookupFinds(e, n, 2 + a + k + i, 1 + a + l);
      }
    }
  }

  lemma UserReferences(e: Export, n: nat, regenerate: bool, i: nat)
    requires Resolves(e) && i < |e.users|
    ensures var m, u, copy := Renaming(e, n, regenerate), e.users[i], UserCopy(e, n, regenerate, i);
            && u.accountId in m && copy.accountId == m[u.accountId]
                && m[u.accountId] in AccountTargets(e, n, regenerate)
            && (if u.scopedKeyId.None? then copy.scopedKeyId.None?
                else u.scopedKeyId.value in m && copy.scopedKeyId == Some(m[u.scopedKeyId.value])
                     && m[u.scopedKeyId.value] in KeyTargets(e, n, regenerate))
  {
    hide Renaming, UserCopy, Resolves;
    UserAccountReference(e, n, regenerate, i);
    UserKeyReference(e, n, regenerate, i);
  }

  // Every row finds its place.

  /** A sound store, and a file that it has room for. */
  ghost predicate Ready(db: Db, e: Export, n: nat, regenerate: bool) {
    Sound(db, n) && Resolves(e) && NoTwoAlike(e) && NoClash(db, e, regenerate)
  }

  lemma TargetsFree(db: Db, e: Export, n: nat, regenerate: bool)
    requires Ready(db, e, n, regenerate)
    ensures OperatorTarget(e, n, regenerate) !in db.operators
    ensures forall i | i in AccountTargets(e, n, regenerate) :: i !in db.accounts
    ensures forall i | i in KeyTargets(e, n, regenerate) :: i !in db.keys
    ensures forall i | i in UserTargets(e, n, regenerate) :: i !in db.users
    ensures forall i | i in ClusterTargets(e, n, regenerate) :: i !in db.clusters
    ensures Distinct(ClusterTargets(e, n, regenerate))
  {
    hide Schema, NoTwoAlike;
    assert !regenerate ==> ClusterTargets(e, n, regenerate) == ClusterIds(e.clusters);
  }

  /** What the tables hold at any progress. */
  lemma AfterGrown(db: Db, e: Export, n: nat, regenerate: bool, g: Progress)
    requires Ready(db, e, n, regenerate) && InOrder(e, g)
    ensures var d := After(db, e, n, regenerate, g);
            && Grown(db.accounts, d.accounts, AccountTargets(e, n, regenerate)[..g.accounts],
                AccountRows(e, n, regenerate)[..g.accounts])
            && Grown(db.keys, d.keys, KeyTargets(e, n, regenerate)[..g.keys], KeyRows(e, n, regenerate)[..g.keys])
            && Grown(db.users, d.users, UserTargets(e, n, regenerate)[..g.users], UserRows(e, n, regenerate)[..g.users])
            && Grown(db.clusters, d.clusters, ClusterTargets(e, n, regenerate)[..g.clusters],
                ClusterRows(e, n, regenerate)[..g.clusters])
  {
    hide Grown, Sound, NoClash, NoTwoAlike, AccountTargets, KeyTargets, UserTargets, ClusterTargets, AccountRows,
         KeyRows, UserRows, ClusterRows, Stored;
    TargetsFree(db, e, n, regenerate);
    TargetsDistinct(e, n, regenerate);
    SameLengths(e, n, regenerate);
    PrefixGrown(db.accounts, AccountTargets(e, n, regenerate), AccountRows(e, n, regenerate), g.accounts);
    PrefixGrown(db.keys, KeyTargets(e, n, regenerate), KeyRows(e, n, regenerate), g.keys);
    PrefixGrown(db.users, UserTargets(e, n, regenerate), UserRows(e, n, regenerate), g.users);
    PrefixGrown(db.clusters, ClusterTargets(e, n, regenerate), ClusterRows(e, n, regenerate), g.clusters);
  }

  lemma SameLengths(e: Export, n: nat, regenerate: bool)
    ensures |AccountTargets(e, n, regenerate)| == |AccountRows(e, n, regenerate)| == |e.accounts|
    ensures |KeyTargets(e, n, regenerate)| == |KeyRows(e, n, regenerate)| == |e.keys|
    ensures |UserTargets(e, n, regenerate)| == |UserRows(e, n, regenerate)| == |e.users|
    ensures |ClusterTargets(e, n, regenerate)| == |ClusterRows(e, n, regenerate)| == |e.clusters|
  {
  }

  lemma AccountAlwaysFits(db: Db, e: Export, n: nat, regenerate: bool, i: nat)
    requires Ready(db, e, n, regenerate) && i < |e.accounts|
    ensures AccountFits(db, e, n, regenerate, i)
  {
    hide OperatorsFit, KeysFit, UsersFit, ClustersFit, Supplied, Resolves, KeyTargets, UserTargets, ClusterTargets,
         KeyRows, UserRows, ClusterRows, Stored;
    var g := AccountsIn(e, i);
    var d, a := After(db, e, n, regenerate, g), AccountRow(AccountCopy(e, n, regenerate, i));
    TargetsFree(db, e, n, regenerate);
    DistinctTargets(e, n, regenerate);
    AfterGrown(db, e, n, regenerate, g);
    hide After;
    NotBefore(AccountTargets(e, n, regenerate), i);
    forall x | x in d.accounts
      ensures d.accounts[x].publicKey != a.publicKey
              && !(d.accounts[x].operatorId == a.operatorId && d.accounts[x].name == a.name)
    {
      if x in db.accounts {
        assert FitsAccount(db.operators.Keys, db.accounts, db.accounts[x]);
      } else {
        var j :| 0 <= j < i && AccountTargets(e, n, regenerate)[..i][j] == x;
        assert d.accounts[x] == AccountRows(e, n, regenerate)[j];
      }
    }
    OperatorIn(db, e, n, regenerate, g);
  }

  lemma OperatorIn(db: Db, e: Export, n: nat, regenerate: bool, g: Progress)
    requires InOrder(e, g) && g.operators == 1
    ensures OperatorTarget(e, n, regenerate) in After(db, e, n, regenerate, g).operators
  {
  }

  lemma NotBefore(ids: seq<Id>, i: nat)
    requires Distinct(ids) && i < |ids|
    ensures ids[i] !in ids[..i]
  {
  }

  lemma DistinctTargets(e: Export, n: nat, regenerate: bool)
    requires Resolves(e)
    ensures Distinct(AccountTargets(e, n, regenerate)) && Distinct(KeyTargets(e, n, regenerate))
            && Distinct(UserTargets(e, n, regenerate))
  {
    hide AccountTargets, KeyTargets, UserTargets, Distinct;
    TargetsDistinct(e, n, regenerate);
  }

  ghost predicate Injective(m: map<Id, Id>) {
    forall x, y | x in m && y in m && x != y :: m[x] != m[y]
  }

  lemma RenamingInjective(e: Export, n: nat, regenerate: bool)
    requires Distinct(Sources(e))
    ensures Injective(Renaming(e, n, regenerate))
  {
    hide Renaming, Sources, Targets;
    TargetsAre(e, n, regenerate);
    TargetsDistinct(e, n, regenerate);
    RenamingIs(e, n, regenerate);
    var m, s := Renaming(e, n, regenerate), Sources(e);
    forall x, y | x in m && y in m && x != y ensures m[x] != m[y] {
      assert x in Elements(s) && y in Elements(s);
      var i :| 0 <= i < |s| && s[i] == x;
      var j :| 0 <= j < |s| && s[j] == y;
    }
  }

  lemma AccountsThere(db: Db, e: Export, n: nat, regenerate: bool, g: Progress)
    requires InOrder(e, g) && g.accounts == |e.accounts|
    ensures forall i | i in AccountTargets(e, n, regenerate) :: i in After(db, e, n, regenerate, g).accounts
  {
    hide AccountTargets, KeyTargets, UserTargets, ClusterTargets, AccountRows, Stored;
    SameLengths(e, n, regenerate);
    assert AccountTargets(e, n, regenerate)[..g.accounts] == AccountTargets(e, n, regenerate);
    forall i | i in AccountTargets(e, n, regenerate) ensures i in After(db, e, n, regenerate, g).accounts {
      StoredKeys(db.accounts, AccountTargets(e, n, regenerate), AccountRows(e, n, regenerate)[..g.accounts], i);
    }
  }

  lemma KeysThere(db: Db, e: Export, n: nat, regenerate: bool, g: Progress)
    requires InOrder(e, g) && g.keys == |e.keys|
    ensures forall i | i in KeyTargets(e, n, regenerate) :: i in After(db, e, n, regenerate, g).keys
  {
    hide AccountTargets, KeyTargets, UserTargets, ClusterTargets, KeyRows, Stored;
    SameLengths(e, n, regenerate);
    assert KeyTargets(e, n, regenerate)[..g.keys] == KeyTargets(e, n, regenerate);
    forall i | i in KeyTargets(e, n, regenerate) ensures i in After(db, e, n, regenerate, g).keys {
      StoredKeys(db.keys, KeyTargets(e, n, regenerate), KeyRows(e, n, regenerate)[..g.keys], i);
    }
  }

  /** What the tables hold at any progress whose rows fitted. */
  lemma FittedGrown(db: Db, e: Export, n: nat, regenerate: bool, g: Progress)
    requires InOrder(e, g) && Fitted(db, e, n, regenerate, g)
    ensures var d := After(db, e, n, regenerate, g);
            && Grown(db.accounts, d.accounts, AccountTargets(e, n, regenerate)[..g.accounts],
                AccountRows(e, n, regenerate)[..g.accounts])
            && Grown(db.keys, d.keys, KeyTargets(e, n, regenerate)[..g.keys], KeyRows(e, n, regenerate)[..g.keys])
            && Grown(db.users, d.users, UserTargets(e, n, regenerate)[..g.users], UserRows(e, n, regenerate)[..g.users])
            && Grown(db.clusters, d.clusters, ClusterTargets(e, n, regenerate)[..g.clusters],
                ClusterRows(e, n, regenerate)[..g.clusters])
  {
    hide Grown, Stored, AccountFits, KeyFits, UserFits, ClusterFits, OperatorFits, AccountTargets, KeyTargets,
         UserTargets, ClusterTargets, AccountRows, KeyRows, UserRows, ClusterRows;
    SameLengths(e, n, regenerate);
    AllFitted(db, e, n, regenerate, g);
    forall j | 0 <= j < g.accounts
      ensures AccountTargets(e, n, regenerate)[j]
              !in Stored(db.accounts, AccountTargets(e, n, regenerate)[..j], AccountRows(e, n, regenerate)[..j])
    { AccountWasFree(db, e, n, regenerate, j); }
    forall j | 0 <= j < g.keys
      ensures KeyTargets(e, n, regenerate)[j]
              !in Stored(db.keys, KeyTargets(e, n, regenerate)[..j], KeyRows(e, n, regenerate)[..j])
    { KeyWasFree(db, e, n, regenerate, j); }
    forall j | 0 <= j < g.users
      ensures UserTargets(e, n, regenerate)[j]
              !in Stored(db.users, UserTargets(e, n, regenerate)[..j], UserRows(e, n, regenerate)[..j])
    { UserWasFree(db, e, n, regenerate, j); }
    forall j | 0 <= j < g.clusters
      ensures ClusterTargets(e, n, regenerate)[j]
              !in Stored(db.clusters, ClusterTargets(e, n, regenerate)[..j], ClusterRows(e, n, regenerate)[..j])
    { ClusterWasFree(db, e, n, regenerate, j); }
    FreshGrown(db.accounts, AccountTargets(e, n, regenerate), AccountRows(e, n, regenerate), g.accounts);
    FreshGrown(db.keys, KeyTargets(e, n, regenerate), KeyRows(e, n, regenerate), g.keys);
    FreshGrown(db.users, UserTargets(e, n, regenerate), UserRows(e, n, regenerate), g.users);
    FreshGrown(db.clusters, ClusterTargets(e, n, regenerate), ClusterRows(e, n, regenerate), g.clusters);
  }

  lemma AccountWasFree(db: Db, e: Export, n: nat, regenerate: bool, j: nat)
    requires j < |e.accounts| && AccountFits(db, e, n, regenerate, j)
    ensures AccountTargets(e, n, regenerate)[j]
            !in Stored(db.accounts, AccountTargets(e, n, regenerate)[..j], AccountRows(e, n, regenerate)[..j])
  {
    hide Stored, FitsAccount;
  }

  lemma KeyWasFree(db: Db, e: Export, n: nat, regenerate: bool, j: nat)
    requires j < |e.keys| && KeyFits(db, e, n, regenerate, j)
    ensures KeyTargets(e, n, regenerate)[j]
            !in Stored(db.keys, KeyTargets(e, n, regenerate)[..j], KeyRows(e, n, regenerate)[..j])
  {
    hide Stored, FitsKey, IdMapAt;
  }

  lemma UserWasFree(db: Db, e: Export, n: nat, regenerate: bool, j: nat)
    requires j < |e.users| && UserFits(db, e, n, regenerate, j)
    ensures UserTargets(e, n, regenerate)[j]
            !in Stored(db.users, UserTargets(e, n, regenerate)[..j], UserRows(e, n, regenerate)[..j])
  {
    hide Stored, FitsUser, IdMapAt;
  }

  lemma ClusterWasFree(db: Db, e: Export, n: nat, regenerate: bool, j: nat)
    requires j < |e.clusters| && ClusterFits(db, e, n, regenerate, j)
    ensures ClusterTargets(e, n, regenerate)[j]
            !in Stored(db.clusters, ClusterTargets(e, n, regenerate)[..j], ClusterRows(e, n, regenerate)[..j])
  {
    hide Stored, FitsCluster;
  }

  /** Two keys of the file that end up in the same account came from the same account. */
  lemma KeysApart(e: Export, n: nat, regenerate: bool, i: nat, j: nat)
    requires Resolves(e) && NoTwoAlike(e) && j < i < |e.keys|
    ensures var x, y := KeyCopy(e, n, regenerate, i), KeyCopy(e, n, regenerate, j);
            x.publicKey != y.publicKey && !(x.accountId == y.accountId && x.name == y.name)
  {
    hide Renaming, IdMapAt;
    KeyReference(e, n, regenerate, i);
    KeyReference(e, n, regenerate, j);
    RenamingInjective(e, n, regenerate);
  }

  lemma UsersApart(e: Export, n: nat, regenerate: bool, i: nat, j: nat)
    requires Resolves(e) && NoTwoAlike(e) && j < i < |e.users|
    ensures var x, y := UserCopy(e, n, regenerate, i), UserCopy(e, n, regenerate, j);
            x.publicKey != y.publicKey && !(x.accountId == y.accountId && x.name == y.name)
  {
    hide Renaming, IdMapAt;
    UserReferences(e, n, regenerate, i);
    UserReferences(e, n, regenerate, j);
    RenamingInjective(e, n, regenerate);
  }

  lemma KeyAlwaysFits(db: Db, e: Export, n: nat, regenerate: bool, i: nat)
    requires Ready(db, e, n, regenerate) && i < |e.keys|
    ensures KeyFits(db, e, n, regenerate, i)
  {
    hide OperatorsFit, AccountsFit, UsersFit, ClustersFit, Supplied, Resolves, UserTargets, ClusterTargets,
         AccountRows, UserRows, ClusterRows, Stored, KeyCopy, AccountTargets, Renaming, NoTwoAlike, After,
         WholeSeconds;
    var g := KeysIn(e, i);
    var d, k := After(db, e, n, regenerate, g), KeyRow(KeyCopy(e, n, regenerate, i));
    TargetsFree(db, e, n, regenerate);
    DistinctTargets(e, n, regenerate);
    AfterGrown(db, e, n, regenerate, g);
    AccountsThere(db, e, n, regenerate, g);
    KeyReference(e, n, regenerate, i);
    NotBefore(KeyTargets(e, n, regenerate), i);
    KeyCopyKeeps(e, n, regenerate, i);
    forall x | x in d.keys
      ensures d.keys[x].publicKey != k.publicKey && !(d.keys[x].accountId == k.accountId && d.keys[x].name == k.name)
    {
      if x in db.keys {
        assert FitsKey(db.accounts.Keys, db.keys, db.keys[x]);
      } else {
        var j :| 0 <= j < i && KeyTargets(e, n, regenerate)[..i][j] == x;
        assert d.keys[x] == KeyRows(e, n, regenerate)[j];
        KeysApart(e, n, regenerate, i, j);
      }
    }
  }

  lemma KeyCopyKeeps(e: Export, n: nat, regenerate: bool, i: nat)
    requires i < |e.keys|
    ensures var k := KeyCopy(e, n, regenerate, i);
            k.id == KeyTargets(e, n, regenerate)[i] && k.publicKey == e.keys[i].publicKey && k.name == e.keys[i].name
  {
  }

  lemma UserAlwaysFits(db: Db, e: Export, n: nat, regenerate: bool, i: nat)
    requires Ready(db, e, n, regenerate) && i < |e.users|
    ensures UserFits(db, e, n, regenerate, i)
  {
    hide OperatorsFit, AccountsFit, KeysFit, ClustersFit, Supplied, Resolves, ClusterTargets, AccountRows, KeyRows,
         ClusterRows, Stored, UserCopy, AccountTargets, KeyTargets, Renaming, NoTwoAlike, After;
    var g := UsersIn(e, i);
    var d, u := After(db, e, n, regenerate, g), UserCopy(e, n, regenerate, i);
    TargetsFree(db, e, n, regenerate);
    DistinctTargets(e, n, regenerate);
    AfterGrown(db, e, n, regenerate, g);
    AccountsThere(db, e, n, regenerate, g);
    KeysThere(db, e, n, regenerate, g);
    UserReferences(e, n, regenerate, i);
    NotBefore(UserTargets(e, n, regenerate), i);
    UserCopyKeeps(e, n, regenerate, i);
    forall x | x in d.users
      ensures d.users[x].publicKey != u.publicKey && !(d.users[x].accountId == u.accountId && d.users[x].name == u.name)
    {
      if x in db.users {
        assert FitsUser(db.accounts.Keys, db.keys.Keys, db.users, db.users[x]);
      } else {
        var j :| 0 <= j < i && UserTargets(e, n, regenerate)[..i][j] == x;
        assert d.users[x] == UserRows(e, n, regenerate)[j];
        UsersApart(e, n, regenerate, i, j);
      }
    }
  }

  lemma UserCopyKeeps(e: Export, n: nat, regenerate: bool, i: nat)
    requires i < |e.users|
    ensures var u := UserCopy(e, n, regenerate, i);
            u.id == UserTargets(e, n, regenerate)[i] && u.publicKey == e.users[i].publicKey && u.name == e.users[i].name
  {
  }

  lemma ClusterAlwaysFits(db: Db, e: Export, n: nat, regenerate: bool, i: nat)
    requires Ready(db, e, n, regenerate) && i < |e.clusters|
    ensures ClusterFits(db, e, n, regenerate, i)
  {
    hide OperatorsFit, AccountsFit, KeysFit, UsersFit, Supplied, Resolves, AccountTargets, KeyTargets, UserTargets,
         AccountRows, KeyRows, UserRows, Stored;
    var g := ClustersIn(e, i);
    var d, c := After(db, e, n, regenerate, g), ClusterCopy(e, n, regenerate, i);
    TargetsFree(db, e, n, regenerate);
    AfterGrown(db, e, n, regenerate, g);
    OperatorIn(db, e, n, regenerate, g);
    hide After;
    NotBefore(ClusterTargets(e, n, regenerate), i);
    forall x | x in d.clusters ensures d.clusters[x].name != c.name {
      if x !in db.clusters {
        var j :| 0 <= j < i && ClusterTargets(e, n, regenerate)[..i][j] == x;
        assert d.clusters[x] == ClusterRows(e, n, regenerate)[j];
      }
    }
  }

  /** Without a fault, the import of such a file succeeds. */
  lemma ReadyImportable(db: Db, e: Export, n: nat, regenerate: bool)
    requires Ready(db, e, n, regenerate) && e.version == VERSION
    ensures Importable(db, e, n, regenerate)
  {
    hide Sound, Resolves, NoTwoAlike, AccountFits, KeyFits, UserFits, ClusterFits;
    TargetsFree(db, e, n, regenerate);
    forall i | 0 <= i < |e.accounts|
        ensures AccountFits(db, e, n, regenerate, i) { AccountAlwaysFits(db, e, n, regenerate, i); }
    forall i | 0 <= i < |e.keys| ensures KeyFits(db, e, n, regenerate, i) { KeyAlwaysFits(db, e, n, regenerate, i); }
    forall i | 0 <= i < |e.users| ensures UserFits(db, e, n, regenerate, i) { UserAlwaysFits(db, e, n, regenerate, i); }
    forall i | 0 <= i < |e.clusters|
        ensures ClusterFits(db, e, n, regenerate, i) { ClusterAlwaysFits(db, e, n, regenerate, i); }
  }
}
