/** The main results about export and import: what a partial import leaves, and that a whole one
    copies the exported rows exactly, together with their coherence and their trust. */
module ImportCopies {
  import opened Entities
  import opened Database
  import opened Jwts
  import opened Transitions
  import opened Invariants
  import opened Runs
  import opened Identities
  import opened Coherence
  import opened Trust
  import opened ExportService
  import opened ImportService
  import opened ImportTheorems

  /** Whatever a partial import has stored - stopped by a failing call or by a row that was refused -
      refers to the copies of what the original referred to, and those are stored already: no lookup
      misses and no user loses its key. */
  lemma PartialResolves(db: Db, e: Export, n: nat, regenerate: bool, g: Progress)
    requires Resolves(e) && InOrder(e, g) && Fitted(db, e, n, regenerate, g)
    ensures var m, d := Renaming(e, n, regenerate), After(db, e, n, regenerate, g);
            && (forall j | 0 <= j < g.keys ::
                  && KeyTargets(e, n, regenerate)[j] in d.keys && e.keys[j].accountId in m
                  && d.keys[KeyTargets(e, n, regenerate)[j]].accountId == m[e.keys[j].accountId]
                  && m[e.keys[j].accountId] in d.accounts)
            && forall j | 0 <= j < g.users ::
                 && UserTargets(e, n, regenerate)[j] in d.users
                 && UserResolved(m, e.users[j], d, d.users[UserTargets(e, n, regenerate)[j]])
  {
    hide Fitted, After, Renaming, KeyCopy, UserCopy, AccountTargets, Stored, WholeSeconds, Resolves;
    var m, d := Renaming(e, n, regenerate), After(db, e, n, regenerate, g);
    FittedGrown(db, e, n, regenerate, g);
    forall j | 0 <= j < g.keys
      ensures KeyTargets(e, n, regenerate)[j] in d.keys && e.keys[j].accountId in m
              && d.keys[KeyTargets(e, n, regenerate)[j]].accountId == m[e.keys[j].accountId]
              && m[e.keys[j].accountId] in d.accounts
    {
      assert KeyTargets(e, n, regenerate)[..g.keys][j] == KeyTargets(e, n, regenerate)[j];
      assert KeyRows(e, n, regenerate)[..g.keys][j] == KeyRow(KeyCopy(e, n, regenerate, j));
      KeyReference(e, n, regenerate, j);
      AccountsThere(db, e, n, regenerate, g);
    }
    forall j | 0 <= j < g.users
      ensures UserTargets(e, n, regenerate)[j] in d.users
      ensures UserResolved(m, e.users[j], d, d.users[UserTargets(e, n, regenerate)[j]])
    {
      assert UserTargets(e, n, regenerate)[..g.users][j] == UserTargets(e, n, regenerate)[j];
      assert UserRows(e, n, regenerate)[..g.users][j] == UserCopy(e, n, regenerate, j);
      UserReferences(e, n, regenerate, j);
      AccountsThere(db, e, n, regenerate, g);
      KeysThere(db, e, n, regenerate, g);
    }
  }

  /** The copy refers to the copies of the user's account and of its key, if it has one, and both are stored. */
  predicate UserResolved(m: map<Id, Id>, u: User, d: Db, copy: User) {
    && u.accountId in m && copy.accountId == m[u.accountId] && copy.accountId in d.accounts
    && (u.scopedKeyId.Some? <==> copy.scopedKeyId.Some?)
    && (u.scopedKeyId.Some? ==> u.scopedKeyId.value in m && copy.scopedKeyId == Some(m[u.scopedKeyId.value])
                                && copy.scopedKeyId.value in d.keys)
  }

  /** One id shared by two rows that breaks an import: a key with the id of its own account is renamed
      into its own account, and refused. */
  lemma SharedIdRefused(db: Db, e: Export, n: nat, i: nat)
    requires Supplied(db, n) && i < |e.keys| && e.keys[i].id == e.keys[i].accountId
    ensures !Importable(db, e, n, true)
  {
    hide AccountFits, UserFits, ClusterFits, OperatorFits;
    var g, self := KeysIn(e, i), n + 1 + |e.accounts| + i;
    IdMapNext(e, n, 1 + |e.accounts| + i);
    assert Sources(e)[1 + |e.accounts| + i] == e.keys[i].id;
    assert KeyCopy(e, n, true, i).accountId == self;
    var targets := AccountTargets(e, n, true)[..|e.accounts|];
    StoredKeys(db.accounts, targets, AccountRows(e, n, true)[..|e.accounts|], self);
    assert self !in db.accounts && self !in targets;
    assert !KeyFits(db, e, n, true, i);
  }

  // Exports of stored operators

  /** A user's scoped key belongs to the user's own account. */
  ghost predicate OwnKeys(db: Db) {
    forall u | u in db.users && db.users[u].scopedKeyId.Some? ::
      db.users[u].scopedKeyId.value in db.keys
          && db.keys[db.users[u].scopedKeyId.value].accountId == db.users[u].accountId
  }

  lemma InvOwnKeys(s: State)
    requires Inv(s)
    ensures OwnKeys(s.db)
  {
    hide Sound, OperatorsSigned, AccountsSigned, KeysSeeded, Gone;
    forall u | u in s.db.users && s.db.users[u].scopedKeyId.Some?
      ensures s.db.users[u].scopedKeyId.value in s.db.keys
              && s.db.keys[s.db.users[u].scopedKeyId.value].accountId == s.db.users[u].accountId
    {
      assert UserSigned(s.db.accounts, s.db.keys, s.next, s.db.users[u]);
    }
  }

  ghost predicate Intact(db: Db) {
    && AccountsFit(db.operators.Keys, db.accounts) && KeysFit(db.accounts.Keys, db.keys)
    && UsersFit(db.accounts.Keys, db.keys.Keys, db.users) && ClustersFit(db.operators.Keys, db.clusters)
    && Apart(db) && OwnKeys(db)
  }

  lemma ShownAccountsFit(db: Db, secrets: bool)
    requires AccountsFit(db.operators.Keys, db.accounts)
    ensures AccountsFit(db.operators.Keys, Shown(db, secrets).accounts)
  {
    var rows := Shown(db, secrets).accounts;
    forall i | i in rows ensures FitsAccount(db.operators.Keys, rows, rows[i]) {
      assert FitsAccount(db.operators.Keys, db.accounts, db.accounts[i]);
    }
  }

  lemma ShownKeysFit(db: Db, secrets: bool)
    requires KeysFit(db.accounts.Keys, db.keys)
    ensures KeysFit(db.accounts.Keys, Shown(db, secrets).keys)
  {
    var rows := Shown(db, secrets).keys;
    forall i | i in rows ensures FitsKey(db.accounts.Keys, rows, rows[i]) {
      assert FitsKey(db.accounts.Keys, db.keys, db.keys[i]);
    }
  }

  lemma ShownUsersFit(db: Db, secrets: bool)
    requires UsersFit(db.accounts.Keys, db.keys.Keys, db.users)
    ensures UsersFit(db.accounts.Keys, db.keys.Keys, Shown(db, secrets).users)
  {
    var rows := Shown(db, secrets).users;
    forall i | i in rows ensures FitsUser(db.accounts.Keys, db.keys.Keys, rows, rows[i]) {
      assert FitsUser(db.accounts.Keys, db.keys.Keys, db.users, db.users[i]);
    }
  }

  lemma ShownClustersFit(db: Db, secrets: bool)
    requires ClustersFit(db.operators.Keys, db.clusters)
    ensures ClustersFit(db.operators.Keys, Shown(db, secrets).clusters)
  {
    var rows := Shown(db, secrets).clusters;
    forall i | i in rows ensures FitsCluster(db.operators.Keys, rows, rows[i]) {
      assert FitsCluster(db.operators.Keys, db.clusters, db.clusters[i]);
    }
  }

  lemma ShownIds(db: Db, secrets: bool)
    ensures var shown := Shown(db, secrets);
            && shown.operators.Keys == db.operators.Keys && shown.accounts.Keys == db.accounts.Keys
            && shown.keys.Keys == db.keys.Keys && shown.users.Keys == db.users.Keys
  {
  }

  lemma ShownOwnKeys(db: Db, secrets: bool)
    requires OwnKeys(db)
    ensures OwnKeys(Shown(db, secrets))
  {
  }

  lemma ShownIntact(db: Db, secrets: bool)
    requires Schema(db) && Apart(db) && OwnKeys(db)
    ensures Intact(Shown(db, secrets))
  {
    hide Shown, OperatorsFit, AccountsFit, KeysFit, UsersFit, ClustersFit, OwnKeys;
    ShownIds(db, secrets);
    ShownAccountsFit(db, secrets);
    ShownKeysFit(db, secrets);
    ShownUsersFit(db, secrets);
    ShownClustersFit(db, secrets);
    ShownOwnKeys(db, secrets);
  }

  lemma ExportDistinct(db: Db, id: Id, e: Export)
    requires Intact(db) && IsExport(db, id, e) && db.operators[id].id == id
    ensures Distinct(Sources(e)) && Distinct(ClusterIds(e.clusters))
  {
    hide AccountsFit, KeysFit, UsersFit, ClustersFit, OwnKeys;
    var s, a, k := Sources(e), |e.accounts|, |e.keys|;
    forall i, j | 0 <= i < j < |s| ensures s[i] != s[j] {
      assert j <= a ==> s[j] == AccountIds(e.accounts)[j - 1];
      assert a < j <= a + k ==> s[j] == KeyIds(e.keys)[j - 1 - a];
      assert a + k < j ==> s[j] == UserIds(e.users)[j - 1 - a - k];
      assert 0 < i <= a ==> s[i] == AccountIds(e.accounts)[i - 1];
      assert a < i <= a + k ==> s[i] == KeyIds(e.keys)[i - 1 - a];
      assert a + k < i ==> s[i] == UserIds(e.users)[i - 1 - a - k];
    }
  }

  lemma ExportResolves(db: Db, id: Id, e: Export)
    requires Intact(db) && IsExport(db, id, e) && db.operators[id].id == id
    ensures Resolves(e)
  {
    hide AccountsFit, ClustersFit, Sources, Distinct, FitsKey, FitsUser, Apart;
    ExportDistinct(db, id, e);
    forall i | 0 <= i < |e.keys| ensures e.keys[i].accountId in AccountIds(e.accounts) {
      assert KeyIds(e.keys)[i] in KeysUnder(db, AccountsOf(db, id));
      assert e.keys[i].accountId in Elements(AccountIds(e.accounts));
    }
    forall i | 0 <= i < |e.users|
      ensures e.users[i].accountId in AccountIds(e.accounts)
      ensures e.users[i].scopedKeyId.Some? ==> e.users[i].scopedKeyId.value in KeyIds(e.keys)
    {
      assert UserIds(e.users)[i] in UsersUnder(db, AccountsOf(db, id));
      assert e.users[i].accountId in Elements(AccountIds(e.accounts));
      if e.users[i].scopedKeyId.Some? {
        assert e.users[i].scopedKeyId.value in KeysUnder(db, AccountsOf(db, id));
        assert e.users[i].scopedKeyId.value in Elements(KeyIds(e.keys));
      }
    }
  }

  lemma ExportNoTwoAlike(db: Db, id: Id, e: Export)
    requires Intact(db) && IsExport(db, id, e)
    ensures NoTwoAlike(e)
  {
    hide Apart, OwnKeys;
    forall i, j | 0 <= i < j < |e.accounts|
      ensures e.accounts[i].publicKey != e.accounts[j].publicKey && e.accounts[i].name != e.accounts[j].name
    {
      assert FitsAccount(db.operators.Keys, db.accounts, db.accounts[AccountIds(e.accounts)[j]]);
    }
    forall i, j | 0 <= i < j < |e.keys|
      ensures e.keys[i].publicKey != e.keys[j].publicKey
              && !(e.keys[i].accountId == e.keys[j].accountId && e.keys[i].name == e.keys[j].name)
    {
      assert FitsKey(db.accounts.Keys, db.keys, db.keys[KeyIds(e.keys)[j]]);
    }
    forall i, j | 0 <= i < j < |e.users|
      ensures e.users[i].publicKey != e.users[j].publicKey
              && !(e.users[i].accountId == e.users[j].accountId && e.users[i].name == e.users[j].name)
    {
      assert FitsUser(db.accounts.Keys, db.keys.Keys, db.users, db.users[UserIds(e.users)[j]]);
    }
    forall i, j | 0 <= i < j < |e.clusters| ensures e.clusters[i].name != e.clusters[j].name {
      assert FitsCluster(db.operators.Keys, db.clusters, db.clusters[ClusterIds(e.clusters)[j]]);
    }
  }

  // The copy

  /** `now` is `was` with one new row for each id in `which`, under its renamed id, and nothing else. */
  ghost predicate Added<T(!new)>(was: map<Id, T>, now: map<Id, T>, which: set<Id>, m: map<Id, Id>) {
    && (forall x | x in which :: x in m && m[x] in now && m[x] !in was)
    && (forall i | i in was :: i in now && now[i] == was[i])
    && forall i | i in now && i !in was :: exists x :: x in which && x in m && m[x] == i
  }

  lemma GrownAdded<T(!new)>(was: map<Id, T>, now: map<Id, T>, ids: seq<Id>, rows: seq<T>, from: seq<Id>, m: map<Id, Id>)
    requires Grown(was, now, ids, rows) && |from| == |ids|
    requires forall j | 0 <= j < |ids| :: from[j] in m && m[from[j]] == ids[j]
    ensures Added(was, now, Elements(from), m)
  {
    forall i | i in now && i !in was ensures exists x :: x in Elements(from) && x in m && m[x] == i {
      var j :| 0 <= j < |ids| && ids[j] == i;
      assert from[j] in Elements(from);
    }
  }

  /** The copy of operator `id` of `x`: every row below it is there once, under its new id, with its
      references renamed and all else as it was - except that a JetStream maximum of 0 is stored as
      -1, and that a cluster verifies certificates again. */
  ghost predicate OperatorCopied(x: Db, id: Id, db: Db, d: Db, m: map<Id, Id>) {
    && id in x.operators && Added(db.operators, d.operators, {id}, m)
    && d.operators[m[id]] == x.operators[id].(id := m[id])
  }

  ghost predicate AccountsCopied(x: Db, id: Id, db: Db, d: Db, m: map<Id, Id>) {
    && id in m && Added(db.accounts, d.accounts, AccountsOf(x, id), m)
    && forall a | a in AccountsOf(x, id) ::
         d.accounts[m[a]] == AccountRow(x.accounts[a].(id := m[a], operatorId := m[id]))
  }

  ghost predicate KeysCopied(x: Db, id: Id, db: Db, d: Db, m: map<Id, Id>) {
    && Added(db.keys, d.keys, KeysUnder(x, AccountsOf(x, id)), m)
    && forall k | k in KeysUnder(x, AccountsOf(x, id)) ::
         x.keys[k].accountId in m && d.keys[m[k]] == x.keys[k].(id := m[k], accountId := m[x.keys[k].accountId])
  }

  ghost predicate UsersCopied(x: Db, id: Id, db: Db, d: Db, m: map<Id, Id>) {
    && Added(db.users, d.users, UsersUnder(x, AccountsOf(x, id)), m)
    && forall u | u in UsersUnder(x, AccountsOf(x, id)) ::
         var row := x.users[u];
         && row.accountId in m && (row.scopedKeyId.Some? ==> row.scopedKeyId.value in m)
         && d.users[m[u]] == row.(id := m[u], accountId := m[row.accountId],
                                  scopedKeyId := if row.scopedKeyId.None? then None
                                                 else Some(m[row.scopedKeyId.value]))
  }

  ghost predicate ClustersCopied(x: Db, id: Id, db: Db, d: Db, operatorId: Id, mc: map<Id, Id>) {
    && Added(db.clusters, d.clusters, ClustersOf(x, id), mc)
    && forall c | c in ClustersOf(x, id) ::
         d.clusters[mc[c]] == x.clusters[c].(id := mc[c], operatorId := operatorId, skipVerifyTls := false)
  }

  ghost predicate IsCopy(x: Db, id: Id, db: Db, d: Db, m: map<Id, Id>, mc: map<Id, Id>) {
    && Injective(m) && Injective(mc)
    && OperatorCopied(x, id, db, d, m) && AccountsCopied(x, id, db, d, m) && KeysCopied(x, id, db, d, m)
    && UsersCopied(x, id, db, d, m) && ClustersCopied(x, id, db, d, m[id], mc)
  }

  function ClusterRenaming(e: Export, n: nat, regenerate: bool): map<Id, Id> {
    Stored(map[], ClusterIds(e.clusters), ClusterTargets(e, n, regenerate))
  }

  lemma WholeAfterGrown(db: Db, e: Export, n: nat, regenerate: bool)
    requires Ready(db, e, n, regenerate)
    ensures var d := After(db, e, n, regenerate, Everything(e));
            && Grown(db.accounts, d.accounts, AccountTargets(e, n, regenerate), AccountRows(e, n, regenerate))
            && Grown(db.keys, d.keys, KeyTargets(e, n, regenerate), KeyRows(e, n, regenerate))
            && Grown(db.users, d.users, UserTargets(e, n, regenerate), UserRows(e, n, regenerate))
            && Grown(db.clusters, d.clusters, ClusterTargets(e, n, regenerate), ClusterRows(e, n, regenerate))
  {
    hide Ready, After, Grown, AccountTargets, KeyTargets, UserTargets, ClusterTargets, AccountRows, KeyRows, UserRows,
         ClusterRows;
    AfterGrown(db, e, n, regenerate, Everything(e));
    SameLengths(e, n, regenerate);
    assert AccountTargets(e, n, regenerate)[..|e.accounts|] == AccountTargets(e, n, regenerate);
    assert AccountRows(e, n, regenerate)[..|e.accounts|] == AccountRows(e, n, regenerate);
    assert KeyTargets(e, n, regenerate)[..|e.keys|] == KeyTargets(e, n, regenerate);
    assert KeyRows(e, n, regenerate)[..|e.keys|] == KeyRows(e, n, regenerate);
    assert UserTargets(e, n, regenerate)[..|e.users|] == UserTargets(e, n, regenerate);
    assert UserRows(e, n, regenerate)[..|e.users|] == UserRows(e, n, regenerate);
    assert ClusterTargets(e, n, regenerate)[..|e.clusters|] == ClusterTargets(e, n, regenerate);
    assert ClusterRows(e, n, regenerate)[..|e.clusters|] == ClusterRows(e, n, regenerate);
  }

  // A partial import copies a part of the source: of the rows under the operator, those stored so far.

  function Cut(x: Db, id: Id, e: Export, g: Progress): Db
    requires InOrder(e, g)
  {
    x.(accounts := map i | i in x.accounts
                           && (x.accounts[i].operatorId != id || i in AccountIds(e.accounts)[..g.accounts]) ::
                     x.accounts[i],
       keys := map i | i in x.keys && (x.keys[i].accountId !in AccountsOf(x, id) || i in KeyIds(e.keys)[..g.keys]) ::
                 x.keys[i],
       users := map i | i in x.users && (x.users[i].accountId !in AccountsOf(x, id)
           || i in UserIds(e.users)[..g.users]) ::
                  x.users[i])
  }

  lemma CutAccounts(x: Db, id: Id, e: Export, g: Progress)
    requires InOrder(e, g) && IsExport(x, id, e)
    ensures AccountsOf(Cut(x, id, e, g), id) == Elements(AccountIds(e.accounts)[..g.accounts])
    ensures AccountsOf(Cut(x, id, e, g), id) <= AccountsOf(x, id)
    ensures g.accounts == |e.accounts| ==> AccountsOf(Cut(x, id, e, g), id) == AccountsOf(x, id)
  {
    var ids := AccountIds(e.accounts);
    assert forall i | i in ids[..g.accounts] :: i in Elements(ids);
    assert ids[..|ids|] == ids;
  }

  lemma CutKeys(x: Db, id: Id, e: Export, g: Progress)
    requires InOrder(e, g) && IsExport(x, id, e)
    ensures var y := Cut(x, id, e, g);
            KeysUnder(y, AccountsOf(y, id)) == Elements(KeyIds(e.keys)[..g.keys])
            && KeysUnder(y, AccountsOf(y, id)) <= KeysUnder(x, AccountsOf(x, id))
            && (g.keys == |e.keys| && g.accounts == |e.accounts| ==>
                  KeysUnder(y, AccountsOf(y, id)) == KeysUnder(x, AccountsOf(x, id)))
    ensures var y := Cut(x, id, e, g);
            forall i | i in KeysUnder(y, AccountsOf(y, id)) :: i in y.keys && i in x.keys && y.keys[i] == x.keys[i]
  {
    CutAccounts(x, id, e, g);
    var ids := KeyIds(e.keys);
    assert forall i | i in ids[..g.keys] :: i in Elements(ids);
    assert ids[..|ids|] == ids;
  }

  lemma CutUsers(x: Db, id: Id, e: Export, g: Progress)
    requires InOrder(e, g) && IsExport(x, id, e)
    ensures var y := Cut(x, id, e, g);
            UsersUnder(y, AccountsOf(y, id)) == Elements(UserIds(e.users)[..g.users])
            && UsersUnder(y, AccountsOf(y, id)) <= UsersUnder(x, AccountsOf(x, id))
    ensures var y := Cut(x, id, e, g);
            forall i | i in UsersUnder(y, AccountsOf(y, id)) :: i in y.users && i in x.users && y.users[i] == x.users[i]
  {
    CutAccounts(x, id, e, g);
    var ids := UserIds(e.users);
    assert forall i | i in ids[..g.users] :: i in Elements(ids);
    assert ids[..|ids|] == ids;
  }

  /** All of the source is left once everything is stored. */
  lemma WholeCut(x: Db, id: Id, e: Export)
    requires IsExport(x, id, e)
    ensures Cut(x, id, e, Everything(e)) == x
  {
    var y := Cut(x, id, e, Everything(e));
    assert AccountIds(e.accounts)[..|e.accounts|] == AccountIds(e.accounts);
    assert KeyIds(e.keys)[..|e.keys|] == KeyIds(e.keys);
    assert UserIds(e.users)[..|e.users|] == UserIds(e.users);
    forall i | i in x.accounts ensures i in y.accounts {
      assert x.accounts[i].operatorId == id ==> i in Elements(AccountIds(e.accounts));
    }
    forall i | i in x.keys ensures i in y.keys {
      assert x.keys[i].accountId in AccountsOf(x, id) ==> i in Elements(KeyIds(e.keys));
    }
    forall i | i in x.users ensures i in y.users {
      assert x.users[i].accountId in AccountsOf(x, id) ==> i in Elements(UserIds(e.users));
    }
    assert y.accounts == x.accounts && y.keys == x.keys && y.users == x.users;
  }

  lemma AccountIsCopied(x: Db, id: Id, e: Export, db: Db, n: nat, regenerate: bool, g: Progress, i: nat)
    requires Resolves(e) && InOrder(e, g) && Fitted(db, e, n, regenerate, g)
    requires IsExport(x, id, e) && x.operators[id].id == id && i < g.accounts
    ensures var m, d, row := Renaming(e, n, regenerate), After(db, e, n, regenerate, g), e.accounts[i];
            && row.id in m && id in m && m[row.id] in d.accounts
            && d.accounts[m[row.id]] == AccountRow(row.(id := m[row.id], operatorId := m[id]))
  {
    hide Fitted, After, Renaming, KeyTargets, UserTargets, ClusterTargets, KeyRows, UserRows, ClusterRows, Sources;
    var d := After(db, e, n, regenerate, g);
    RenamingByKind(e, n, regenerate);
    FittedGrown(db, e, n, regenerate, g);
    SameLengths(e, n, regenerate);
    assert AccountTargets(e, n, regenerate)[..g.accounts][i] == AccountTargets(e, n, regenerate)[i];
    assert d.accounts[AccountTargets(e, n, regenerate)[..g.accounts][i]] == AccountRows(e, n, regenerate)[i];
  }

  lemma AccountsAdded(e: Export, db: Db, n: nat, regenerate: bool, g: Progress)
    requires Resolves(e) && InOrder(e, g) && Fitted(db, e, n, regenerate, g)
    ensures Added(db.accounts, After(db, e, n, regenerate, g).accounts, Elements(AccountIds(e.accounts)[..g.accounts]),
            Renaming(e, n, regenerate))
  {
    hide Fitted, After, Renaming, KeyTargets, UserTargets, ClusterTargets, AccountRows, KeyRows, UserRows, ClusterRows,
         Sources, Grown, Added, Elements;
    var m, d := Renaming(e, n, regenerate), After(db, e, n, regenerate, g);
    RenamingByKind(e, n, regenerate);
    FittedGrown(db, e, n, regenerate, g);
    SameLengths(e, n, regenerate);
    GrownAdded(db.accounts, d.accounts, AccountTargets(e, n, regenerate)[..g.accounts],
               AccountRows(e, n, regenerate)[..g.accounts], AccountIds(e.accounts)[..g.accounts], m);
  }

  lemma AccountsAreCopied(x: Db, id: Id, e: Export, db: Db, n: nat, regenerate: bool, g: Progress)
    requires Resolves(e) && InOrder(e, g) && Fitted(db, e, n, regenerate, g)
    requires IsExport(x, id, e) && x.operators[id].id == id
    ensures AccountsCopied(Cut(x, id, e, g), id, db, After(db, e, n, regenerate, g), Renaming(e, n, regenerate))
  {
    hide Fitted, After, Renaming, Sources, Added;
    var y, m, d := Cut(x, id, e, g), Renaming(e, n, regenerate), After(db, e, n, regenerate, g);
    RenamingByKind(e, n, regenerate);
    CutAccounts(x, id, e, g);
    AccountsAdded(e, db, n, regenerate, g);
    forall a | a in AccountsOf(y, id)
      ensures a in m && m[a] in d.accounts
      ensures d.accounts[m[a]] == AccountRow(y.accounts[a].(id := m[a], operatorId := m[id]))
    {
      assert a in Elements(AccountIds(e.accounts)[..g.accounts]);
      var i :| 0 <= i < g.accounts && AccountIds(e.accounts)[..g.accounts][i] == a;
      AccountIsCopied(x, id, e, db, n, regenerate, g, i);
    }
  }

  lemma ReadyDistinct(db: Db, e: Export, n: nat, regenerate: bool)
    requires Ready(db, e, n, regenerate)
    ensures Distinct(Sources(e)) && Resolves(e)
  {
    hide Sound, NoTwoAlike, NoClash, Sources, Distinct;
  }

  lemma KeyIsCopied(x: Db, id: Id, e: Export, db: Db, n: nat, regenerate: bool, g: Progress, i: nat)
    requires Resolves(e) && InOrder(e, g) && Fitted(db, e, n, regenerate, g)
    requires IsExport(x, id, e) && x.operators[id].id == id && forall k | k in x.keys :: Whole(x.keys[k])
    requires i < g.keys
    ensures var m, d, row := Renaming(e, n, regenerate), After(db, e, n, regenerate, g), e.keys[i];
            && row.id in m && m[row.id] in d.keys && row.accountId in m
            && d.keys[m[row.id]] == row.(id := m[row.id], accountId := m[row.accountId])
  {
    hide Fitted, After, Renaming, AccountTargets, UserTargets, ClusterTargets, AccountRows, UserRows, ClusterRows,
         WholeSeconds, IdMapAt, Sources;
    var d := After(db, e, n, regenerate, g);
    RenamingByKind(e, n, regenerate);
    FittedGrown(db, e, n, regenerate, g);
    SameLengths(e, n, regenerate);
    KeyReference(e, n, regenerate, i);
    assert e.keys[i] == x.keys[KeyIds(e.keys)[i]];
    assert KeyTargets(e, n, regenerate)[..g.keys][i] == KeyTargets(e, n, regenerate)[i];
    assert d.keys[KeyTargets(e, n, regenerate)[..g.keys][i]] == KeyRows(e, n, regenerate)[i];
  }

  lemma KeysAdded(e: Export, db: Db, n: nat, regenerate: bool, g: Progress)
    requires Resolves(e) && InOrder(e, g) && Fitted(db, e, n, regenerate, g)
    ensures Added(db.keys, After(db, e, n, regenerate, g).keys, Elements(KeyIds(e.keys)[..g.keys]),
            Renaming(e, n, regenerate))
  {
    hide Fitted, After, Renaming, AccountTargets, ClusterTargets, AccountRows, KeyRows, ClusterRows, Sources, Grown,
         Added, Elements;
    var m, d := Renaming(e, n, regenerate), After(db, e, n, regenerate, g);
    RenamingByKind(e, n, regenerate);
    FittedGrown(db, e, n, regenerate, g);
    SameLengths(e, n, regenerate);
    GrownAdded(db.keys, d.keys, KeyTargets(e, n, regenerate)[..g.keys], KeyRows(e, n, regenerate)[..g.keys],
               KeyIds(e.keys)[..g.keys], m);
  }

  lemma KeysAreCopied(x: Db, id: Id, e: Export, db: Db, n: nat, regenerate: bool, g: Progress)
    requires Resolves(e) && InOrder(e, g) && Fitted(db, e, n, regenerate, g)
    requires IsExport(x, id, e) && x.operators[id].id == id && forall k | k in x.keys :: Whole(x.keys[k])
    ensures KeysCopied(Cut(x, id, e, g), id, db, After(db, e, n, regenerate, g), Renaming(e, n, regenerate))
  {
    hide Fitted, After, Renaming, Cut, KeysUnder, AccountsOf, Resolves, Added;
    var y, m, d := Cut(x, id, e, g), Renaming(e, n, regenerate), After(db, e, n, regenerate, g);
    KeysAdded(e, db, n, regenerate, g);
    AddedThere(db.keys, d.keys, Elements(KeyIds(e.keys)[..g.keys]), m);
    CutKeys(x, id, e, g);
    forall k | k in KeysUnder(y, AccountsOf(y, id))
      ensures y.keys[k].accountId in m && d.keys[m[k]] == y.keys[k].(id := m[k], accountId := m[y.keys[k].accountId])
    {
      assert k in Elements(KeyIds(e.keys)[..g.keys]);
      var i :| 0 <= i < g.keys && KeyIds(e.keys)[..g.keys][i] == k;
      assert e.keys[i] == x.keys[k];
      KeyIsCopied(x, id, e, db, n, regenerate, g, i);
    }
  }

  lemma UserIsCopied(x: Db, id: Id, e: Export, db: Db, n: nat, regenerate: bool, g: Progress, i: nat)
    requires Resolves(e) && InOrder(e, g) && Fitted(db, e, n, regenerate, g)
    requires IsExport(x, id, e) && x.operators[id].id == id
    requires i < g.users
    ensures var m, d, row := Renaming(e, n, regenerate), After(db, e, n, regenerate, g), e.users[i];
            && row.id in m && m[row.id] in d.users && row.accountId in m
            && (row.scopedKeyId.Some? ==> row.scopedKeyId.value in m)
            && d.users[m[row.id]] == row.(id := m[row.id], accountId := m[row.accountId],
                                          scopedKeyId := if row.scopedKeyId.None? then None
                                                         else Some(m[row.scopedKeyId.value]))
  {
    hide Fitted, After, Renaming, AccountTargets, KeyTargets, ClusterTargets, AccountRows, KeyRows, ClusterRows,
         IdMapAt, Sources;
    var d := After(db, e, n, regenerate, g);
    RenamingByKind(e, n, regenerate);
    FittedGrown(db, e, n, regenerate, g);
    SameLengths(e, n, regenerate);
    UserReferences(e, n, regenerate, i);
    assert UserTargets(e, n, regenerate)[..g.users][i] == UserTargets(e, n, regenerate)[i];
    assert d.users[UserTargets(e, n, regenerate)[..g.users][i]] == UserRows(e, n, regenerate)[i];
  }

  lemma UsersAdded(e: Export, db: Db, n: nat, regenerate: bool, g: Progress)
    requires Resolves(e) && InOrder(e, g) && Fitted(db, e, n, regenerate, g)
    ensures Added(db.users, After(db, e, n, regenerate, g).users, Elements(UserIds(e.users)[..g.users]),
            Renaming(e, n, regenerate))
  {
    hide Fitted, After, Renaming, AccountTargets, ClusterTargets, AccountRows, UserRows, ClusterRows, Sources, Grown,
         Added, Elements;
    var m, d := Renaming(e, n, regenerate), After(db, e, n, regenerate, g);
    RenamingByKind(e, n, regenerate);
    FittedGrown(db, e, n, regenerate, g);
    SameLengths(e, n, regenerate);
    GrownAdded(db.users, d.users, UserTargets(e, n, regenerate)[..g.users], UserRows(e, n, regenerate)[..g.users],
               UserIds(e.users)[..g.users], m);
  }

  lemma UsersAreCopied(x: Db, id: Id, e: Export, db: Db, n: nat, regenerate: bool, g: Progress)
    requires Resolves(e) && InOrder(e, g) && Fitted(db, e, n, regenerate, g)
    requires IsExport(x, id, e) && x.operators[id].id == id
    ensures UsersCopied(Cut(x, id, e, g), id, db, After(db, e, n, regenerate, g), Renaming(e, n, regenerate))
  {
    hide Fitted, After, Renaming, Cut, UsersUnder, AccountsOf, Resolves, Added;
    var y, m, d := Cut(x, id, e, g), Renaming(e, n, regenerate), After(db, e, n, regenerate, g);
    UsersAdded(e, db, n, regenerate, g);
    AddedThere(db.users, d.users, Elements(UserIds(e.users)[..g.users]), m);
    CutUsers(x, id, e, g);
    forall u | u in UsersUnder(y, AccountsOf(y, id))
      ensures var row := y.users[u];
              && row.accountId in m && (row.scopedKeyId.Some? ==> row.scopedKeyId.value in m)
              && d.users[m[u]] == row.(id := m[u], accountId := m[row.accountId],
                                       scopedKeyId := if row.scopedKeyId.None? then None
                                                      else Some(m[row.scopedKeyId.value]))
    {
      assert u in Elements(UserIds(e.users)[..g.users]);
      var i :| 0 <= i < g.users && UserIds(e.users)[..g.users][i] == u;
      assert e.users[i] == x.users[u];
      UserIsCopied(x, id, e, db, n, regenerate, g, i);
    }
  }

  lemma ClusterRenamingIs(db: Db, e: Export, n: nat, regenerate: bool)
    requires Ready(db, e, n, regenerate)
    ensures var m, ids := ClusterRenaming(e, n, regenerate), ClusterIds(e.clusters);
            && Injective(m)
            && forall i | 0 <= i < |ids| :: ids[i] in m && m[ids[i]] == ClusterTargets(e, n, regenerate)[i]
  {
    hide Sound, NoTwoAlike, Sources, AccountTargets, KeyTargets, UserTargets, ClusterTargets, Stored;
    TargetsFree(db, e, n, regenerate);
    SameLengths(e, n, regenerate);
    var m, ids := ClusterRenaming(e, n, regenerate), ClusterIds(e.clusters);
    StoredGrown(map[], ids, ClusterTargets(e, n, regenerate));
    forall x, y | x in m && y in m && x != y ensures m[x] != m[y] {
      var i :| 0 <= i < |ids| && ids[i] == x;
      var j :| 0 <= j < |ids| && ids[j] == y;
    }
  }

  lemma ClustersAreCopied(x: Db, id: Id, e: Export, db: Db, n: nat, regenerate: bool)
    requires Ready(db, e, n, regenerate) && IsExport(x, id, e)
    ensures ClustersCopied(x, id, db, After(db, e, n, regenerate, Everything(e)), OperatorTarget(e, n, regenerate),
                           ClusterRenaming(e, n, regenerate))
  {
    hide Ready, After, ClusterRenaming, AccountTargets, KeyTargets, UserTargets, AccountRows, KeyRows, UserRows;
    var m, d := ClusterRenaming(e, n, regenerate), After(db, e, n, regenerate, Everything(e));
    WholeAfterGrown(db, e, n, regenerate);
    SameLengths(e, n, regenerate);
    ClusterRenamingIs(db, e, n, regenerate);
    GrownAdded(db.clusters, d.clusters, ClusterTargets(e, n, regenerate), ClusterRows(e, n, regenerate),
        ClusterIds(e.clusters), m);
    forall c | c in ClustersOf(x, id)
      ensures d.clusters[m[c]] == x.clusters[c].(id := m[c], operatorId := OperatorTarget(e, n, regenerate),
              skipVerifyTls := false)
    {
      assert c in Elements(ClusterIds(e.clusters));
      var i :| 0 <= i < |e.clusters| && ClusterIds(e.clusters)[i] == c;
      assert e.clusters[i] == x.clusters[c];
      assert d.clusters[ClusterTargets(e, n, regenerate)[i]] == ClusterRows(e, n, regenerate)[i];
    }
  }

  lemma OperatorIsCopied(x: Db, id: Id, e: Export, db: Db, n: nat, regenerate: bool, g: Progress)
    requires Resolves(e) && InOrder(e, g) && Fitted(db, e, n, regenerate, g) && g.operators == 1
    requires IsExport(x, id, e) && x.operators[id].id == id
    ensures OperatorCopied(Cut(x, id, e, g), id, db, After(db, e, n, regenerate, g), Renaming(e, n, regenerate))
  {
    hide AccountFits, KeyFits, UserFits, ClusterFits, Renaming, Stored, Lists, Sources;
    RenamingByKind(e, n, regenerate);
  }

  /** Exporting an operator and importing the file into a store that holds none of its names and
      public keys succeeds without a fault, and gives an isomorphic copy. */
  lemma RoundTrip(source: Db, secrets: bool, id: Id, e: Export, db: Db, n: nat, regenerate: bool)
    requires Schema(source) && Exportable(source) && OwnKeys(source)
    requires IsExport(Shown(source, secrets), id, e) && Sound(db, n) && NoClash(db, e, regenerate)
    ensures Importable(db, e, n, regenerate)
    ensures IsCopy(Shown(source, secrets), id, db, After(db, e, n, regenerate, Everything(e)),
                   Renaming(e, n, regenerate), ClusterRenaming(e, n, regenerate))
  {
    hide Schema, Supplied, NoClash, OwnKeys, Shown, After, Renaming, ClusterRenaming, Lists, Importable,
         OperatorCopied, AccountsCopied, KeysCopied, UsersCopied, ClustersCopied, Resolves, NoTwoAlike, Injective,
         KeyRow, Cut, Fitted;
    var x := Shown(source, secrets);
    ShownIntact(source, secrets);
    ShownRows(source, secrets, id);
    ExportResolves(x, id, e);
    ExportNoTwoAlike(x, id, e);
    ReadyImportable(db, e, n, regenerate);
    WholeCut(x, id, e);
    var g := Everything(e);
    ImportableFitted(db, e, n, regenerate);
    OperatorIsCopied(x, id, e, db, n, regenerate, g);
    AccountsAreCopied(x, id, e, db, n, regenerate, g);
    KeysAreCopied(x, id, e, db, n, regenerate, g);
    UsersAreCopied(x, id, e, db, n, regenerate, g);
    ClustersAreCopied(x, id, e, db, n, regenerate);
    ClusterRenamingIs(db, e, n, regenerate);
    ReadyDistinct(db, e, n, regenerate);
    RenamingInjective(e, n, regenerate);
    RenamingByKind(e, n, regenerate);
  }

  lemma ImportableFitted(db: Db, e: Export, n: nat, regenerate: bool)
    requires Importable(db, e, n, regenerate)
    ensures Fitted(db, e, n, regenerate, Everything(e))
  {
    hide Fitted;
  }

  lemma ShownRows(db: Db, secrets: bool, id: Id)
    requires Schema(db) && Exportable(db)
    ensures id in Shown(db, secrets).operators ==> Shown(db, secrets).operators[id].id == id
    ensures forall k | k in Shown(db, secrets).keys :: Whole(Shown(db, secrets).keys[k])
  {
    hide FitsOperator, AccountsFit, KeysFit, UsersFit, ClustersFit, WholeSeconds;
    forall k | k in db.keys ensures Whole(ShownKey(db.keys[k], secrets)) {
      assert Whole(db.keys[k]);
    }
  }

  // Coherence and trust carry over: JWTs hold no ids.

  /** `m` carries the keys of account `a` exactly to those of account `b`, and changes nothing that a
      JWT declares. */
  ghost predicate KeysMatch(keys: map<Id, ScopedKey>, a: Id, copies: map<Id, ScopedKey>, b: Id, m: map<Id, Id>) {
    && Injective(m)
    && (forall k | k in KeysOf(keys, a) ::
          && k in m && m[k] in KeysOf(copies, b) && copies[m[k]].publicKey == keys[k].publicKey
          && ScopeOf(copies[m[k]]) == ScopeOf(keys[k]) && copies[m[k]].createdAt == keys[k].createdAt)
    && forall i | i in KeysOf(copies, b) :: exists k :: k in KeysOf(keys, a) && k in m && m[k] == i
  }

  lemma {:induction false} ImageSize(xs: set<Id>, ys: set<Id>, m: map<Id, Id>)
    requires Injective(m) && (forall x | x in xs :: x in m && m[x] in ys)
    requires forall y | y in ys :: exists x :: x in xs && x in m && m[x] == y
    ensures |xs| == |ys|
    decreases xs
  {
    if xs == {} {
      assert ys == {};
    } else {
      var x :| x in xs;
      forall y | y in ys - {m[x]} ensures exists z :: z in xs - {x} && z in m && m[z] == y {
        var z :| z in xs && z in m && m[z] == y;
        assert z in xs - {x};
      }
      ImageSize(xs - {x}, ys - {m[x]}, m);
    }
  }

  lemma DeclaredMatch(keys: map<Id, ScopedKey>, a: Id, copies: map<Id, ScopedKey>, b: Id, m: map<Id, Id>,
      signers: map<PubKey, Scope>)
    requires KeysMatch(keys, a, copies, b, m)
    ensures |KeysOf(copies, b)| == |KeysOf(keys, a)|
    ensures |Declared(copies, b, signers)| == |Declared(keys, a, signers)|
    ensures forall k | k in KeysOf(keys, a) :: k in Declared(keys, a, signers) <==> m[k] in Declared(copies, b, signers)
  {
    hide ScopeOf;
    ImageSize(KeysOf(keys, a), KeysOf(copies, b), m);
    var xs, ys := Declared(keys, a, signers), Declared(copies, b, signers);
    forall y | y in ys ensures exists x :: x in xs && x in m && m[x] == y {
      var k :| k in KeysOf(keys, a) && k in m && m[k] == y;
      assert k in xs;
    }
    ImageSize(xs, ys, m);
  }

  /** Every declared copy is the copy of a declared key. */
  lemma DeclaredFrom(keys: map<Id, ScopedKey>, a: Id, copies: map<Id, ScopedKey>, b: Id, m: map<Id, Id>,
                     signers: map<PubKey, Scope>, i: Id) returns (k: Id)
    requires KeysMatch(keys, a, copies, b, m) && i in KeysOf(copies, b)
    ensures k in KeysOf(keys, a) && k in m && m[k] == i
    ensures k in Declared(keys, a, signers) <==> i in Declared(copies, b, signers)
    ensures copies[i].publicKey == keys[k].publicKey && ScopeOf(copies[i]) == ScopeOf(keys[k])
            && copies[i].createdAt == keys[k].createdAt
  {
    hide ScopeOf, Injective;
    k :| k in KeysOf(keys, a) && k in m && m[k] == i;
  }

  lemma CopyDeclares(keys: map<Id, ScopedKey>, a: Id, copies: map<Id, ScopedKey>, b: Id, m: map<Id, Id>,
                     signers: map<PubKey, Scope>)
    requires KeysMatch(keys, a, copies, b, m) && DeclaresNewest(keys, a, signers)
    ensures DeclaresNewest(copies, b, signers)
  {
    hide ScopeOf, Injective, KeysMatch, KeysOf, Declared, DeclaresExactly;
    DeclaredMatch(keys, a, copies, b, m, signers);
    DeclaredWithin(keys, a, signers);
    DeclaredWithin(copies, b, signers);
    CopyDeclaresExactly(keys, a, copies, b, m, signers);
    var xs, ys := Declared(keys, a, signers), Declared(copies, b, signers);
    forall i, j | i in ys && j in KeysOf(copies, b) - ys ensures copies[i].createdAt >= copies[j].createdAt {
      var k := DeclaredFrom(keys, a, copies, b, m, signers, i);
      var l := DeclaredFrom(keys, a, copies, b, m, signers, j);
    }
  }

  /** Matching goes both ways. */
  lemma MatchBack(keys: map<Id, ScopedKey>, a: Id, copies: map<Id, ScopedKey>, b: Id, m: map<Id, Id>)
      returns (back: map<Id, Id>)
    requires KeysMatch(keys, a, copies, b, m)
    ensures KeysMatch(copies, b, keys, a, back)
  {
    hide ScopeOf;
    var ks := KeysOf(keys, a);
    back := map k | k in ks :: m[k] := k;
    forall i | i in KeysOf(copies, b) ensures i in back && back[i] in ks && m[back[i]] == i {
      var k :| k in ks && k in m && m[k] == i;
    }
    forall k | k in ks ensures m[k] in KeysOf(copies, b) && m[k] in back && back[m[k]] == k {
    }
  }

  lemma CopyDeclaresIff(keys: map<Id, ScopedKey>, a: Id, copies: map<Id, ScopedKey>, b: Id, m: map<Id, Id>,
                        signers: map<PubKey, Scope>)
    requires KeysMatch(keys, a, copies, b, m)
    ensures DeclaresNewest(keys, a, signers) <==> DeclaresNewest(copies, b, signers)
  {
    hide KeysMatch, DeclaresNewest;
    if DeclaresNewest(keys, a, signers) {
      CopyDeclares(keys, a, copies, b, m, signers);
    } else if DeclaresNewest(copies, b, signers) {
      var back := MatchBack(keys, a, copies, b, m);
      CopyDeclares(copies, b, keys, a, back, signers);
    }
  }

  lemma DeclaredWithin(keys: map<Id, ScopedKey>, a: Id, signers: map<PubKey, Scope>)
    ensures Declared(keys, a, signers) <= KeysOf(keys, a) && KeysOf(keys, a) <= keys.Keys
  {
  }

  lemma CopyDeclaresExactly(keys: map<Id, ScopedKey>, a: Id, copies: map<Id, ScopedKey>, b: Id, m: map<Id, Id>,
                            signers: map<PubKey, Scope>)
    requires KeysMatch(keys, a, copies, b, m)
    requires DeclaresExactly(keys, Declared(keys, a, signers), signers)
    ensures DeclaresExactly(copies, Declared(copies, b, signers), signers)
  {
    hide ScopeOf, Injective;
    DeclaredMatch(keys, a, copies, b, m, signers);
    var xs, ys := Declared(keys, a, signers), Declared(copies, b, signers);
    forall p | p in signers ensures exists i :: i in ys && copies[i].publicKey == p {
      var k :| k in xs && keys[k].publicKey == p;
      assert m[k] in ys;
    }
    forall i | i in ys ensures copies[i].publicKey in signers && signers[copies[i].publicKey] == ScopeOf(copies[i]) {
      var k := DeclaredFrom(keys, a, copies, b, m, signers, i);
    }
  }

  lemma KeysHaveAccounts(db: Db)
    requires KeysFit(db.accounts.Keys, db.keys)
    ensures forall i | i in db.keys :: db.keys[i].accountId in db.accounts
  {
    forall i | i in db.keys ensures db.keys[i].accountId in db.accounts {
      assert FitsKey(db.accounts.Keys, db.keys, db.keys[i]);
    }
  }

  /** The keys of a copied account are the copies of its keys. */
  lemma CopiedKeysMatch(x: Db, id: Id, db: Db, d: Db, m: map<Id, Id>, a: Id)
    requires Injective(m) && AccountsCopied(x, id, db, d, m) && KeysCopied(x, id, db, d, m)
    requires KeysFit(db.accounts.Keys, db.keys) && a in AccountsOf(x, id)
    ensures KeysMatch(x.keys, a, d.keys, m[a], m)
  {
    hide AccountRow, KeysFit;
    KeysHaveAccounts(db);
    var b := m[a];
    assert b !in db.accounts;
    forall k | k in KeysOf(x.keys, a)
      ensures k in m && m[k] in KeysOf(d.keys, b) && d.keys[m[k]].publicKey == x.keys[k].publicKey
              && ScopeOf(d.keys[m[k]]) == ScopeOf(x.keys[k]) && d.keys[m[k]].createdAt == x.keys[k].createdAt
    {
      assert k in KeysUnder(x, AccountsOf(x, id));
    }
    hide AccountsCopied, ScopeOf;
    forall i | i in KeysOf(d.keys, b) ensures exists k :: k in KeysOf(x.keys, a) && k in m && m[k] == i {
      assert i in d.keys && i !in db.keys;
      var k :| k in KeysUnder(x, AccountsOf(x, id)) && k in m && m[k] == i;
      assert m[x.keys[k].accountId] == b;
    }
  }

  /** An account is coherent if and only if its copy is. */
  lemma CopyCoherentIff(source: Db, secrets: bool, id: Id, db: Db, d: Db, m: map<Id, Id>, mc: map<Id, Id>, a: Id)
    requires IsCopy(Shown(source, secrets), id, db, d, m, mc) && KeysFit(db.accounts.Keys, db.keys)
    requires a in AccountsOf(source, id)
    ensures a in m && (Coherent(source, a) <==> Coherent(d, m[a]))
  {
    hide Shown, KeysFit, Injective, OperatorCopied, AccountsCopied, KeysCopied, UsersCopied, ClustersCopied, Coherent;
    var x := Shown(source, secrets);
    ShownAt(source, secrets, id);
    CopiedCoherentIff(x, id, db, d, m, a);
    ShownCoherent(source, secrets, a);
  }

  lemma CopiedCoherentIff(x: Db, id: Id, db: Db, d: Db, m: map<Id, Id>, a: Id)
    requires Injective(m) && AccountsCopied(x, id, db, d, m) && KeysCopied(x, id, db, d, m)
    requires KeysFit(db.accounts.Keys, db.keys) && a in AccountsOf(x, id)
    ensures a in m && (Coherent(x, a) <==> Coherent(d, m[a]))
  {
    hide KeysFit, Injective, DeclaresNewest, KeysMatch, KeysCopied, Limit;
    CopiedKeysMatch(x, id, db, d, m, a);
    if x.accounts[a].jwt.AccountJwt? {
      CopyDeclaresIff(x.keys, a, d.keys, m[a], m, x.accounts[a].jwt.signers);
    }
  }

  lemma SameKeysMatch(keys: map<Id, ScopedKey>, shown: map<Id, ScopedKey>, a: Id) returns (m: map<Id, Id>)
    requires KeysOf(keys, a) == KeysOf(shown, a)
    requires forall k | k in KeysOf(keys, a) :: shown[k].publicKey == keys[k].publicKey
                                               && ScopeOf(shown[k]) == ScopeOf(keys[k])
                                                   && shown[k].createdAt == keys[k].createdAt
    ensures KeysMatch(keys, a, shown, a, m)
  {
    hide ScopeOf;
    m := map k | k in KeysOf(keys, a) :: k;
  }

  lemma ShownCoherent(source: Db, secrets: bool, a: Id)
    requires a in source.accounts
    ensures Coherent(source, a) <==> Coherent(Shown(source, secrets), a)
  {
    hide DeclaresNewest, KeysMatch;
    var x := Shown(source, secrets);
    assert KeysOf(x.keys, a) == KeysOf(source.keys, a);
    var m := SameKeysMatch(source.keys, x.keys, a);
    if source.accounts[a].jwt.AccountJwt? {
      CopyDeclaresIff(source.keys, a, x.keys, a, m, source.accounts[a].jwt.signers);
    }
  }

  /** The three rows that a user's trust hangs on, and their copies. */
  lemma CopiedChain(x: Db, id: Id, db: Db, d: Db, m: map<Id, Id>, u: Id)
    requires OperatorCopied(x, id, db, d, m) && AccountsCopied(x, id, db, d, m) && UsersCopied(x, id, db, d, m)
    requires u in UsersUnder(x, AccountsOf(x, id))
    ensures u in m && m[u] in d.users && x.users[u].accountId in m && id in m
    ensures var a := x.users[u].accountId;
            && a in x.accounts && x.accounts[a].operatorId == id && m[a] in d.accounts && m[id] in d.operators
            && SameUser(x.users[u], d.users[m[u]]) && d.users[m[u]].accountId == m[a]
            && SameAccount(x.accounts[a], d.accounts[m[a]]) && d.accounts[m[a]].operatorId == m[id]
            && id in x.operators && d.operators[m[id]].publicKey == x.operators[id].publicKey
  {
    hide Added, Limit;
    AddedThere(db.users, d.users, UsersUnder(x, AccountsOf(x, id)), m);
    AddedThere(db.accounts, d.accounts, AccountsOf(x, id), m);
    AddedThere(db.operators, d.operators, {id}, m);
  }

  predicate SameUser(u: User, v: User) {
    u.jwt == v.jwt && u.publicKey == v.publicKey
  }

  predicate SameAccount(a: Account, b: Account) {
    a.jwt == b.jwt && a.publicKey == b.publicKey
  }

  lemma AddedThere<T(!new)>(was: map<Id, T>, now: map<Id, T>, which: set<Id>, m: map<Id, Id>)
    requires Added(was, now, which, m)
    ensures forall x | x in which :: x in m && m[x] in now
  {
  }

  lemma ShownChain(db: Db, secrets: bool, id: Id, u: Id)
    requires u in UsersUnder(db, AccountsOf(db, id))
    ensures var x := Shown(db, secrets);
            && u in UsersUnder(x, AccountsOf(x, id)) && db.users[u].accountId == x.users[u].accountId
            && x.users[u].accountId in db.accounts && db.accounts[x.users[u].accountId].operatorId == id
            && x.users[u].accountId in x.accounts && (id in x.operators <==> id in db.operators)
            && SameUser(db.users[u], x.users[u])
                && SameAccount(db.accounts[x.users[u].accountId], x.accounts[x.users[u].accountId])
            && (id in db.operators ==> x.operators[id].publicKey == db.operators[id].publicKey)
  {
    hide ShownSeed;
    assert AccountsOf(Shown(db, secrets), id) == AccountsOf(db, id);
  }

  /** A user is trusted if and only if its copy is. */
  lemma CopyTrustedIff(source: Db, secrets: bool, id: Id, db: Db, d: Db, m: map<Id, Id>, mc: map<Id, Id>, u: Id)
    requires IsCopy(Shown(source, secrets), id, db, d, m, mc)
    requires u in UsersUnder(source, AccountsOf(source, id))
    ensures u in m && m[u] in d.users
    ensures Trusted(source, source.users[u]) <==> Trusted(d, d.users[m[u]])
  {
    hide Shown, Injective, OperatorCopied, AccountsCopied, KeysCopied, UsersCopied, ClustersCopied;
    ShownChain(source, secrets, id, u);
    CopiedChain(Shown(source, secrets), id, db, d, m, u);
  }

  /** So it is for whatever a run of the services has stored: nothing is asked of the source. */
  lemma RunRoundTrip(states: seq<State>, events: seq<Event>, i: nat, secrets: bool, id: Id, e: Export,
                     db: Db, n: nat, regenerate: bool)
    requires |states| == |events| + 1 && i <= |events|
    requires IsExport(Shown(states[i].db, secrets), id, e) && Sound(db, n) && NoClash(db, e, regenerate)
    requires IsRun(states, events)
    ensures Importable(db, e, n, regenerate)
    ensures IsCopy(Shown(states[i].db, secrets), id, db, After(db, e, n, regenerate, Everything(e)),
                   Renaming(e, n, regenerate), ClusterRenaming(e, n, regenerate))
  {
    hide Step, Shown, NoClash, Signed, Supplied, OperatorsFit, AccountsFit, KeysFit, UsersFit, ClustersFit,
         Exportable, OwnKeys, IsExport, Importable, IsCopy, After, Renaming, ClusterRenaming;
    RunKeeps(states, events, i);
    InvOwnKeys(states[i]);
    RunExportable(states, events, i);
    RoundTrip(states[i].db, secrets, id, e, db, n, regenerate);
  }
}
