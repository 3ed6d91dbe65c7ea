/** What an import stores of each row of the file, for every file and as far as the import came. */
module ImportOutcomes {
  import opened Entities
  import opened Database
  import opened ExportService
  import opened ImportService
  import opened ImportTheorems
  import opened Outcomes
  import opened AccountOutcomes

  /** Position `j` holds the last occurrence of `id` among the first `q`. */
  predicate LastAt(ids: seq<Id>, q: nat, j: int, id: Id)
    requires q <= |ids|
  {
    0 <= j < q && ids[j] == id && forall l | j < l < q :: ids[l] != id
  }

  predicate Absent(ids: seq<Id>, q: nat, id: Id)
    requires q <= |ids|
  {
    forall j | 0 <= j < q :: ids[j] != id
  }

  /** A lookup finds the new id of the last row with that old id, of whatever kind, or nothing. */
  lemma {:induction false} LookupDecides(e: Export, n: nat, q: nat, id: Id)
    requires q <= |Sources(e)|
    ensures forall j | LastAt(Sources(e), q, j, id) :: id in IdMapAt(e, n, q) && IdMapAt(e, n, q)[id] == n + j
    ensures Absent(Sources(e), q, id) ==> id !in IdMapAt(e, n, q)
    decreases q
  {
    hide Sources, IdMapAt;
    if q > 0 {
      IdMapNext(e, n, q - 1);
      LookupDecides(e, n, q - 1, id);
      forall j | LastAt(Sources(e), q, j, id) ensures id in IdMapAt(e, n, q) && IdMapAt(e, n, q)[id] == n + j {
        assert j < q - 1 ==> LastAt(Sources(e), q - 1, j, id) && Sources(e)[q - 1] != id;
      }
    } else {
      NothingRenamed(e, n);
    }
  }

  lemma NothingRenamed(e: Export, n: nat)
    ensures IdMapAt(e, n, 0) == map[]
  {
  }

  /** A reference to `id`, looked up when `q` rows are renamed, becomes `found`; an unknown one stays. */
  ghost predicate Relinked(e: Export, n: nat, q: nat, id: Id, found: Id)
    requires q <= |Sources(e)|
  {
    && (forall j | LastAt(Sources(e), q, j, id) :: found == n + j)
    && (Absent(Sources(e), q, id) ==> found == id)
  }

  lemma ImportedOperator(db: Db, e: Export, n: nat, regenerate: bool, g: Progress) returns (id: Id)
    requires InOrder(e, g) && Fitted(db, e, n, regenerate, g) && g.operators == 1
    ensures var d := After(db, e, n, regenerate, g);
            && id !in db.operators && id == (if regenerate then n else e.operator.id)
            && d.operators == db.operators[id := e.operator.(id := id)]
  {
    hide Stored;
    id := OperatorTarget(e, n, regenerate);
  }

  lemma ImportedAccount(db: Db, e: Export, n: nat, regenerate: bool, g: Progress, i: nat) returns (id: Id)
    requires InOrder(e, g) && Fitted(db, e, n, regenerate, g) && i < g.accounts
    ensures var d, a := After(db, e, n, regenerate, g), e.accounts[i];
            && id !in db.accounts && id in d.accounts && (if regenerate then id >= n else id == a.id)
            && var a' := d.accounts[id];
               && a' == a.(id := id, operatorId := a'.operatorId, jetStream := a'.jetStream)
               && a'.operatorId == (if regenerate then n else e.operator.id) && AllDefaulted(a.jetStream, a'.jetStream)
  {
    hide Fitted, After, KeyTargets, UserTargets, ClusterTargets, KeyRows, UserRows, ClusterRows;
    FittedGrown(db, e, n, regenerate, g);
    SameLengths(e, n, regenerate);
    id := AccountTargets(e, n, regenerate)[..g.accounts][i];
    assert AccountRows(e, n, regenerate)[..g.accounts][i] == AccountRows(e, n, regenerate)[i];
  }

  lemma ImportedKey(db: Db, e: Export, n: nat, regenerate: bool, g: Progress, i: nat) returns (id: Id)
    requires InOrder(e, g) && Fitted(db, e, n, regenerate, g) && i < g.keys
    ensures |Sources(e)| >= 2 + |e.accounts| + i
    ensures var d, k := After(db, e, n, regenerate, g), e.keys[i];
            && id !in db.keys && id in d.keys && (if regenerate then id >= n else id == k.id)
            && var k' := d.keys[id];
               && k' == k.(id := id, accountId := k'.accountId, responseTtl := k'.responseTtl)
               && CutOff(k.responseTtl, k'.responseTtl)
               && (regenerate ==> Relinked(e, n, 2 + |e.accounts| + i, k.accountId, k'.accountId))
               && (!regenerate ==> k'.accountId == k.accountId)
  {
    hide Fitted, After, AccountTargets, UserTargets, ClusterTargets, AccountRows, UserRows, ClusterRows, IdMapAt,
         LastAt, Absent, CutOff, WholeSeconds;
    FittedGrown(db, e, n, regenerate, g);
    SameLengths(e, n, regenerate);
    id := KeyTargets(e, n, regenerate)[..g.keys][i];
    assert KeyRows(e, n, regenerate)[..g.keys][i] == KeyRows(e, n, regenerate)[i];
    StoredCutOff(e.keys[i].responseTtl, KeyRow(KeyCopy(e, n, regenerate, i)).responseTtl);
    LookupDecides(e, n, 2 + |e.accounts| + i, e.keys[i].accountId);
  }

  /** With new ids, a scoped key that is not known by then is dropped; with the old ones it stays. */
  lemma ImportedUser(db: Db, e: Export, n: nat, regenerate: bool, g: Progress, i: nat) returns (id: Id)
    requires InOrder(e, g) && Fitted(db, e, n, regenerate, g) && i < g.users
    ensures |Sources(e)| >= 2 + |e.accounts| + |e.keys| + i
    ensures var d, u, q := After(db, e, n, regenerate, g), e.users[i], 2 + |e.accounts| + |e.keys| + i;
            && id !in db.users && id in d.users && (if regenerate then id >= n else id == u.id)
            && var u' := d.users[id];
               && u' == u.(id := id, accountId := u'.accountId, scopedKeyId := u'.scopedKeyId)
               && (!regenerate ==> u' == u)
               && (regenerate ==> Relinked(e, n, q, u.accountId, u'.accountId))
               && (regenerate && u.scopedKeyId.None? ==> u'.scopedKeyId.None?)
               && (regenerate && u.scopedKeyId.Some? ==>
                     && (forall j | LastAt(Sources(e), q, j, u.scopedKeyId.value) :: u'.scopedKeyId == Some(n + j))
                     && (Absent(Sources(e), q, u.scopedKeyId.value) ==> u'.scopedKeyId.None?))
  {
    hide Fitted, After, AccountTargets, KeyTargets, ClusterTargets, AccountRows, KeyRows, ClusterRows, IdMapAt, LastAt,
         Absent;
    FittedGrown(db, e, n, regenerate, g);
    SameLengths(e, n, regenerate);
    id := UserTargets(e, n, regenerate)[..g.users][i];
    assert UserRows(e, n, regenerate)[..g.users][i] == UserRows(e, n, regenerate)[i];
    var q := 2 + |e.accounts| + |e.keys| + i;
    LookupDecides(e, n, q, e.users[i].accountId);
    if e.users[i].scopedKeyId.Some? {
      LookupDecides(e, n, q, e.users[i].scopedKeyId.value);
    }
  }

  lemma ImportedCluster(db: Db, e: Export, n: nat, regenerate: bool, g: Progress, i: nat) returns (id: Id)
    requires InOrder(e, g) && Fitted(db, e, n, regenerate, g) && i < g.clusters
    ensures var d, c := After(db, e, n, regenerate, g), e.clusters[i];
            && id !in db.clusters && id in d.clusters && (if regenerate then id >= n else id == c.id)
            && d.clusters[id] == c.(id := id, operatorId := if regenerate then n else e.operator.id,
                                    skipVerifyTls := false)
  {
    hide Fitted, After, AccountTargets, KeyTargets, UserTargets, AccountRows, KeyRows, UserRows;
    FittedGrown(db, e, n, regenerate, g);
    SameLengths(e, n, regenerate);
    id := ClusterTargets(e, n, regenerate)[..g.clusters][i];
    assert ClusterRows(e, n, regenerate)[..g.clusters][i] == ClusterRows(e, n, regenerate)[i];
  }

  /** Whatever is imported, however far, no row that was there changes. */
  lemma ImportOnlyAdds(db: Db, e: Export, n: nat, regenerate: bool, g: Progress)
    requires InOrder(e, g) && Fitted(db, e, n, regenerate, g)
    ensures var d := After(db, e, n, regenerate, g);
            && (forall x | x in db.operators :: x in d.operators && d.operators[x] == db.operators[x])
            && (forall x | x in db.accounts :: x in d.accounts && d.accounts[x] == db.accounts[x])
            && (forall x | x in db.keys :: x in d.keys && d.keys[x] == db.keys[x])
            && (forall x | x in db.users :: x in d.users && d.users[x] == db.users[x])
            && (forall x | x in db.clusters :: x in d.clusters && d.clusters[x] == db.clusters[x])
  {
    hide AccountTargets, KeyTargets, UserTargets, ClusterTargets, AccountRows, KeyRows, UserRows, ClusterRows, Stored;
    FittedGrown(db, e, n, regenerate, g);
  }

  /** An import needs version 1.0 of the format and a name that no stored operator has. */
  lemma ImportNeeds(db: Db, e: Export, n: nat, regenerate: bool)
    requires Importable(db, e, n, regenerate)
    ensures e.version == "1.0" && forall o | o in db.operators :: db.operators[o].name != e.operator.name
  {
    hide Fitted;
  }
}
