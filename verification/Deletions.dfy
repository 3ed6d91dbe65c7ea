/** Deleting an operator removes its subtree and nothing else, and a failed attempt leaves no row
    without its owner. */
module Deletions {
  import opened Entities
  import opened Database
  import opened Transitions
  import opened Invariants

  /** The operator at the root of a row below an account. */
  ghost predicate Under(db: Db, accountId: Id, id: Id) {
    accountId in db.accounts && db.accounts[accountId].operatorId == id
  }

  lemma UserLinks(s: State, u: Id)
    requires Inv(s) && u in s.db.users
    ensures var row := s.db.users[u];
            && row.accountId in s.db.accounts
            && (row.scopedKeyId.Some? ==> row.scopedKeyId.value in s.db.keys
                                          && s.db.keys[row.scopedKeyId.value].accountId == row.accountId)
  {
    hide Sound, OperatorsSigned, AccountsSigned, KeysSeeded, Gone;
    assert UserSigned(s.db.accounts, s.db.keys, s.next, s.db.users[u]);
  }

  lemma KeyLinks(s: State, k: Id)
    requires Inv(s) && k in s.db.keys
    ensures s.db.keys[k].accountId in s.db.accounts
  {
    hide Signed;
    assert FitsKey(s.db.accounts.Keys, s.db.keys, s.db.keys[k]);
  }

  /** A successful deletion, row by row: what was under the operator is gone, and every other row is
      still there unchanged - no user of another operator loses its signing key. */
  lemma OperatorDeletedExactly(s: State, id: Id, faults: nat, d: Db, x: Id)
    requires Inv(s) && DeleteOperatorStep(s, id, true, faults, d)
    ensures d.operators == s.db.operators - {id} && d.clusters == s.db.clusters
    ensures x in d.accounts <==> x in s.db.accounts && s.db.accounts[x].operatorId != id
    ensures x in d.keys <==> x in s.db.keys && !Under(s.db, s.db.keys[x].accountId, id)
    ensures x in d.users <==> x in s.db.users && !Under(s.db, s.db.users[x].accountId, id)
    ensures x in d.accounts ==> d.accounts[x] == s.db.accounts[x]
    ensures x in d.keys ==> d.keys[x] == s.db.keys[x]
    ensures x in d.users ==> d.users[x] == s.db.users[x]
  {
    hide Inv, Sound, KeepBelow;
    BelowRows(s.db, s.db.accounts.Keys - AccountsOf(s.db, id), s.db.users.Keys);
    if x in s.db.users { UserLinks(s, x); }
    if x in s.db.keys { KeyLinks(s, x); }
  }

  /** After a failed one, whatever failed: every key and user still has its account, and the rows of
      other operators are untouched. */
  lemma FailedDeletionLeavesNoOrphan(s: State, id: Id, faults: nat, d: Db, x: Id)
    requires Inv(s) && DeleteOperatorStep(s, id, false, faults, d)
    ensures d.operators == s.db.operators && d.clusters == s.db.clusters
    ensures x in d.keys ==> d.keys[x].accountId in d.accounts
    ensures x in d.users ==> d.users[x].accountId in d.accounts
    ensures x in s.db.accounts && s.db.accounts[x].operatorId != id ==>
              x in d.accounts && d.accounts[x] == s.db.accounts[x]
    ensures x in s.db.keys && !Under(s.db, s.db.keys[x].accountId, id) ==> x in d.keys && d.keys[x] == s.db.keys[x]
    ensures x in s.db.users && !Under(s.db, s.db.users[x].accountId, id) ==> x in d.users && d.users[x] == s.db.users[x]
  {
    hide Inv, Sound;
    if x in s.db.users { UserLinks(s, x); }
    if x in s.db.keys { KeyLinks(s, x); }
  }

  /** An operator with a cluster is never deleted, whatever happens; without a fault the attempt still
      empties it, if it has at most 10000 accounts. */
  lemma ClusterBlocksDeletion(s: State, id: Id, ok: bool, faults: nat, d: Db)
    requires Inv(s) && DeleteOperatorStep(s, id, ok, faults, d) && ClustersOf(s.db, id) != {} && id in s.db.operators
    ensures !ok && id in d.operators
    ensures faults == 0 && |AccountsOf(s.db, id)| <= 10000 ==>
              && AccountsOf(d, id) == {}
              && (forall k | k in d.keys :: k in s.db.keys && !Under(s.db, s.db.keys[k].accountId, id))
              && forall u | u in d.users :: u in s.db.users && !Under(s.db, s.db.users[u].accountId, id)
  {
    hide Inv;
    forall a | a in d.accounts && AccountsOf(d, id) == {} ensures !Under(s.db, a, id) {
      assert a !in AccountsOf(d, id);
    }
  }
}
