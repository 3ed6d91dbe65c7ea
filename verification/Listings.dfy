/** What one page of a listing is, in terms of the rows: the newest ones of their owner, newest first. */
module Listings {
  import opened Entities
  import opened Database

  /** As many rows as the limit allows; a limit of 0 allows all. */
  predicate Fills(size: nat, limit: nat, all: nat) {
    size <= all && (limit == 0 ==> size == all) && (limit > 0 ==> size == if all < limit then all else limit)
  }

  lemma NewestKeys(db: Db, accountId: Id, limit: nat, rows: seq<ScopedKey>, ids: seq<Id>)
    requires IsListing(db.keys, KeyTimes(db, accountId), limit, rows, ids)
    ensures forall n | 0 <= n < |rows| ::
              rows[n].accountId == accountId && ids[n] in db.keys && db.keys[ids[n]] == rows[n]
    ensures forall m, n | 0 <= m < n < |rows| :: rows[m].createdAt >= rows[n].createdAt
    ensures forall n, i | 0 <= n < |rows| && i in db.keys && db.keys[i].accountId == accountId && i !in ids ::
              rows[n].createdAt >= db.keys[i].createdAt
    ensures Fills(|rows|, limit, |KeysOf(db.keys, accountId)|) && |ids| == |rows|
  {
    var times := KeyTimes(db, accountId);
    assert times.Keys == KeysOf(db.keys, accountId) && |times| == |times.Keys|;
    forall n, i | 0 <= n < |rows| && i in db.keys && db.keys[i].accountId == accountId && i !in ids
      ensures rows[n].createdAt >= db.keys[i].createdAt
    {
      assert i in times && times[ids[n]] >= times[i];
    }
    forall m, n | 0 <= m < n < |rows| ensures rows[m].createdAt >= rows[n].createdAt {
      assert times[ids[m]] >= times[ids[n]];
    }
  }

  lemma NewestAccounts(db: Db, operatorId: Id, limit: nat, rows: seq<Account>, ids: seq<Id>)
    requires IsListing(db.accounts, AccountTimes(db, operatorId), limit, rows, ids)
    ensures forall n | 0 <= n < |rows| ::
              rows[n].operatorId == operatorId && ids[n] in db.accounts && db.accounts[ids[n]] == rows[n]
    ensures forall m, n | 0 <= m < n < |rows| :: rows[m].createdAt >= rows[n].createdAt
    ensures forall n, i | 0 <= n < |rows| && i in db.accounts && db.accounts[i].operatorId == operatorId && i !in ids ::
              rows[n].createdAt >= db.accounts[i].createdAt
    ensures Fills(|rows|, limit, |AccountsOf(db, operatorId)|) && |ids| == |rows|
  {
    var times := AccountTimes(db, operatorId);
    assert times.Keys == AccountsOf(db, operatorId) && |times| == |times.Keys|;
    forall n, i | 0 <= n < |rows| && i in db.accounts && db.accounts[i].operatorId == operatorId && i !in ids
      ensures rows[n].createdAt >= db.accounts[i].createdAt
    {
      assert i in times && times[ids[n]] >= times[i];
    }
    forall m, n | 0 <= m < n < |rows| ensures rows[m].createdAt >= rows[n].createdAt {
      assert times[ids[m]] >= times[ids[n]];
    }
  }

  lemma NewestUsers(db: Db, accountId: Id, limit: nat, rows: seq<User>, ids: seq<Id>)
    requires IsListing(db.users, UserTimes(db, accountId), limit, rows, ids)
    ensures forall n | 0 <= n < |rows| ::
              rows[n].accountId == accountId && ids[n] in db.users && db.users[ids[n]] == rows[n]
    ensures forall m, n | 0 <= m < n < |rows| :: rows[m].createdAt >= rows[n].createdAt
    ensures forall n, i | 0 <= n < |rows| && i in db.users && db.users[i].accountId == accountId && i !in ids ::
              rows[n].createdAt >= db.users[i].createdAt
    ensures Fills(|rows|, limit, |UsersOf(db, accountId)|) && |ids| == |rows|
  {
    var times := UserTimes(db, accountId);
    assert times.Keys == UsersOf(db, accountId) && |times| == |times.Keys|;
    forall n, i | 0 <= n < |rows| && i in db.users && db.users[i].accountId == accountId && i !in ids
      ensures rows[n].createdAt >= db.users[i].createdAt
    {
      assert i in times && times[ids[n]] >= times[i];
    }
    forall m, n | 0 <= m < n < |rows| ensures rows[m].createdAt >= rows[n].createdAt {
      assert times[ids[m]] >= times[ids[n]];
    }
  }

  lemma NewestClusters(db: Db, operatorId: Id, limit: nat, rows: seq<Cluster>, ids: seq<Id>)
    requires IsListing(db.clusters, ClusterTimes(db, operatorId), limit, rows, ids)
    ensures forall n | 0 <= n < |rows| ::
              rows[n].operatorId == operatorId && ids[n] in db.clusters && db.clusters[ids[n]] == rows[n]
    ensures forall m, n | 0 <= m < n < |rows| :: rows[m].createdAt >= rows[n].createdAt
    ensures forall n, i | 0 <= n < |rows| && i in db.clusters && db.clusters[i].operatorId == operatorId && i !in ids ::
              rows[n].createdAt >= db.clusters[i].createdAt
    ensures Fills(|rows|, limit, |ClustersOf(db, operatorId)|) && |ids| == |rows|
  {
    var times := ClusterTimes(db, operatorId);
    assert times.Keys == ClustersOf(db, operatorId) && |times| == |times.Keys|;
    forall n, i | 0 <= n < |rows| && i in db.clusters && db.clusters[i].operatorId == operatorId && i !in ids
      ensures rows[n].createdAt >= db.clusters[i].createdAt
    {
      assert i in times && times[ids[n]] >= times[i];
    }
    forall m, n | 0 <= m < n < |rows| ensures rows[m].createdAt >= rows[n].createdAt {
      assert times[ids[m]] >= times[ids[n]];
    }
  }
}
