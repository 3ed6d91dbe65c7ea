/** What the calls on clusters store. */
module ClusterOutcomes {
  import opened Entities
  import opened Database
  import opened Transitions
  import opened Invariants
  import opened Encryption
  import opened Sealing
  import opened Outcomes

  /** A new cluster is what the request asks for, under the system account that its operator designates;
      its credentials are those of a user "system" of that account, or are missing. */
  lemma CreatedCluster(s: State, req: CreateClusterRequest, v: Vault, nonce: Bytes, now: int, faults: nat, d: Db)
    returns (id: Id)
    requires Inv(s) && CreateClusterStep(s, req, v, nonce, now, true, faults, d)
    ensures id !in s.db.clusters && id in d.clusters && OnlyRow(s.db.clusters, d.clusters, id)
    ensures d == s.db.(clusters := d.clusters) && req.operatorId in s.db.operators
    ensures var c := d.clusters[id];
            && c.operatorId == req.operatorId && c.name == req.name && c.description == req.description
            && c.serverUrls == req.serverUrls && c.skipVerifyTls == req.skipVerifyTls && c.createdAt == now
            && c.systemAccount == s.db.operators[req.operatorId].systemAccount
            && (c.creds != "" ==> SealedForSystemUser(s.db, v, nonce, c))
            && (faults == 0 && c.creds == "" ==> NoSystemUser(s.db, v, nonce, c))
  {
    hide Schema, Signed, Sealed;
    id := s.next;
    forall u | u in s.db.users && Sealed(v, nonce, s.db.users[u]).Ok?
      ensures Sealed(v, nonce, s.db.users[u]).value != ""
    {
      SealedNotEmpty(v, nonce, s.db.users[u]);
    }
  }

  lemma SealedNotEmpty(v: Vault, nonce: Bytes, u: User)
    requires Sealed(v, nonce, u).Ok?
    ensures Sealed(v, nonce, u).value != ""
  {
    hide UserCredentials;
    assert "encrypted:" != "";
  }

  ghost predicate SealedForSystemUser(db: Db, v: Vault, nonce: Bytes, c: Cluster) {
    exists u | u in db.users && db.users[u].name == "system" && db.users[u].accountId in db.accounts ::
      && db.accounts[db.users[u].accountId].publicKey == c.systemAccount
      && Ok(c.creds) == Sealed(v, nonce, db.users[u])
  }

  /** There is no such user, or none whose credentials could be made. */
  ghost predicate NoSystemUser(db: Db, v: Vault, nonce: Bytes, c: Cluster) {
    forall u | u in db.users && db.users[u].name == "system" && db.users[u].accountId in db.accounts ::
      db.accounts[db.users[u].accountId].publicKey == c.systemAccount ==> !(Sealed(v, nonce, db.users[u]).Ok?)
  }

  /** An update stores the fields it gives and keeps the others, the credentials among them. */
  lemma UpdatedCluster(s: State, id: Id, req: UpdateClusterRequest, faults: nat, d: Db)
    requires Inv(s) && UpdateClusterStep(s, id, req, true, faults, d)
    ensures id in s.db.clusters && id in d.clusters
    ensures OnlyRow(s.db.clusters, d.clusters, id) && d == s.db.(clusters := d.clusters)
    ensures var c, c' := s.db.clusters[id], d.clusters[id];
            && Takes(req.name, c.name, c'.name) && Takes(req.description, c.description, c'.description)
            && Takes(req.serverUrls, c.serverUrls, c'.serverUrls)
            && Takes(req.systemAccount, c.systemAccount, c'.systemAccount)
            && Takes(req.skipVerifyTls, c.skipVerifyTls, c'.skipVerifyTls)
            && c'.id == c.id && c'.operatorId == c.operatorId && c'.creds == c.creds && c'.createdAt == c.createdAt
  {
    hide Supplied, OperatorsFit, AccountsFit, KeysFit, UsersFit, Signed, ClusterTaken;
    assert FitsCluster(s.db.operators.Keys, s.db.clusters, s.db.clusters[id]);
  }

  /** New credentials are the only thing their update changes. */
  lemma UpdatedCredentials(s: State, id: Id, userId: Id, v: Vault, nonce: Bytes, faults: nat, d: Db)
    requires Inv(s) && ClusterCredentialsStep(s, id, userId, v, nonce, true, faults, d)
    ensures id in s.db.clusters && id in d.clusters && userId in s.db.users
    ensures OnlyRow(s.db.clusters, d.clusters, id) && d == s.db.(clusters := d.clusters)
    ensures d.clusters[id] == s.db.clusters[id].(creds := d.clusters[id].creds)
    ensures Ok(d.clusters[id].creds) == Sealed(v, nonce, s.db.users[userId])
  {
    hide Supplied, OperatorsFit, AccountsFit, KeysFit, UsersFit, Signed, Sealed;
    assert FitsCluster(s.db.operators.Keys, s.db.clusters, s.db.clusters[id]);
  }

  lemma DeletedCluster(s: State, id: Id, ok: bool, faults: nat, d: Db)
    requires DeleteClusterStep(s, id, ok, faults, d)
    ensures ok ==> id in s.db.clusters
    ensures d == s.db.(clusters := if ok then s.db.clusters - {id} else s.db.clusters)
  {
    if ok {
      assert d.clusters == s.db.clusters - {id};
    }
  }
}
