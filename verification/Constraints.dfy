/** The unique indexes and foreign keys of the schema, table by table, and that every run respects them. */
module Constraints {
  import opened Entities
  import opened Database
  import opened Transitions
  import opened Invariants
  import opened Runs

  ghost predicate OperatorConstraints(db: Db) {
    && (forall i | i in db.operators :: db.operators[i].id == i)
    && forall i, j | i in db.operators && j in db.operators && i != j ::
         db.operators[i].name != db.operators[j].name && db.operators[i].publicKey != db.operators[j].publicKey
  }

  ghost predicate AccountConstraints(db: Db) {
    && (forall i | i in db.accounts :: db.accounts[i].id == i && db.accounts[i].operatorId in db.operators)
    && forall i, j | i in db.accounts && j in db.accounts && i != j ::
         && db.accounts[i].publicKey != db.accounts[j].publicKey
         && (db.accounts[i].operatorId, db.accounts[i].name) != (db.accounts[j].operatorId, db.accounts[j].name)
  }

  ghost predicate KeyConstraints(db: Db) {
    && (forall i | i in db.keys :: db.keys[i].id == i && db.keys[i].accountId in db.accounts)
    && forall i, j | i in db.keys && j in db.keys && i != j ::
         && db.keys[i].publicKey != db.keys[j].publicKey
         && (db.keys[i].accountId, db.keys[i].name) != (db.keys[j].accountId, db.keys[j].name)
  }

  ghost predicate UserConstraints(db: Db) {
    && (forall i | i in db.users ::
          && db.users[i].id == i && db.users[i].accountId in db.accounts
          && (db.users[i].scopedKeyId == None || db.users[i].scopedKeyId.value in db.keys))
    && forall i, j | i in db.users && j in db.users && i != j ::
         && db.users[i].publicKey != db.users[j].publicKey
         && (db.users[i].accountId, db.users[i].name) != (db.users[j].accountId, db.users[j].name)
  }

  ghost predicate ClusterConstraints(db: Db) {
    && (forall i | i in db.clusters :: db.clusters[i].id == i && db.clusters[i].operatorId in db.operators)
    && forall i, j | i in db.clusters && j in db.clusters && i != j :: db.clusters[i].name != db.clusters[j].name
  }

  ghost predicate Constrained(db: Db) {
    && OperatorConstraints(db) && AccountConstraints(db) && KeyConstraints(db) && UserConstraints(db)
    && ClusterConstraints(db)
  }

  lemma OperatorsIff(db: Db)
    ensures OperatorsFit(db.operators) <==> OperatorConstraints(db)
  {
    if OperatorsFit(db.operators) {
      forall i, j | i in db.operators && j in db.operators && i != j
        ensures db.operators[i].name != db.operators[j].name && db.operators[i].publicKey != db.operators[j].publicKey
      {
        assert FitsOperator(db.operators, db.operators[j]);
      }
    }
  }

  lemma AccountsIff(db: Db)
    ensures AccountsFit(db.operators.Keys, db.accounts) <==> AccountConstraints(db)
  {
    if AccountsFit(db.operators.Keys, db.accounts) {
      forall i, j | i in db.accounts && j in db.accounts && i != j
        ensures db.accounts[i].publicKey != db.accounts[j].publicKey
        ensures (db.accounts[i].operatorId, db.accounts[i].name) != (db.accounts[j].operatorId, db.accounts[j].name)
      {
        assert FitsAccount(db.operators.Keys, db.accounts, db.accounts[j]);
      }
    }
  }

  lemma KeysIff(db: Db)
    ensures KeysFit(db.accounts.Keys, db.keys) <==> KeyConstraints(db)
  {
    if KeysFit(db.accounts.Keys, db.keys) {
      forall i, j | i in db.keys && j in db.keys && i != j
        ensures db.keys[i].publicKey != db.keys[j].publicKey
        ensures (db.keys[i].accountId, db.keys[i].name) != (db.keys[j].accountId, db.keys[j].name)
      {
        assert FitsKey(db.accounts.Keys, db.keys, db.keys[j]);
      }
    }
  }

  lemma UsersIff(db: Db)
    ensures UsersFit(db.accounts.Keys, db.keys.Keys, db.users) <==> UserConstraints(db)
  {
    if UsersFit(db.accounts.Keys, db.keys.Keys, db.users) {
      forall i, j | i in db.users && j in db.users && i != j
        ensures db.users[i].publicKey != db.users[j].publicKey
        ensures (db.users[i].accountId, db.users[i].name) != (db.users[j].accountId, db.users[j].name)
      {
        assert FitsUser(db.accounts.Keys, db.keys.Keys, db.users, db.users[j]);
      }
    }
  }

  lemma ClustersIff(db: Db)
    ensures ClustersFit(db.operators.Keys, db.clusters) <==> ClusterConstraints(db)
  {
    if ClustersFit(db.operators.Keys, db.clusters) {
      forall i, j | i in db.clusters && j in db.clusters && i != j
        ensures db.clusters[i].name != db.clusters[j].name
      {
        assert FitsCluster(db.operators.Keys, db.clusters, db.clusters[j]);
      }
    }
  }

  /** The constraints that each statement is checked against, row by row, are those of the schema. */
  lemma SchemaIff(db: Db)
    ensures Schema(db) <==> Constrained(db)
  {
    hide OperatorsFit, AccountsFit, KeysFit, UsersFit, ClustersFit, OperatorConstraints, AccountConstraints,
         KeyConstraints, UserConstraints, ClusterConstraints;
    OperatorsIff(db);
    AccountsIff(db);
    KeysIff(db);
    UsersIff(db);
    ClustersIff(db);
  }

  /** Every database of every run meets them, whatever fails. */
  lemma RunConstrained(states: seq<State>, events: seq<Event>, n: nat)
    requires |states| == |events| + 1 && n <= |events| && IsRun(states, events)
    ensures Constrained(states[n].db)
  {
    hide Step, Schema, Constrained, Signed;
    RunKeeps(states, events, n);
    SchemaIff(states[n].db);
  }
}
