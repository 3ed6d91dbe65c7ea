/** Runs of the services and of one cluster's synchronisations and deletions together: what can be on
    the resolver, and whom a server that reads it accepts. */
module ResolverRuns {
  import opened Entities
  import opened Database
  import opened Repositories
  import opened Jwts
  import opened Transitions
  import opened Invariants
  import opened Runs
  import opened Sealing
  import opened Coherence
  import opened Trust
  import opened ClusterSync
  import opened SyncTheorems
  import opened ClusterCredentials

  datatype World = World(state: State, entries: Entries)

  /** `page`, `ids` and `gone` are what a synchronisation read and pruned; one that could not start has
      no result. */
  datatype Act =
    | Call(event: Event)
    | Sync(prune: bool, net: Network, result: Option<SyncResult>, page: seq<Account>, ids: seq<Id>, gone: set<PubKey>)
    | Remove(key: PubKey, deletion: Deletion, ok: bool)

  ghost predicate Syncs(id: Id, db: Db, before: Entries, act: Act, after: Entries)
    requires act.Sync?
  {
    if act.result.None? then after == before
    else
      && id in db.clusters
      && IsListing(db.accounts, AccountTimes(db, db.clusters[id].operatorId), PAGE, act.page, act.ids)
      && IsSync(before, act.page, db.clusters[id].systemAccount, act.prune, act.net, act.result.value, act.gone, after)
  }

  /** One act on cluster `id`: a service call leaves the resolver alone, a request to the resolver
      leaves the database alone. */
  ghost predicate Acts(id: Id, w: World, act: Act, w': World) {
    match act
    case Call(e) => Step(w.state, e, w'.state) && w'.entries == w.entries
    case Sync(_, _, _, _, _, _) => w'.state == w.state && Syncs(id, w.state.db, w.entries, act, w'.entries)
    case Remove(key, d, ok) => w'.state == w.state && IsRemoval(w.state.db, id, key, d, w.entries, ok, w'.entries)
  }

  /** Every synchronisation is such an act; and with a healthy resolver, a pruning one that meets no fault
      converges. */
  method Synchronise(store: Store, resolver: Resolver, v: Vault, id: Id, prune: bool, net: Network)
    returns (r: Result<SyncResult>, ghost act: Act)
    requires store.Valid()
    modifies store`plan, store`faults, resolver
    ensures store.Valid() && act.Sync? && (act.result.Some? <==> r.Ok?)
    ensures Acts(id, World(State(old(store.db), old(store.next)), old(resolver.entries)), act,
                 World(State(store.db, store.next), resolver.entries))
    ensures prune && store.faults == old(store.faults) && CanOpen(store.db, v, id)
            && Healthy(net, old(resolver.entries))
            && SmallAndSigned(State(store.db, store.next), id) ==>
              r.Ok? && var c := store.db.clusters[id];
                       Converged(store.db, c.operatorId, c.systemAccount, old(resolver.entries), resolver.entries)
  {
    hide Schema, Supplied, IsSync, IsListing, OpenWith, Converged, Healthy, SmallAndSigned;
    ghost var page, ids, gone;
    r, page, ids, gone := SyncCluster(store, resolver, v, id, prune, net);
    act := Sync(prune, net, if r.Ok? then Some(r.value) else None, page, ids, gone);
    if prune && store.faults == old(store.faults) && CanOpen(store.db, v, id) && Healthy(net, old(resolver.entries))
       && SmallAndSigned(State(store.db, store.next), id) {
      SmallSigns(State(store.db, store.next), id);
      HealthyConverges(State(store.db, store.next), id, old(resolver.entries), page, ids, net, r.value, gone,
                       resolver.entries);
    }
  }

  /** The cluster's operator has at most one page of accounts, in a store that some run left. */
  ghost predicate SmallAndSigned(s: State, id: Id) {
    Inv(s) && id in s.db.clusters && |AccountsOf(s.db, s.db.clusters[id].operatorId)| <= PAGE
  }

  lemma SmallSigns(s: State, id: Id)
    requires SmallAndSigned(s, id)
    ensures OperatorCanSign(s.db, id) && AccountsFit(s.db.operators.Keys, s.db.accounts)
    ensures forall a | a in AccountsOf(s.db, s.db.clusters[id].operatorId) :: Pushable(s.db.accounts[a])
  {
    hide Supplied, OperatorsFit, AccountsFit, KeysFit, UsersFit, KeysSeeded, UsersSigned;
    assert FitsCluster(s.db.operators.Keys, s.db.clusters, s.db.clusters[id]);
    forall a | a in AccountsOf(s.db, s.db.clusters[id].operatorId) ensures Pushable(s.db.accounts[a]) {
      assert AccountSigned(s.db.operators, s.db.accounts[a]);
    }
  }

  lemma HealthyConverges(s: State, id: Id, before: Entries, page: seq<Account>, ids: seq<Id>, net: Network,
                         result: SyncResult, gone: set<PubKey>, after: Entries)
    requires SmallAndSigned(s, id) && Healthy(net, before)
    requires IsListing(s.db.accounts, AccountTimes(s.db, s.db.clusters[id].operatorId), PAGE, page, ids)
    requires IsSync(before, page, s.db.clusters[id].systemAccount, true, net, result, gone, after)
    requires var errors := ListErrors(true, net) + PushErrors(page, net);
             result.errors == errors || (result.errors == errors + [DeleteFailed] && DeletionFails(net.deletion.reply))
    ensures var c := s.db.clusters[id]; Converged(s.db, c.operatorId, c.systemAccount, before, after)
  {
    hide SmallAndSigned, IsListing, IsSync, Converged, PushErrors, Reliable, AccountsFit;
    SmallIs(s, id);
    var c := s.db.clusters[id];
    SmallSigns(s, id);
    NoPushErrors(page, net);
    ReliableLists(net, before);
    ReliableConverges(s.db, c.operatorId, c.systemAccount, before, page, ids, net, result, gone, after);
  }

  lemma SmallIs(s: State, id: Id)
    requires SmallAndSigned(s, id)
    ensures Inv(s) && id in s.db.clusters && |AccountsOf(s.db, s.db.clusters[id].operatorId)| <= PAGE
  {
    hide Inv;
  }

  lemma ReliableLists(net: Network, entries: Entries)
    requires Reliable(net, entries)
    ensures net.listing.Some?
  {
  }

  /** Every removal by hand is such an act. */
  method RemoveByHand(store: Store, resolver: Resolver, v: Vault, id: Id, key: PubKey, d: Deletion)
    returns (r: Result<()>, ghost act: Act)
    requires store.Valid()
    modifies store`plan, store`faults, resolver
    ensures store.Valid() && act == Remove(key, d, r.Ok?)
    ensures Acts(id, World(State(old(store.db), old(store.next)), old(resolver.entries)), act,
                 World(State(store.db, store.next), resolver.entries))
  {
    hide Schema, Supplied, IsRemoval, OpenWith;
    r := DeleteResolverAccount(store, resolver, v, id, key, d);
    act := Remove(key, d, r.Ok?);
  }

  /** A history starts with an empty database and any resolver. */
  ghost predicate IsHistory(id: Id, worlds: seq<World>, acts: seq<Act>) {
    && |worlds| == |acts| + 1 && worlds[0].state.db == EMPTY
    && forall i | 0 <= i < |acts| :: Acts(id, worlds[i], acts[i], worlds[i + 1])
  }

  lemma ActAt(id: Id, worlds: seq<World>, acts: seq<Act>, i: nat)
    requires IsHistory(id, worlds, acts) && i < |acts|
    ensures Acts(id, worlds[i], acts[i], worlds[i + 1])
  {
    hide Acts;
  }

  lemma {:induction false} HistoryKeeps(id: Id, worlds: seq<World>, acts: seq<Act>, n: nat)
    requires IsHistory(id, worlds, acts) && n <= |acts|
    ensures Inv(worlds[n].state)
  {
    hide Inv, Step, Syncs, IsRemoval;
    if n == 0 {
      EmptyKeeps(worlds[0].state);
    } else {
      HistoryKeeps(id, worlds, acts, n - 1);
      ActAt(id, worlds, acts, n - 1);
      if acts[n - 1].Call? {
        StepKeeps(worlds[n - 1].state, acts[n - 1].event, worlds[n].state);
      }
    }
  }

  /** While the cluster is there, this is its system account. */
  predicate SystemIs(db: Db, id: Id, system: PubKey) {
    id in db.clusters ==> db.clusters[id].systemAccount == system
  }

  /** Some account of the cluster's operator had this key and this JWT. */
  ghost predicate InDatabaseOf(db: Db, id: Id, k: PubKey, jwt: Jwt) {
    && id in db.clusters
    && exists a | a in AccountsOf(db, db.clusters[id].operatorId) ::
         db.accounts[a].publicKey == k && db.accounts[a].jwt == jwt
  }

  /** The page of a synchronisation holds rows of the database. */
  lemma LandedIsStored(db: Db, operatorId: Id, page: seq<Account>, ids: seq<Id>, k: PubKey)
    requires AccountsFit(db.operators.Keys, db.accounts)
    requires IsListing(db.accounts, AccountTimes(db, operatorId), PAGE, page, ids) && k in ByKey(page)
    ensures exists a | a in AccountsOf(db, operatorId) ::
              db.accounts[a].publicKey == k && db.accounts[a].jwt == ByKey(page)[k].jwt
  {
    hide AccountsFit;
    PageKeys(db, operatorId, page, ids, k);
    var a :| a in Elements(ids) && db.accounts[a].publicKey == k;
    assert a in AccountTimes(db, operatorId);
  }

  /** A synchronisation that ran and had this key on its page. */
  predicate Pushed(act: Act, k: PubKey) {
    act.Sync? && act.result.Some? && k in ByKey(act.page)
  }

  /** A synchronisation spares the system key and adds only what the database has. */
  lemma SyncSafe(id: Id, db: Db, before: Entries, act: Act, after: Entries, k: PubKey)
    requires act.Sync? && Syncs(id, db, before, act, after) && AccountsFit(db.operators.Keys, db.accounts)
    ensures id in db.clusters && k == db.clusters[id].systemAccount && k in before ==> k in after
    ensures k in after ==> || (k in before && after[k] == before[k])
                           || (Pushed(act, k) && InDatabaseOf(db, id, k, after[k]))
  {
    hide AccountsFit, IsListing, ByKey, Stale, Reported, PushErrors;
    if act.result.Some? {
      var cluster := db.clusters[id];
      var listed := if act.prune && act.net.listing.Some? then act.net.listing.value else [];
      StaleIff(listed, ByKey(act.page).Keys, cluster.systemAccount, k);
      if k in ByKey(act.page) {
        LandedIsStored(db, cluster.operatorId, act.page, act.ids, k);
      }
    }
  }

  ghost predicate HeldByDatabase(id: Id, worlds: seq<World>, acts: seq<Act>, n: nat, k: PubKey, jwt: Jwt)
    requires n <= |acts| < |worlds|
  {
    exists i | 0 <= i < n :: Pushed(acts[i], k) && InDatabaseOf(worlds[i].state.db, id, k, jwt)
  }

  /** Over every history of service calls, synchronisations and removals, whatever fails and whatever is
      answered: while the cluster's system account is this key, the key never leaves the resolver, and
      every entry was there at first or is a JWT that the database held for that key when a
      synchronisation with the key on its page ran. */
  lemma {:induction false} ResolverSafe(id: Id, system: PubKey, worlds: seq<World>, acts: seq<Act>, n: nat)
    requires |worlds| == |acts| + 1 && n <= |acts|
    requires forall i | 0 <= i < n :: SystemIs(worlds[i].state.db, id, system)
    requires IsHistory(id, worlds, acts)
    ensures system in worlds[0].entries ==> system in worlds[n].entries
    ensures forall k | k in worlds[n].entries ::
              || (k in worlds[0].entries && worlds[n].entries[k] == worlds[0].entries[k])
              || HeldByDatabase(id, worlds, acts, n, k, worlds[n].entries[k])
  {
    hide Step, Inv, Syncs, InDatabaseOf, Pushed;
    if n > 0 {
      var w, act, w' := worlds[n - 1], acts[n - 1], worlds[n];
      ResolverSafe(id, system, worlds, acts, n - 1);
      ActAt(id, worlds, acts, n - 1);
      HistoryKeeps(id, worlds, acts, n - 1);
      assert SystemIs(worlds[n - 1].state.db, id, system);
      ActSafe(id, system, w, act, w', system);
      forall k | k in w'.entries
        ensures || (k in worlds[0].entries && w'.entries[k] == worlds[0].entries[k])
                || HeldByDatabase(id, worlds, acts, n, k, w'.entries[k])
      {
        ActSafe(id, system, w, act, w', k);
        if k in w.entries && w.entries[k] == w'.entries[k] && HeldByDatabase(id, worlds, acts, n - 1, k, w.entries[k]) {
          var i :| 0 <= i < n - 1 && Pushed(acts[i], k) && InDatabaseOf(worlds[i].state.db, id, k, w.entries[k]);
        }
      }
    }
  }

  lemma ActSafe(id: Id, system: PubKey, w: World, act: Act, w': World, k: PubKey)
    requires Inv(w.state) && Acts(id, w, act, w') && SystemIs(w.state.db, id, system)
    ensures k == system && k in w.entries ==> k in w'.entries
    ensures k in w'.entries ==> || (k in w.entries && w'.entries[k] == w.entries[k])
                                || (Pushed(act, k) && InDatabaseOf(w.state.db, id, k, w'.entries[k]))
  {
    hide Step, Signed, Supplied, OperatorsFit, AccountsFit, KeysFit, UsersFit, ClustersFit, InDatabaseOf, IsSync,
         IsListing;
    if act.Sync? {
      SyncSafe(id, w.state.db, w.entries, act, w'.entries, k);
    }
  }

  /** The system account of a cluster stays the same until a call gives it another. */
  lemma {:induction false} SystemKept(id: Id, system: PubKey, worlds: seq<World>, acts: seq<Act>, from: nat, n: nat)
    requires |worlds| == |acts| + 1 && from <= n <= |acts|
    requires id in worlds[from].state.db.clusters && SystemIs(worlds[from].state.db, id, system)
    requires forall i | from <= i < n :: acts[i].Call? ==> !Redirects(acts[i].event, id)
    requires IsHistory(id, worlds, acts)
    ensures id < worlds[n].state.next && SystemIs(worlds[n].state.db, id, system)
  {
    hide Step, Inv, Syncs, IsRemoval, Redirects;
    HistoryKeeps(id, worlds, acts, from);
    StoredBelow(worlds[from].state, id);
    if from < n {
      SystemKept(id, system, worlds, acts, from, n - 1);
      ActAt(id, worlds, acts, n - 1);
      HistoryKeeps(id, worlds, acts, n - 1);
      if acts[n - 1].Call? {
        SupplyKept(worlds[n - 1].state, acts[n - 1].event, worlds[n].state);
        if id in worlds[n].state.db.clusters {
          InvSound(worlds[n - 1].state);
          StepKeepsCluster(worlds[n - 1].state, acts[n - 1].event, worlds[n].state, id);
        }
      }
    }
  }

  lemma StoredBelow(s: State, id: Id)
    requires Inv(s)
    ensures id in s.db.clusters ==> id < s.next
  {
    hide Schema, Signed;
  }

  lemma SupplyKept(s: State, e: Event, s': State)
    requires Step(s, e, s')
    ensures s.next <= s'.next
  {
    hide Changes, Sound;
  }

  // Whom a server accepts that knows its operator's key and reads account JWTs from the resolver.

  predicate Accepts(operatorKey: PubKey, entries: Entries, jwt: Jwt) {
    && jwt.UserJwt?
    && var k := if jwt.scoped then jwt.issuerAccount else jwt.issuer;
       && k in entries && entries[k].AccountJwt? && entries[k].subject == k && entries[k].issuer == operatorKey
       && (jwt.scoped ==> jwt.issuer in entries[k].signers)
  }

  /** On a converged resolver, a server accepts exactly the users that the database says are trusted. */
  lemma AcceptedIffTrusted(s: State, operatorId: Id, system: PubKey, before: Entries, after: Entries, i: Id)
    requires Inv(s) && operatorId in s.db.operators && Converged(s.db, operatorId, system, before, after)
    requires i in s.db.users && s.db.users[i].accountId in AccountsOf(s.db, operatorId)
    ensures Accepts(s.db.operators[operatorId].publicKey, after, s.db.users[i].jwt) <==> Trusted(s.db, s.db.users[i])
  {
    hide Sound, OperatorsSigned, KeysSeeded, Gone;
    var u := s.db.users[i];
    assert UserSigned(s.db.accounts, s.db.keys, s.next, u);
    assert AccountSigned(s.db.operators, s.db.accounts[u.accountId]);
  }

  /** The whole chain, over every run: once a synchronisation has converged, a server accepts a user of
      the operator exactly if no call deleted its scoped key under it since it was last signed - in an
      account that is not left stale and has at most `PAGE` keys. */
  lemma AcceptedIff(states: seq<State>, events: seq<Event>, n: nat, operatorId: Id, system: PubKey,
                    before: Entries, after: Entries, i: Id)
    requires |states| == |events| + 1 && n <= |events|
    requires var db := states[n].db;
             && operatorId in db.operators && i in db.users && db.users[i].accountId in AccountsOf(db, operatorId)
             && Converged(db, operatorId, system, before, after)
             && |KeysOf(db.keys, db.users[i].accountId)| <= PAGE
             && !LeftStale(states, events, n, db.users[i].accountId)
    requires IsRun(states, events)
    ensures var db := states[n].db;
            Accepts(db.operators[operatorId].publicKey, after, db.users[i].jwt) <==>
                  !KeyDeletedUnder(states, events, n, i)
  {
    hide Step, Inv, Converged, Accepts, Trusted, LeftStale, KeyDeletedUnder;
    RunKeeps(states, events, n);
    AcceptedIffTrusted(states[n], operatorId, system, before, after, i);
    ChainOfTrust(states, events, n, i);
  }

  // The service calls of a history are a run.

  function Events(acts: seq<Act>, n: nat): seq<Event>
    requires n <= |acts|
  {
    if n == 0 then [] else Events(acts, n - 1) + if acts[n - 1].Call? then [acts[n - 1].event] else []
  }

  function States(worlds: seq<World>, acts: seq<Act>, n: nat): seq<State>
    requires n <= |acts| < |worlds|
  {
    if n == 0 then [worlds[0].state]
    else States(worlds, acts, n - 1) + if acts[n - 1].Call? then [worlds[n].state] else []
  }

  lemma {:induction false} HistoryIsRun(id: Id, worlds: seq<World>, acts: seq<Act>, n: nat)
    requires n <= |acts| < |worlds| && IsHistory(id, worlds, acts)
    ensures var states, events := States(worlds, acts, n), Events(acts, n);
            IsRun(states, events) && states[|events|] == worlds[n].state
  {
    hide Step, Syncs, IsRemoval;
    if n > 0 {
      HistoryIsRun(id, worlds, acts, n - 1);
      ActAt(id, worlds, acts, n - 1);
      if acts[n - 1].Call? {
        ExtendRun(States(worlds, acts, n - 1), Events(acts, n - 1), acts[n - 1].event, worlds[n].state);
      }
    }
  }

  /** Act `j` is a pruning synchronisation that reported no error, on a reliable resolver. */
  ghost predicate CleanSync(worlds: seq<World>, acts: seq<Act>, j: nat)
    requires j < |acts| < |worlds|
  {
    && acts[j].Sync? && acts[j].prune && acts[j].result.Some? && acts[j].result.value.errors == []
    && Reliable(acts[j].net, worlds[j].entries)
  }

  lemma CleanSyncConverges(id: Id, worlds: seq<World>, acts: seq<Act>, j: nat)
    requires j < |acts| < |worlds| && CleanSync(worlds, acts, j) && id in worlds[j].state.db.clusters
    requires |AccountsOf(worlds[j].state.db, worlds[j].state.db.clusters[id].operatorId)| <= PAGE
    requires IsHistory(id, worlds, acts)
    ensures var c := worlds[j].state.db.clusters[id];
            && worlds[j + 1].state == worlds[j].state
            && Converged(worlds[j].state.db, c.operatorId, c.systemAccount, worlds[j].entries, worlds[j + 1].entries)
  {
    hide Inv, Step, IsSync, IsListing, Converged, Reliable, AccountsFit;
    HistoryKeeps(id, worlds, acts, j);
    ActAt(id, worlds, acts, j);
    var c := worlds[j].state.db.clusters[id];
    SmallSigns(worlds[j].state, id);
    ReliableConverges(worlds[j].state.db, c.operatorId, c.systemAccount, worlds[j].entries, acts[j].page, acts[j].ids,
                      acts[j].net, acts[j].result.value, acts[j].gone, worlds[j + 1].entries);
  }

  /** The account is not left stale by the calls before act `j`, and its keys fit one page. */
  ghost predicate UpToDate(worlds: seq<World>, acts: seq<Act>, j: nat, a: Id)
    requires j < |acts| < |worlds|
  {
    && |KeysOf(worlds[j].state.db.keys, a)| <= PAGE
    && |States(worlds, acts, j)| == |Events(acts, j)| + 1
    && !LeftStale(States(worlds, acts, j), Events(acts, j), |Events(acts, j)|, a)
  }

  /** The whole chain, over every history: after a clean synchronisation of a cluster whose operator has
      at most `PAGE` accounts, a server that reads the resolver accepts a user of that operator exactly
      if no call deleted its scoped key under it since it was last signed - in an account that is not
      left stale and has at most `PAGE` keys. */
  lemma AcceptedAfterSync(id: Id, worlds: seq<World>, acts: seq<Act>, j: nat, i: Id)
    requires j < |acts| < |worlds| && CleanSync(worlds, acts, j) && id in worlds[j].state.db.clusters
    requires var db := worlds[j].state.db; var operatorId := db.clusters[id].operatorId;
             && |AccountsOf(db, operatorId)| <= PAGE && operatorId in db.operators
             && i in db.users && db.users[i].accountId in AccountsOf(db, operatorId)
             && UpToDate(worlds, acts, j, db.users[i].accountId)
    requires IsHistory(id, worlds, acts)
    ensures var db := worlds[j].state.db;
            Accepts(db.operators[db.clusters[id].operatorId].publicKey, worlds[j + 1].entries, db.users[i].jwt) <==>
              !KeyDeletedUnder(States(worlds, acts, j), Events(acts, j), |Events(acts, j)|, i)
  {
    hide Inv, Step, Acts, Converged, Accepts, LeftStale, KeyDeletedUnder, CleanSync, States, Events;
    CleanSyncConverges(id, worlds, acts, j);
    HistoryIsRun(id, worlds, acts, j);
    var c := worlds[j].state.db.clusters[id];
    AcceptedIff(States(worlds, acts, j), Events(acts, j), |Events(acts, j)|, c.operatorId, c.systemAccount,
                worlds[j].entries, worlds[j + 1].entries, i);
  }
}
