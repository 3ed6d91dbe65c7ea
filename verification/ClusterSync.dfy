/** Pushing account JWTs to a NATS resolver, and pruning what the database does not have. */
module ClusterSync {
  import opened Entities
  import opened Database
  import opened Repositories
  import opened Jwts
  import opened Sealing
  import Creds
  import Encryption

  // The network. What the resolver does with a request, and what the client hears of it, are given.

  /** `jsonError`: the text is a JSON object with an `error` member. */
  datatype Reply = Silence | Answer(text: string, jsonError: bool)

  datatype Push = Push(applied: bool, reply: Reply)
  datatype Deletion = Deletion(gone: set<PubKey>, reply: Reply)
  datatype Network = Network(listing: Option<seq<PubKey>>, push: PubKey -> Push, deletion: Deletion)

  predicate OldError(r: Reply) {
    r.Answer? && r.text != "" && r.text[0] == '-'
  }

  predicate JsonError(r: Reply) {
    r.Answer? && r.text != "" && r.text[0] == '{' && r.jsonError
  }

  /** The client takes a push for failed on silence and on a reply that starts with '-'. */
  predicate PushFails(r: Reply) {
    r.Silence? || OldError(r)
  }

  /** A deletion also fails on a JSON reply that carries an error. */
  predicate DeletionFails(r: Reply) {
    r.Silence? || OldError(r) || JsonError(r)
  }

  /** A resolver that answers has applied the request unless its answer is an error. */
  predicate HonestPush(p: Push) {
    p.reply.Answer? ==> (p.applied <==> !OldError(p.reply) && !JsonError(p.reply))
  }

  predicate HonestDeletion(d: Deletion, claim: seq<PubKey>) {
    d.reply.Answer? && !OldError(d.reply) && !JsonError(d.reply) ==> forall k | k in claim :: k in d.gone
  }

  class Resolver {
    var entries: map<PubKey, Jwt>

    constructor (entries: map<PubKey, Jwt>)
      ensures this.entries == entries
    {
      this.entries := entries;
    }

    /** The resolver files an account JWT under its subject, the account's public key. */
    method PushAccountJwt(a: Account, p: Push) returns (failed: bool)
      modifies this
      ensures failed == PushFails(p.reply)
      ensures failed <==> p.reply.Silence? || "-" <= p.reply.text
      ensures entries == if p.applied then old(entries)[a.publicKey := a.jwt] else old(entries)
    {
      if p.applied {
        entries := entries[a.publicKey := a.jwt];
      }
      failed := p.reply.Silence? || (p.reply.text != "" && p.reply.text[0] == '-');
    }

    method DeleteAccountJwt(claim: seq<PubKey>, d: Deletion) returns (failed: bool)
      modifies this
      ensures failed == DeletionFails(d.reply)
      ensures failed <==> d.reply.Silence? || "-" <= d.reply.text || ("{" <= d.reply.text && d.reply.jsonError)
      ensures entries == old(entries) - (d.gone * set k | k in claim)
    {
      entries := entries - (d.gone * set k | k in claim);
      failed := d.reply.Silence?
                || (d.reply.text != "" && (d.reply.text[0] == '-' || (d.reply.text[0] == '{' && d.reply.jsonError)));
    }
  }

  // What one synchronisation does.

  datatype SyncError =
    | ListFailed
    | PushFailed(publicKey: PubKey, name: string)
    | OperatorFailed
    | ClaimFailed
    | DeleteFailed

  datatype SyncResult = SyncResult(accounts: seq<string>, updated: nat, removed: seq<PubKey>, removedCount: nat,
                                   errors: seq<SyncError>)

  function ByKey(page: seq<Account>): map<PubKey, Account> {
    if page == [] then map[]
    else ByKey(page[..|page| - 1])[page[|page| - 1].publicKey := page[|page| - 1]]
  }

  predicate Pushable(a: Account) {
    a.jwt != NoJwt
  }

  /** The names reported as pushed, in page order. */
  function Reported(page: seq<Account>, net: Network): seq<string> {
    if page == [] then []
    else
      var a := page[|page| - 1];
      Reported(page[..|page| - 1], net)
      + if Pushable(a) && !PushFails(net.push(a.publicKey).reply) then [a.name] else []
  }

  function PushErrors(page: seq<Account>, net: Network): seq<SyncError> {
    if page == [] then []
    else
      var a := page[|page| - 1];
      PushErrors(page[..|page| - 1], net)
      + if Pushable(a) && PushFails(net.push(a.publicKey).reply) then [PushFailed(a.publicKey, a.name)] else []
  }

  function Skipped(page: seq<Account>): nat {
    if page == [] then 0
    else Skipped(page[..|page| - 1]) + if Pushable(page[|page| - 1]) then 0 else 1
  }

  /** Every account of the page is reported, named in an error, or skipped for want of a JWT. */
  lemma {:induction false} Accounting(page: seq<Account>, net: Network)
    ensures |Reported(page, net)| + |PushErrors(page, net)| + Skipped(page) == |page|
  {
    if page != [] {
      Accounting(page[..|page| - 1], net);
    }
  }

  /** The listed keys that the page does not have, the system key excepted, in listing order. */
  function Stale(listed: seq<PubKey>, known: set<PubKey>, system: PubKey): seq<PubKey> {
    if listed == [] then []
    else
      var k := listed[|listed| - 1];
      Stale(listed[..|listed| - 1], known, system) + if k in known || k == system then [] else [k]
  }

  lemma {:induction false} StaleIff(listed: seq<PubKey>, known: set<PubKey>, system: PubKey, k: PubKey)
    ensures k in Stale(listed, known, system) <==> k in listed && k !in known && k != system
  {
    if listed != [] {
      var front, last := listed[..|listed| - 1], listed[|listed| - 1];
      StaleIff(front, known, system, k);
      assert listed == front + [last];
    }
  }

  predicate Lands(page: map<PubKey, Account>, net: Network, k: PubKey) {
    k in page && Pushable(page[k]) && net.push(k).applied
  }

  /** The exact resolver after a synchronisation: a key holds its database JWT if that was pushed and
      applied, it is absent if it was pruned, and otherwise it is as before. */
  function Synced(entries: map<PubKey, Jwt>, page: map<PubKey, Account>, net: Network,
      gone: set<PubKey>): map<PubKey, Jwt> {
    map k | k in entries.Keys + page.Keys && (Lands(page, net, k) || (k in entries && k !in gone)) ::
      if Lands(page, net, k) then page[k].jwt else entries[k]
  }

  /** The pushes alone, in page order. */
  function PushAll(entries: map<PubKey, Jwt>, page: seq<Account>, net: Network): map<PubKey, Jwt> {
    if page == [] then entries
    else
      var a := page[|page| - 1];
      var before := PushAll(entries, page[..|page| - 1], net);
      if Pushable(a) && net.push(a.publicKey).applied then before[a.publicKey := a.jwt] else before
  }

  predicate DistinctKeys(page: seq<Account>) {
    forall i, j | 0 <= i < j < |page| :: page[i].publicKey != page[j].publicKey
  }

  lemma {:induction false} ByKeyHas(page: seq<Account>, k: PubKey)
    requires DistinctKeys(page)
    ensures k in ByKey(page) <==> exists i | 0 <= i < |page| :: page[i].publicKey == k
    ensures forall i | 0 <= i < |page| :: page[i].publicKey == k ==> k in ByKey(page) && ByKey(page)[k] == page[i]
  {
    if page != [] {
      var front := page[..|page| - 1];
      ByKeyHas(front, k);
      if page[|page| - 1].publicKey != k && k in ByKey(page) {
        var i :| 0 <= i < |front| && front[i].publicKey == k;
        assert page[i].publicKey == k;
      }
    }
  }

  /** One key at a time: after the pushes it holds what landed, or what it held. */
  lemma {:induction false} PushAllAt(entries: map<PubKey, Jwt>, page: seq<Account>, net: Network, k: PubKey)
    requires DistinctKeys(page)
    ensures var e := PushAll(entries, page, net);
            if Lands(ByKey(page), net, k) then k in e && e[k] == ByKey(page)[k].jwt
            else (k in e <==> k in entries) && (k in e ==> e[k] == entries[k])
  {
    if page != [] {
      var front := page[..|page| - 1];
      PushAllAt(entries, front, net, k);
      ByKeyHas(front, k);
    }
  }

  lemma SyncedIsPushAndPrune(entries: map<PubKey, Jwt>, page: seq<Account>, net: Network, gone: set<PubKey>)
    requires DistinctKeys(page) && gone !! ByKey(page).Keys
    ensures PushAll(entries, page, net) - gone == Synced(entries, ByKey(page), net, gone)
  {
    var e, byKey := PushAll(entries, page, net), ByKey(page);
    var x, y := e - gone, Synced(entries, byKey, net, gone);
    forall k ensures (k in x <==> k in y) && (k in x ==> x[k] == y[k]) {
      PushAllAt(entries, page, net, k);
    }
  }

  lemma PageKeysDistinct(db: Db, operatorId: Id, page: seq<Account>, ids: seq<Id>)
    requires AccountsFit(db.operators.Keys, db.accounts)
    requires IsListing(db.accounts, AccountTimes(db, operatorId), PAGE, page, ids)
    ensures DistinctKeys(page)
  {
    forall i, j | 0 <= i < j < |page| ensures page[i].publicKey != page[j].publicKey {
      assert FitsAccount(db.operators.Keys, db.accounts, db.accounts[ids[i]]);
    }
  }

  /** Opening a cluster: only connecting to its servers is left to the network. */
  method OpenManagedCluster(store: Store, v: Vault, id: Id) returns (r: Result<(Cluster, Auth)>)
    requires store.Valid()
    modifies store`plan, store`faults
    ensures store.Valid() && store.faults >= old(store.faults)
    ensures r.Ok? ==> id in store.db.clusters && r.value.0 == store.db.clusters[id]
                      && OpenWith(v, store.db.clusters[id]) == Ok(r.value.1)
    ensures store.faults == old(store.faults) ==> (r.Ok? <==> CanOpen(store.db, v, id))
    ensures store.faults == old(store.faults) && r.Err? ==> r.error == OpeningError(store.db, v, id)
  {
    hide Schema, Supplied, Encryption.Decrypt;
    var rc := store.GetCluster(id);
    if rc.Err? { return Err(rc.error); }
    var cluster := rc.value;
    if cluster.creds == "" { return Err(Invalid); }
    var content := Encryption.Decrypt(v.aead, v.encryptor, cluster.creds);
    if content.Err? { return Err(content.error); }
    var client := NewClientFromCreds(cluster.serverUrls, FromBytes(content.value));
    if client.Err? { return Err(client.error); }
    var unreachable := store.Fault();
    if unreachable { return Err(Broken); }
    r := Ok((cluster, client.value));
  }

  method NewClientFromCreds(serverUrls: seq<string>, content: string) returns (r: Result<Auth>)
    ensures r == ClientFor(serverUrls, content)
  {
    if |serverUrls| == 0 { return Err(Invalid); }
    if content == "" { return Ok(Anonymous); }
    var parsed := Creds.ParseCredsContent(content);
    match parsed {
      case Malformed => r := Err(Invalid);
      case Panic => r := Err(Panicked);
      case Credentials(jwt, seed) => r := Ok(AsUser(jwt, seed));
    }
  }

  predicate CanOpen(db: Db, v: Vault, id: Id) {
    id in db.clusters && OpenWith(v, db.clusters[id]).Ok?
  }

  /** Why a cluster cannot be opened, without a fault. */
  function OpeningError(db: Db, v: Vault, id: Id): Error
    requires !CanOpen(db, v, id)
  {
    if id in db.clusters then OpenWith(v, db.clusters[id]).error else NotFound
  }

  function ListErrors(prune: bool, net: Network): seq<SyncError> {
    if prune && net.listing.None? then [ListFailed] else []
  }

  /** What a synchronisation of `cluster` with this page did and reported. `gone` is what was pruned. */
  ghost predicate IsSync(before: map<PubKey, Jwt>, page: seq<Account>, system: PubKey, prune: bool, net: Network,
                         result: SyncResult, gone: set<PubKey>, after: map<PubKey, Jwt>)
  {
    var listed := if prune && net.listing.Some? then net.listing.value else [];
    var stale := Stale(listed, ByKey(page).Keys, system);
    && after == Synced(before, ByKey(page), net, gone)
    && gone <= (set k | k in stale)
    && result.accounts == Reported(page, net) && result.updated == |result.accounts|
    && result.removedCount == |result.removed|
    && (result.removed == []
        || (result.removed == stale && gone == (net.deletion.gone * set k | k in stale)
            && !DeletionFails(net.deletion.reply)))
    && var head := ListErrors(prune, net);
       || (result.errors == head + PushErrors(page, net) && result.removed == stale)
       || (result.removed == [] && stale != [] &&
             exists e :: result.errors == head + PushErrors(page, net) + [e]
                         && ((e == DeleteFailed && DeletionFails(net.deletion.reply))
                             || (gone == {} && (e == OperatorFailed || e == ClaimFailed))))
  }

  predicate OperatorCanSign(db: Db, clusterId: Id) {
    && clusterId in db.clusters && db.clusters[clusterId].operatorId in db.operators
    && db.operators[db.clusters[clusterId].operatorId].seed.Seed?
  }

  method SyncCluster(store: Store, resolver: Resolver, v: Vault, id: Id, prune: bool, net: Network)
    returns (r: Result<SyncResult>, ghost page: seq<Account>, ghost ids: seq<Id>, ghost gone: set<PubKey>)
    requires store.Valid()
    modifies store`plan, store`faults, resolver
    ensures store.Valid() && store.faults >= old(store.faults)
    ensures r.Err? ==> resolver.entries == old(resolver.entries)
    ensures r.Ok? ==> id in store.db.clusters
                      && IsListing(store.db.accounts, AccountTimes(store.db, store.db.clusters[id].operatorId), PAGE,
                          page, ids)
                      && IsSync(old(resolver.entries), page, store.db.clusters[id].systemAccount, prune, net,
                                r.value, gone, resolver.entries)
    ensures store.faults == old(store.faults) ==> (r.Ok? <==> CanOpen(store.db, v, id))
    ensures store.faults == old(store.faults) && r.Err? ==> r.error == OpeningError(store.db, v, id)
    ensures r.Ok? && store.faults == old(store.faults) && prune && net.listing.Some?
            && OperatorCanSign(store.db, id) ==>
              gone == net.deletion.gone
                      * set k | k in Stale(net.listing.value, ByKey(page).Keys, store.db.clusters[id].systemAccount)
    ensures r.Ok? && store.faults == old(store.faults) && OperatorCanSign(store.db, id) ==>
              var errors := ListErrors(prune, net) + PushErrors(page, net);
              r.value.errors == errors
              || (r.value.errors == errors + [DeleteFailed] && DeletionFails(net.deletion.reply))
    ensures r.Ok? && store.faults == old(store.faults) && !OperatorCanSign(store.db, id) ==>
              var listed := if prune && net.listing.Some? then net.listing.value else [];
              r.value.errors == ListErrors(prune, net) + PushErrors(page, net)
                                + if Stale(listed, ByKey(page).Keys, store.db.clusters[id].systemAccount) == [] then []
                                  else [ClaimFailed]
  {
    hide Schema, Supplied, IsPage, IsListing, OpenWith, Synced, ByKey, Reported, PushErrors, PushAll, DeletionFails,
         Stale;
    page, ids, gone := [], [], {};
    var rc := OpenManagedCluster(store, v, id);
    if rc.Err? { return Err(rc.error), page, ids, gone; }
    var cluster := rc.value.0;
    ClusterHasOperator(store.db, id);
    var ra;
    ra, ids := store.ListAccountsByOperator(cluster.operatorId, PAGE);
    if ra.Err? { return Err(ra.error), page, ids, gone; }
    var accounts := ra.value;
    page := accounts;
    SoundPage(store.db, store.next, cluster.operatorId, page, ids);
    var byKey := IndexByKey(accounts);
    var listed, errors := [], [];
    if prune {
      if net.listing.Some? {
        listed := net.listing.value;
      } else {
        errors := [ListFailed];
      }
    }
    var names, updated, failures := PushPage(resolver, accounts, net);
    errors := errors + failures;
    var stale := CollectStale(listed, byKey, cluster.systemAccount);
    var removed := [];
    if |stale| > 0 {
      removed, errors, gone := DeleteStale(store, resolver, cluster.operatorId, stale, net.deletion, errors);
    }
    forall k | k in gone ensures k !in byKey {
      StaleIff(listed, byKey.Keys, cluster.systemAccount, k);
    }
    SyncedIsPushAndPrune(old(resolver.entries), page, net, gone);
    r := Ok(SyncResult(names, updated, removed, |removed|, errors));
  }

  method IndexByKey(accounts: seq<Account>) returns (byKey: map<PubKey, Account>)
    ensures byKey == ByKey(accounts)
  {
    byKey := map[];
    for i := 0 to |accounts|
      invariant byKey == ByKey(accounts[..i])
    {
      assert accounts[..i + 1][..i] == accounts[..i];
      byKey := byKey[accounts[i].publicKey := accounts[i]];
    }
    assert accounts[..|accounts|] == accounts;
  }

  method PushPage(resolver: Resolver, accounts: seq<Account>, net: Network)
    returns (names: seq<string>, updated: nat, errors: seq<SyncError>)
    modifies resolver
    ensures names == Reported(accounts, net) && updated == |names| && errors == PushErrors(accounts, net)
    ensures resolver.entries == PushAll(old(resolver.entries), accounts, net)
  {
    names, updated, errors := [], 0, [];
    for i := 0 to |accounts|
      invariant names == Reported(accounts[..i], net) && updated == |names|
      invariant errors == PushErrors(accounts[..i], net)
      invariant resolver.entries == PushAll(old(resolver.entries), accounts[..i], net)
    {
      assert accounts[..i + 1][..i] == accounts[..i];
      var a := accounts[i];
      if a.jwt != NoJwt {
        var failed := resolver.PushAccountJwt(a, net.push(a.publicKey));
        if failed {
          errors := errors + [PushFailed(a.publicKey, a.name)];
        } else {
          names := names + [a.name];
          updated := updated + 1;
        }
      }
    }
    assert accounts[..|accounts|] == accounts;
  }

  lemma SoundPage(db: Db, next: nat, operatorId: Id, page: seq<Account>, ids: seq<Id>)
    requires Sound(db, next) && IsListing(db.accounts, AccountTimes(db, operatorId), PAGE, page, ids)
    ensures DistinctKeys(page)
  {
    PageKeysDistinct(db, operatorId, page, ids);
  }

  method CollectStale(listed: seq<PubKey>, byKey: map<PubKey, Account>, system: PubKey) returns (stale: seq<PubKey>)
    ensures stale == Stale(listed, byKey.Keys, system)
  {
    stale := [];
    for i := 0 to |listed|
      invariant stale == Stale(listed[..i], byKey.Keys, system)
    {
      assert listed[..i + 1][..i] == listed[..i];
      if listed[i] !in byKey && listed[i] != system {
        stale := stale + [listed[i]];
      }
    }
    assert listed[..|listed|] == listed;
  }

  /** The operator signs one delete claim for all stale keys; every failure becomes an error entry. */
  method DeleteStale(store: Store, resolver: Resolver, operatorId: Id, stale: seq<PubKey>, d: Deletion,
                     errors: seq<SyncError>)
    returns (removed: seq<PubKey>, errors': seq<SyncError>, ghost gone: set<PubKey>)
    requires store.Valid()
    modifies store`plan, store`faults, resolver
    ensures store.Valid() && store.faults >= old(store.faults)
    ensures resolver.entries == old(resolver.entries) - gone
    ensures (removed == stale && errors' == errors && gone == (d.gone * set k | k in stale) && !DeletionFails(d.reply))
            || (removed == [] && errors' == errors + [DeleteFailed] && gone == (d.gone * set k | k in stale)
                && DeletionFails(d.reply))
            || (removed == [] && gone == {} && (errors' == errors + [OperatorFailed]
                || errors' == errors + [ClaimFailed]))
    ensures store.faults == old(store.faults)
            && operatorId in store.db.operators && store.db.operators[operatorId].seed.Seed?
            ==> gone == (d.gone * set k | k in stale)
                && (errors' == errors || (errors' == errors + [DeleteFailed] && DeletionFails(d.reply)))
    ensures store.faults == old(store.faults)
            && !(operatorId in store.db.operators && store.db.operators[operatorId].seed.Seed?) ==>
              errors' == errors + [if operatorId in store.db.operators then ClaimFailed else OperatorFailed]
  {
    removed, errors', gone := [], errors, {};
    var ro := store.GetOperator(operatorId);
    if ro.Err? {
      errors' := errors + [OperatorFailed];
      return;
    }
    var f := store.Fault();
    if f || ro.value.seed.NoSeed? {
      errors' := errors + [ClaimFailed];
      return;
    }
    var failed := resolver.DeleteAccountJwt(stale, d);
    gone := d.gone * set k | k in stale;
    if failed {
      errors' := errors + [DeleteFailed];
    } else {
      removed := stale;
    }
  }

  lemma ClusterHasOperator(db: Db, id: Id)
    requires Schema(db) && id in db.clusters
    ensures db.clusters[id].operatorId in db.operators
  {
    assert FitsCluster(db.operators.Keys, db.clusters, db.clusters[id]);
  }

  /** Removing one key from the resolver by hand; the system key is refused. */
  method DeleteResolverAccount(store: Store, resolver: Resolver, v: Vault, id: Id, key: PubKey, d: Deletion)
    returns (r: Result<()>)
    requires store.Valid()
    modifies store`plan, store`faults, resolver
    ensures store.Valid() && store.faults >= old(store.faults)
    ensures IsRemoval(store.db, id, key, d, old(resolver.entries), r.Ok?, resolver.entries)
    ensures store.faults == old(store.faults) ==>
              (r.Ok? <==> CanOpen(store.db, v, id) && key != store.db.clusters[id].systemAccount
                          && OperatorCanSign(store.db, id) && !DeletionFails(d.reply))
    ensures store.faults == old(store.faults) && r.Err? ==>
              r.error == if !CanOpen(store.db, v, id) then OpeningError(store.db, v, id)
                         else if key == store.db.clusters[id].systemAccount then Invalid
                         else if OperatorCanSign(store.db, id) then Broken else Unsignable
  {
    hide Schema, Supplied, OpenWith;
    var rc := OpenManagedCluster(store, v, id);
    if rc.Err? { return Err(rc.error); }
    var cluster := rc.value.0;
    if key == cluster.systemAccount { return Err(Invalid); }
    ClusterHasOperator(store.db, id);
    var ro := store.GetOperator(cluster.operatorId);
    if ro.Err? { return Err(ro.error); }
    var f := store.Fault();
    if f { return Err(Broken); }
    if ro.value.seed.NoSeed? { return Err(Unsignable); }
    assert (set k | k in [key]) == {key};
    var failed := resolver.DeleteAccountJwt([key], d);
    r := if failed then Err(Broken) else Ok(());
  }

  /** What a removal by hand may do: nothing for an unknown cluster or its system key; else it takes at
      most that one key away, and success means that the request was answered without an error. */
  predicate IsRemoval(db: Db, id: Id, key: PubKey, d: Deletion, before: map<PubKey, Jwt>, ok: bool,
      after: map<PubKey, Jwt>) {
    var sent := before - (d.gone * {key});
    && (after == before || after == sent)
    && (ok ==> after == sent && !DeletionFails(d.reply))
    && (id !in db.clusters || key == db.clusters[id].systemAccount ==> !ok && after == before)
  }
}
