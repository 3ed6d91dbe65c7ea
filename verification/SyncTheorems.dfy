/** Convergence, idempotence and safety of cluster synchronisation. */
module SyncTheorems {
  import opened Entities
  import opened Database
  import opened Jwts
  import opened ClusterSync

  type Entries = map<PubKey, Jwt>

  predicate InDatabase(db: Db, operatorId: Id, k: PubKey) {
    exists a | a in AccountsOf(db, operatorId) :: db.accounts[a].publicKey == k
  }

  /** The page of a listing is the whole table when that is small enough. */
  lemma WholePage(db: Db, operatorId: Id, page: seq<Account>, ids: seq<Id>)
    requires IsListing(db.accounts, AccountTimes(db, operatorId), PAGE, page, ids)
    requires |AccountsOf(db, operatorId)| <= PAGE
    ensures Elements(ids) == AccountsOf(db, operatorId)
  {
    var times := AccountTimes(db, operatorId);
    assert times.Keys == AccountsOf(db, operatorId) && |times| == |times.Keys|;
    DistinctSize(ids);
    SubsetSize(Elements(ids), AccountsOf(db, operatorId));
  }

  /** The keys of the page, in terms of the database. */
  lemma PageKeys(db: Db, operatorId: Id, page: seq<Account>, ids: seq<Id>, k: PubKey)
    requires AccountsFit(db.operators.Keys, db.accounts)
    requires IsListing(db.accounts, AccountTimes(db, operatorId), PAGE, page, ids)
    ensures k in ByKey(page) <==> exists a | a in Elements(ids) :: db.accounts[a].publicKey == k
    ensures forall a | a in Elements(ids) && db.accounts[a].publicKey == k ::
              k in ByKey(page) && ByKey(page)[k] == db.accounts[a]
  {
    PageKeysDistinct(db, operatorId, page, ids);
    ByKeyHas(page, k);
    if k in ByKey(page) {
      var i :| 0 <= i < |page| && page[i].publicKey == k;
      assert ids[i] in Elements(ids);
    }
    forall a | a in Elements(ids) && db.accounts[a].publicKey == k
        ensures k in ByKey(page) && ByKey(page)[k] == db.accounts[a] {
      var i :| 0 <= i < |ids| && ids[i] == a;
      assert page[i] == db.accounts[a];
    }
  }

  /** For a small enough table the page knows exactly the keys of the database. */
  lemma WholeByKey(db: Db, operatorId: Id, page: seq<Account>, ids: seq<Id>, k: PubKey)
    requires AccountsFit(db.operators.Keys, db.accounts)
    requires IsListing(db.accounts, AccountTimes(db, operatorId), PAGE, page, ids)
    requires |AccountsOf(db, operatorId)| <= PAGE
    ensures k in ByKey(page) <==> InDatabase(db, operatorId, k)
    ensures forall a | a in AccountsOf(db, operatorId) && db.accounts[a].publicKey == k ::
              k in ByKey(page) && ByKey(page)[k] == db.accounts[a]
  {
    WholePage(db, operatorId, page, ids);
    PageKeys(db, operatorId, page, ids, k);
  }

  /** The resolver holds exactly the database, and the system entry if it was there before. */
  ghost predicate Converged(db: Db, operatorId: Id, system: PubKey, before: Entries, after: Entries) {
    && (forall a | a in AccountsOf(db, operatorId) ::
          db.accounts[a].publicKey in after && after[db.accounts[a].publicKey] == db.accounts[a].jwt)
    && (forall k | k in after ::
          InDatabase(db, operatorId, k) || (k == system && k in before && after[k] == before[k]))
    && (system in before ==> system in after)
  }

  ghost predicate Honest(page: seq<Account>, net: Network, stale: seq<PubKey>) {
    (forall a | a in page :: HonestPush(net.push(a.publicKey))) && HonestDeletion(net.deletion, stale)
  }

  /** A pruning synchronisation that reports no error converges from any resolver state, for at most
      `PAGE` accounts that all have a JWT, if the resolver lists what it has and answers honestly, and
      answers no push with a JSON error. */
  lemma SyncConverges(db: Db, operatorId: Id, system: PubKey, before: Entries, page: seq<Account>, ids: seq<Id>,
                      net: Network, result: SyncResult, gone: set<PubKey>, after: Entries)
    requires AccountsFit(db.operators.Keys, db.accounts)
    requires IsListing(db.accounts, AccountTimes(db, operatorId), PAGE, page, ids)
    requires |AccountsOf(db, operatorId)| <= PAGE && forall a | a in AccountsOf(db, operatorId) ::
               Pushable(db.accounts[a])
    requires IsSync(before, page, system, true, net, result, gone, after) && result.errors == []
    requires net.listing.Some? && forall k :: k in net.listing.value <==> k in before
    requires Honest(page, net, Stale(net.listing.value, ByKey(page).Keys, system))
    requires forall a | a in page :: !JsonError(net.push(a.publicKey).reply)
    ensures Converged(db, operatorId, system, before, after)
  {
    hide IsListing, AccountsFit, ByKey, Stale, AccountTimes, PushErrors, Reported;
    var stale := Stale(net.listing.value, ByKey(page).Keys, system);
    assert PushErrors(page, net) == [] && forall k | k in stale :: k in gone;
    forall a | a in AccountsOf(db, operatorId) ensures net.push(db.accounts[a].publicKey).applied {
      OnPage(db, operatorId, page, ids, a);
      NoPushFailed(page, net, db.accounts[a]);
    }
    AppliedConverges(db, operatorId, system, before, page, ids, net.listing.value, net, gone);
  }

  /** A resolver that lists what it has, answers honestly, and answers no push with a JSON error. */
  ghost predicate Reliable(net: Network, entries: Entries) {
    && net.listing.Some? && (forall k :: k in net.listing.value <==> k in entries)
    && (forall k :: HonestPush(net.push(k)) && !JsonError(net.push(k).reply))
    && HonestDeletion(net.deletion, net.listing.value)
  }

  /** One that answers every request, and none with an error. */
  ghost predicate Healthy(net: Network, entries: Entries) {
    Reliable(net, entries) && (forall k :: !PushFails(net.push(k).reply)) && !DeletionFails(net.deletion.reply)
  }

  lemma {:induction false} NoPushErrors(page: seq<Account>, net: Network)
    requires forall k :: !PushFails(net.push(k).reply)
    ensures PushErrors(page, net) == []
  {
    if page != [] {
      NoPushErrors(page[..|page| - 1], net);
    }
  }

  lemma ReliableConverges(db: Db, operatorId: Id, system: PubKey, before: Entries, page: seq<Account>, ids: seq<Id>,
                          net: Network, result: SyncResult, gone: set<PubKey>, after: Entries)
    requires AccountsFit(db.operators.Keys, db.accounts)
    requires IsListing(db.accounts, AccountTimes(db, operatorId), PAGE, page, ids)
    requires |AccountsOf(db, operatorId)| <= PAGE && forall a | a in AccountsOf(db, operatorId) ::
               Pushable(db.accounts[a])
    requires IsSync(before, page, system, true, net, result, gone, after) && result.errors == []
    requires Reliable(net, before)
    ensures Converged(db, operatorId, system, before, after)
  {
    hide IsListing, AccountsFit, ByKey, AccountTimes, IsSync, Converged, PushErrors;
    forall k | k in Stale(net.listing.value, ByKey(page).Keys, system) ensures k in net.listing.value {
      StaleIff(net.listing.value, ByKey(page).Keys, system, k);
    }
    SyncConverges(db, operatorId, system, before, page, ids, net, result, gone, after);
  }

  lemma OnPage(db: Db, operatorId: Id, page: seq<Account>, ids: seq<Id>, a: Id)
    requires IsListing(db.accounts, AccountTimes(db, operatorId), PAGE, page, ids)
    requires |AccountsOf(db, operatorId)| <= PAGE && a in AccountsOf(db, operatorId)
    ensures db.accounts[a] in page
  {
    WholePage(db, operatorId, page, ids);
    assert a in Elements(ids);
    var i :| 0 <= i < |ids| && ids[i] == a;
    assert page[i] == db.accounts[a];
  }

  lemma {:induction false} NoPushFailed(page: seq<Account>, net: Network, a: Account)
    requires PushErrors(page, net) == [] && a in page && Pushable(a)
    ensures !PushFails(net.push(a.publicKey).reply)
  {
    var front, last := page[..|page| - 1], page[|page| - 1];
    assert page == front + [last];
    if a != last {
      NoPushFailed(front, net, a);
    }
  }

  lemma AppliedConverges(db: Db, operatorId: Id, system: PubKey, before: Entries, page: seq<Account>, ids: seq<Id>,
                         listed: seq<PubKey>, net: Network, gone: set<PubKey>)
    requires AccountsFit(db.operators.Keys, db.accounts)
    requires IsListing(db.accounts, AccountTimes(db, operatorId), PAGE, page, ids)
    requires |AccountsOf(db, operatorId)| <= PAGE
    requires forall a | a in AccountsOf(db, operatorId) ::
               Pushable(db.accounts[a]) && net.push(db.accounts[a].publicKey).applied
    requires forall k :: k in listed <==> k in before
    requires forall k :: k in gone <==> k in Stale(listed, ByKey(page).Keys, system)
    ensures Converged(db, operatorId, system, before, Synced(before, ByKey(page), net, gone))
  {
    hide IsListing, AccountsFit, ByKey, Stale, AccountTimes;
    var byKey, stale := ByKey(page), Stale(listed, ByKey(page).Keys, system);
    var after := Synced(before, byKey, net, gone);
    forall a | a in AccountsOf(db, operatorId)
      ensures db.accounts[a].publicKey in after && after[db.accounts[a].publicKey] == db.accounts[a].jwt
    {
      WholeByKey(db, operatorId, page, ids, db.accounts[a].publicKey);
    }
    forall k | k in after
      ensures InDatabase(db, operatorId, k) || (k == system && k in before && after[k] == before[k])
    {
      WholeByKey(db, operatorId, page, ids, k);
      StaleIff(listed, byKey.Keys, system, k);
      hide InDatabase, AccountsOf;
    }
    StaleIff(listed, byKey.Keys, system, system);
  }

  /** After that, a synchronisation removes nothing and changes nothing, whichever of its requests take
      effect and whatever is answered. */
  lemma SecondSyncChangesNothing(db: Db, operatorId: Id, system: PubKey, before: Entries, after: Entries,
                                 page: seq<Account>, ids: seq<Id>, prune: bool, net: Network, result: SyncResult,
                                 gone: set<PubKey>, again: Entries)
    requires AccountsFit(db.operators.Keys, db.accounts)
    requires IsListing(db.accounts, AccountTimes(db, operatorId), PAGE, page, ids)
    requires |AccountsOf(db, operatorId)| <= PAGE
    requires Converged(db, operatorId, system, before, after)
    requires IsSync(after, page, system, prune, net, result, gone, again)
    requires net.listing.Some? ==> forall k | k in net.listing.value :: k in after
    ensures again == after && result.removed == []
  {
    hide IsListing, AccountsFit, ByKey, Stale, AccountTimes, Reported, PushErrors;
    var listed := if prune && net.listing.Some? then net.listing.value else [];
    var byKey, stale := ByKey(page), Stale(listed, ByKey(page).Keys, system);
    forall k ensures k !in stale {
      WholeByKey(db, operatorId, page, ids, k);
      StaleIff(listed, byKey.Keys, system, k);
    }
    NoMembers(stale);
    forall k ensures (k in again <==> k in after) && (k in again ==> again[k] == after[k]) {
      WholeByKey(db, operatorId, page, ids, k);
    }
  }

  lemma NoMembers(s: seq<PubKey>)
    ensures (forall k :: k !in s) ==> s == []
  {
    if s != [] {
      assert s[0] in s;
    }
  }

  predicate OutsideIsSystem(db: Db, operatorId: Id, system: PubKey, ids: seq<Id>) {
    forall a | a in AccountsOf(db, operatorId) && a !in ids :: db.accounts[a].publicKey == system
  }

  /** Pruning spares every account of the database, whatever the resolver lists, if and only if each
      account outside the page is the cluster's system account. */
  lemma PruneSafeIff(db: Db, operatorId: Id, system: PubKey, page: seq<Account>, ids: seq<Id>)
    requires AccountsFit(db.operators.Keys, db.accounts)
    requires IsListing(db.accounts, AccountTimes(db, operatorId), PAGE, page, ids)
    ensures (forall listed, k | k in Stale(listed, ByKey(page).Keys, system) :: !InDatabase(db, operatorId, k))
            <==> OutsideIsSystem(db, operatorId, system, ids)
  {
    hide IsListing, AccountsFit, ByKey, Stale, AccountTimes;
    if OutsideIsSystem(db, operatorId, system, ids) {
      forall listed, k | k in Stale(listed, ByKey(page).Keys, system) ensures !InDatabase(db, operatorId, k) {
        StaleIff(listed, ByKey(page).Keys, system, k);
        PageKeys(db, operatorId, page, ids, k);
      }
    } else {
      var a :| a in AccountsOf(db, operatorId) && a !in ids && db.accounts[a].publicKey != system;
      var k := db.accounts[a].publicKey;
      PageKeys(db, operatorId, page, ids, k);
      PageStored(db, operatorId, page, ids);
      OnlyOwner(db, a);
      StaleIff([k], ByKey(page).Keys, system, k);
      assert k in Stale([k], ByKey(page).Keys, system) && InDatabase(db, operatorId, k);
    }
  }

  lemma PageStored(db: Db, operatorId: Id, page: seq<Account>, ids: seq<Id>)
    requires IsListing(db.accounts, AccountTimes(db, operatorId), PAGE, page, ids)
    ensures forall x | x in ids :: x in db.accounts
  {
  }

  lemma OnlyOwner(db: Db, a: Id)
    requires AccountsFit(db.operators.Keys, db.accounts) && a in db.accounts
    ensures forall b | b in db.accounts && db.accounts[b].publicKey == db.accounts[a].publicKey :: b == a
  {
    assert FitsAccount(db.operators.Keys, db.accounts, db.accounts[a]);
  }

  /** So it is safe up to 1000 accounts, and unsafe from two more on. */
  lemma PruneBound(db: Db, operatorId: Id, system: PubKey, page: seq<Account>, ids: seq<Id>)
    requires AccountsFit(db.operators.Keys, db.accounts)
    requires IsListing(db.accounts, AccountTimes(db, operatorId), PAGE, page, ids)
    ensures |AccountsOf(db, operatorId)| <= 1000 ==> OutsideIsSystem(db, operatorId, system, ids)
    ensures |AccountsOf(db, operatorId)| >= 1002 ==> !OutsideIsSystem(db, operatorId, system, ids)
  {
    var all := AccountsOf(db, operatorId);
    if |all| <= PAGE {
      WholePage(db, operatorId, page, ids);
      forall a | a in all ensures a in ids { assert a in Elements(ids); }
    } else if |all| >= PAGE + 2 {
      assert AccountTimes(db, operatorId).Keys == all;
      DistinctSize(ids);
      var rest := all - Elements(ids);
      SubsetSize(Elements(ids), all);
      assert |rest| == |all| - |Elements(ids)|;
      var a :| a in rest;
      assert |rest - {a}| >= 1;
      var b :| b in rest - {a};
      OnlyOwner(db, a);
      assert a !in ids && b !in ids;
    }
  }

  // What is reported as pushed

  predicate DistinctNames(page: seq<Account>) {
    forall i, j | 0 <= i < j < |page| :: page[i].name != page[j].name
  }

  lemma PageNames(db: Db, operatorId: Id, page: seq<Account>, ids: seq<Id>)
    requires AccountsFit(db.operators.Keys, db.accounts)
    requires IsListing(db.accounts, AccountTimes(db, operatorId), PAGE, page, ids)
    ensures DistinctNames(page)
  {
    forall i, j | 0 <= i < j < |page| ensures page[i].name != page[j].name {
      assert ids[i] in AccountTimes(db, operatorId) && ids[j] in AccountTimes(db, operatorId);
      assert FitsAccount(db.operators.Keys, db.accounts, db.accounts[ids[i]]);
    }
  }

  lemma {:induction false} ReportedOnly(page: seq<Account>, net: Network, name: string)
    ensures name in Reported(page, net) ==> exists i :: 0 <= i < |page| && page[i].name == name
  {
    if page != [] {
      var front := page[..|page| - 1];
      ReportedOnly(front, net, name);
      if name in Reported(front, net) {
        var i :| 0 <= i < |front| && front[i].name == name;
        assert page[i].name == name;
      }
    }
  }

  /** An account is named exactly if it was pushed and the client saw no failure. */
  lemma {:induction false} ReportedIff(page: seq<Account>, net: Network, i: nat)
    requires DistinctNames(page) && i < |page|
    ensures page[i].name in Reported(page, net) <==> Pushable(page[i]) && !PushFails(net.push(page[i].publicKey).reply)
  {
    var front, last := page[..|page| - 1], |page| - 1;
    if i < last {
      ReportedIff(front, net, i);
      assert front[i] == page[i] && page[i].name != page[last].name;
    } else {
      ReportedOnly(front, net, page[i].name);
    }
  }

  /** After the synchronisation, the resolver has the JWT of every account it reports as pushed. */
  ghost predicate TruthfulReport(page: seq<Account>, result: SyncResult, after: Entries) {
    forall a | a in page && a.name in result.accounts :: a.publicKey in after && after[a.publicKey] == a.jwt
  }

  /** With an honest resolver, the report of a synchronisation is true - past the later pushes and the
      prune - if and only if no push of a JWT that the resolver did not have already was answered by a
      JSON error, which the client does not recognise. */
  lemma ReportsTruthfulIff(db: Db, operatorId: Id, system: PubKey, before: Entries, page: seq<Account>, ids: seq<Id>,
                           prune: bool, net: Network, result: SyncResult, gone: set<PubKey>, after: Entries)
    requires AccountsFit(db.operators.Keys, db.accounts)
    requires IsListing(db.accounts, AccountTimes(db, operatorId), PAGE, page, ids)
    requires IsSync(before, page, system, prune, net, result, gone, after)
    requires forall a | a in page :: HonestPush(net.push(a.publicKey))
    ensures TruthfulReport(page, result, after) <==>
            forall a | a in page && Pushable(a) && JsonError(net.push(a.publicKey).reply) ::
              a.publicKey in before && before[a.publicKey] == a.jwt
  {
    hide IsListing, AccountsFit, AccountTimes, ByKey, Stale, Reported, PushErrors;
    PageNames(db, operatorId, page, ids);
    PageKeysDistinct(db, operatorId, page, ids);
    forall i | 0 <= i < |page|
      ensures var a := page[i];
              && (a.name in result.accounts <==> Pushable(a) && !PushFails(net.push(a.publicKey).reply))
              && (if Pushable(a) && net.push(a.publicKey).applied then a.publicKey in after
                  && after[a.publicKey] == a.jwt
                  else (a.publicKey in after <==> a.publicKey in before)
                       && (a.publicKey in after ==> after[a.publicKey] == before[a.publicKey]))
    {
      ReportedIff(page, net, i);
      ByKeyHas(page, page[i].publicKey);
      StaleIff(if prune && net.listing.Some? then net.listing.value else [], ByKey(page).Keys, system,
          page[i].publicKey);
    }
  }

  // What the report says of each account, in terms of the text of the replies.

  /** The client takes the push for done: some reply came, and it does not start with a dash. */
  predicate TakenForDone(r: Reply) {
    r.Answer? && !("-" <= r.text)
  }

  lemma {:induction false} ErrorsNamed(page: seq<Account>, net: Network, e: SyncError)
    ensures e in PushErrors(page, net) <==>
              exists i | 0 <= i < |page| :: e == PushFailed(page[i].publicKey, page[i].name)
                && page[i].jwt != NoJwt && !TakenForDone(net.push(page[i].publicKey).reply)
  {
    if page != [] {
      var n := |page| - 1;
      ErrorsNamed(page[..n], net, e);
      if i :| 0 <= i < n && e == PushFailed(page[..n][i].publicKey, page[..n][i].name)
              && page[..n][i].jwt != NoJwt && !TakenForDone(net.push(page[..n][i].publicKey).reply) {
        assert page[i] == page[..n][i];
      }
    }
  }

  /** Every account of the page with a JWT is reported as pushed if the push was answered by a text that does
      not start with a dash, and else is named in an error; one without a JWT is neither. */
  lemma SyncReports(db: Db, operatorId: Id, before: Entries, page: seq<Account>, ids: seq<Id>, system: PubKey,
                    prune: bool, net: Network, result: SyncResult, gone: set<PubKey>, after: Entries, i: nat)
    requires AccountsFit(db.operators.Keys, db.accounts)
    requires IsListing(db.accounts, AccountTimes(db, operatorId), PAGE, page, ids)
    requires IsSync(before, page, system, prune, net, result, gone, after) && i < |page|
    ensures var a, reply := page[i], net.push(page[i].publicKey).reply;
            && (a.name in result.accounts <==> a.jwt != NoJwt && TakenForDone(reply))
            && (PushFailed(a.publicKey, a.name) in result.errors <==> a.jwt != NoJwt && !TakenForDone(reply))
  {
    hide Synced, Stale, DeletionFails, Reported, PushErrors, ByKey, IsListing, AccountsFit, AccountTimes;
    PageKeysDistinct(db, operatorId, page, ids);
    PageNames(db, operatorId, page, ids);
    ReportedIff(page, net, i);
    ErrorIff(page, net, i);
    FirstErrors(before, page, system, prune, net, result, gone, after, PushFailed(page[i].publicKey, page[i].name));
  }

  lemma ErrorIff(page: seq<Account>, net: Network, i: nat)
    requires DistinctKeys(page) && i < |page|
    ensures PushFailed(page[i].publicKey, page[i].name) in PushErrors(page, net)
            <==> page[i].jwt != NoJwt && !TakenForDone(net.push(page[i].publicKey).reply)
  {
    hide PushErrors, TakenForDone;
    ErrorsNamed(page, net, PushFailed(page[i].publicKey, page[i].name));
  }

  /** Of the errors of a sync, those about pushes are the errors of its pushes. */
  lemma FirstErrors(before: Entries, page: seq<Account>, system: PubKey, prune: bool, net: Network,
                    result: SyncResult, gone: set<PubKey>, after: Entries, e: SyncError)
    requires IsSync(before, page, system, prune, net, result, gone, after) && e.PushFailed?
    ensures e in result.errors <==> e in PushErrors(page, net)
  {
    hide Synced, Stale, DeletionFails, Reported, PushErrors, ByKey;
  }

  /** Keys are reported as removed only after a reply that is neither a dash text nor a JSON error; they are
      then all the stale keys, and those that the resolver took are gone. */
  lemma SyncRemoves(before: Entries, page: seq<Account>, system: PubKey, prune: bool, net: Network,
                   result: SyncResult, gone: set<PubKey>, after: Entries, k: PubKey)
    requires IsSync(before, page, system, prune, net, result, gone, after) && k in result.removed
    ensures prune && net.listing.Some? && k in net.listing.value && k != system
    ensures forall i | 0 <= i < |page| :: page[i].publicKey != k
    ensures var reply := net.deletion.reply;
            reply.Answer? && !("-" <= reply.text) && !("{" <= reply.text && reply.jsonError)
    ensures k in net.deletion.gone ==> k !in after
  {
    hide PushErrors, Reported, Stale;
    StaleIff(if prune && net.listing.Some? then net.listing.value else [], ByKey(page).Keys, system, k);
    forall i | 0 <= i < |page| ensures page[i].publicKey != k {
      InByKey(page, i);
    }
  }

  lemma {:induction false} InByKey(page: seq<Account>, i: nat)
    requires i < |page|
    ensures page[i].publicKey in ByKey(page)
  {
    if i < |page| - 1 {
      InByKey(page[..|page| - 1], i);
    }
  }
}
