/** The JWT service: which key signs a token and which claims it carries. */
module Jwts {
  import opened Entities
  import opened Database
  import opened Repositories

  function LimitsOf(a: Account): Option<JetStream> {
    if a.jetStreamEnabled then Some(a.jetStream) else None
  }

  function ScopeOf(k: ScopedKey): Scope {
    Scope(k.name, k.description, k.pubAllow, k.pubDeny, k.subAllow, k.subDeny,
          if k.responseMaxMsgs > 0 || k.responseTtl > 0 then Some((k.responseMaxMsgs, k.responseTtl)) else None)
  }

  /** The scoped signers that `ks` declare; a later key replaces an earlier one with its public key. */
  function Signers(ks: seq<ScopedKey>): map<PubKey, Scope> {
    if ks == [] then map[]
    else Signers(ks[..|ks| - 1])[ks[|ks| - 1].publicKey := ScopeOf(ks[|ks| - 1])]
  }

  function OperatorClaims(issuer: PubKey, o: Operator): Jwt {
    OperatorJwt(issuer, o.publicKey, o.name, o.systemAccount)
  }

  function AccountClaims(issuer: PubKey, a: Account, signers: map<PubKey, Scope>): Jwt {
    AccountJwt(issuer, a.publicKey, a.name, LimitsOf(a), signers)
  }

  /** The claims of a user of `a` signed by `issuer`. */
  function UserClaims(issuer: PubKey, u: User, a: Account, scoped: bool): Jwt {
    UserJwt(issuer, u.publicKey, u.name, if scoped then a.publicKey else NoKey, scoped)
  }

  function SignedBy(seed: Secret, claims: PubKey -> Jwt): Result<Jwt> {
    if seed.Seed? then Ok(claims(seed.key)) else Err(Unsignable)
  }

  method GenerateOperatorJwt(store: Store, o: Operator) returns (r: Result<Jwt>)
    requires store.Valid()
    modifies store`plan, store`faults
    ensures store.Valid()
    ensures Gives(r, SignedBy(o.seed, k => OperatorClaims(k, o)), old(store.faults), store.faults)
  {
    var f := store.Fault();
    if f {
      r := Err(Broken);
    } else if o.seed.NoSeed? {
      r := Err(Unsignable);
    } else {
      r := Ok(OperatorJwt(o.seed.key, o.publicKey, o.name, o.systemAccount));
    }
  }

  method GenerateAccountJwt(store: Store, a: Account, o: Operator, ks: seq<ScopedKey>) returns (r: Result<Jwt>)
    requires store.Valid()
    modifies store`plan, store`faults
    ensures store.Valid()
    ensures Gives(r, SignedBy(o.seed, k => AccountClaims(k, a, Signers(ks))), old(store.faults), store.faults)
  {
    var f := store.Fault();
    if f {
      return Err(Broken);
    }
    if o.seed.NoSeed? {
      return Err(Unsignable);
    }
    var signers := map[];
    for i := 0 to |ks|
      invariant signers == Signers(ks[..i])
    {
      assert ks[..i + 1][..i] == ks[..i];
      signers := signers[ks[i].publicKey := ScopeOf(ks[i])];
    }
    assert ks[..|ks|] == ks;
    r := Ok(AccountJwt(o.seed.key, a.publicKey, a.name, LimitsOf(a), signers));
  }

  method GenerateUserJwt(store: Store, u: User, a: Account, k: Option<ScopedKey>) returns (r: Result<Jwt>)
    requires store.Valid()
    modifies store`plan, store`faults
    ensures store.Valid()
    ensures Gives(r, SignedBy(if k.Some? then k.value.seed else a.seed, key => UserClaims(key, u, a, k.Some?)),
                  old(store.faults), store.faults)
  {
    var f := store.Fault();
    var seed := if k.Some? then k.value.seed else a.seed;
    if f {
      r := Err(Broken);
    } else if seed.NoSeed? {
      r := Err(Unsignable);
    } else if k.Some? {
      r := Ok(UserJwt(seed.key, u.publicKey, u.name, a.publicKey, true));
    } else {
      r := Ok(UserJwt(seed.key, u.publicKey, u.name, NoKey, false));
    }
  }

  // What an account JWT declares, in terms of the stored keys.

  const PAGE := 1000

  function Declared(keys: map<Id, ScopedKey>, accountId: Id, signers: map<PubKey, Scope>): set<Id> {
    set i | i in KeysOf(keys, accountId) && keys[i].publicKey in signers
  }

  /** The signer map is exactly that of the keys in `ids`. */
  ghost predicate DeclaresExactly(keys: map<Id, ScopedKey>, ids: set<Id>, signers: map<PubKey, Scope>) {
    && ids <= keys.Keys
    && (forall p | p in signers :: exists i :: i in ids && keys[i].publicKey == p)
    && forall i | i in ids :: keys[i].publicKey in signers && signers[keys[i].publicKey] == ScopeOf(keys[i])
  }

  /** The signer map is exactly that of the newest `PAGE` keys of the account. */
  ghost predicate DeclaresNewest(keys: map<Id, ScopedKey>, accountId: Id, signers: map<PubKey, Scope>) {
    var all, declared := KeysOf(keys, accountId), Declared(keys, accountId, signers);
    && DeclaresExactly(keys, declared, signers)
    && |declared| == PageSize(|all|, PAGE)
    && forall i, j | i in declared && j in all - declared :: keys[i].createdAt >= keys[j].createdAt
  }

  /** The exact bound: a regenerated JWT declares all keys of its account if and only if there are
      at most 1000 of them. */
  lemma DeclaresAllIff(keys: map<Id, ScopedKey>, accountId: Id, signers: map<PubKey, Scope>)
    requires DeclaresNewest(keys, accountId, signers)
    ensures DeclaresExactly(keys, KeysOf(keys, accountId), signers) <==> |KeysOf(keys, accountId)| <= 1000
  {
    var all, declared := KeysOf(keys, accountId), Declared(keys, accountId, signers);
    SubsetSize(declared, all);
    if DeclaresExactly(keys, all, signers) {
      assert forall i | i in all :: i in declared;
      assert declared == all;
    }
  }

  lemma {:induction false} SignersHave(ks: seq<ScopedKey>, i: nat)
    requires i < |ks| && forall j | i < j < |ks| :: ks[j].publicKey != ks[i].publicKey
    ensures ks[i].publicKey in Signers(ks) && Signers(ks)[ks[i].publicKey] == ScopeOf(ks[i])
  {
    if i < |ks| - 1 {
      SignersHave(ks[..|ks| - 1], i);
    }
  }

  lemma {:induction false} SignersOnly(ks: seq<ScopedKey>, p: PubKey) returns (i: nat)
    requires p in Signers(ks)
    ensures i < |ks| && ks[i].publicKey == p
  {
    if ks[|ks| - 1].publicKey == p {
      i := |ks| - 1;
    } else {
      i := SignersOnly(ks[..|ks| - 1], p);
    }
  }

  /** The rows of a page have different public keys, and a stored key with one of theirs is on it. */
  lemma PagePublicKeys(db: Db, accountId: Id, ks: seq<ScopedKey>, ids: seq<Id>)
    requires KeysFit(db.accounts.Keys, db.keys)
    requires IsListing(db.keys, KeyTimes(db, accountId), PAGE, ks, ids)
    ensures forall i, j | 0 <= i < j < |ks| :: ks[i].publicKey != ks[j].publicKey
    ensures forall i, x | 0 <= i < |ks| && x in db.keys && db.keys[x].publicKey == ks[i].publicKey :: x == ids[i]
  {
    forall i, x | 0 <= i < |ks| && x in db.keys && x != ids[i] ensures db.keys[x].publicKey != ks[i].publicKey {
      assert FitsKey(db.accounts.Keys, db.keys, db.keys[x]);
    }
    forall i, j | 0 <= i < j < |ks| ensures ks[i].publicKey != ks[j].publicKey {
      assert ks[j] == db.keys[ids[j]];
    }
  }

  /** The keys of one page are the declared ones. */
  lemma DeclaredIsPage(db: Db, accountId: Id, ks: seq<ScopedKey>, ids: seq<Id>)
    requires KeysFit(db.accounts.Keys, db.keys)
    requires IsListing(db.keys, KeyTimes(db, accountId), PAGE, ks, ids)
    ensures Declared(db.keys, accountId, Signers(ks)) == Elements(ids)
    ensures DeclaresExactly(db.keys, Elements(ids), Signers(ks))
  {
    PagePublicKeys(db, accountId, ks, ids);
    var signers := Signers(ks);
    forall x | x in Declared(db.keys, accountId, signers) ensures x in ids {
      var i := SignersOnly(ks, db.keys[x].publicKey);
      assert x == ids[i];
    }
    forall x | x in ids
      ensures x in Declared(db.keys, accountId, signers) && signers[db.keys[x].publicKey] == ScopeOf(db.keys[x])
    {
      var i :| 0 <= i < |ids| && ids[i] == x;
      assert ks[i] == db.keys[x] && x in KeyTimes(db, accountId);
      SignersHave(ks, i);
    }
    forall p | p in signers ensures exists x :: x in Elements(ids) && db.keys[x].publicKey == p {
      var i := SignersOnly(ks, p);
      assert ids[i] in Elements(ids);
    }
  }

  /** Reading one page of the account's keys and declaring them declares the newest ones. */
  lemma PageDeclaresNewest(db: Db, accountId: Id, ks: seq<ScopedKey>, ids: seq<Id>)
    requires KeysFit(db.accounts.Keys, db.keys)
    requires IsListing(db.keys, KeyTimes(db, accountId), PAGE, ks, ids)
    ensures DeclaresNewest(db.keys, accountId, Signers(ks))
  {
    var all, times := KeysOf(db.keys, accountId), KeyTimes(db, accountId);
    DeclaredIsPage(db, accountId, ks, ids);
    DistinctSize(ids);
    assert times.Keys == all && |times| == |times.Keys|;
    forall i, j | i in ids && j in all && j !in ids
      ensures db.keys[i].createdAt >= db.keys[j].createdAt
    {
      var n :| 0 <= n < |ids| && ids[n] == i;
      assert times[ids[n]] >= times[j];
    }
  }
}
