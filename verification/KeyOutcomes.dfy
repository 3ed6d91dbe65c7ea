/** What the calls on scoped signing keys store, and what the account's JWT says of the key afterwards. */
module KeyOutcomes {
  import opened Entities
  import opened Database
  import opened Jwts
  import opened Transitions
  import opened Invariants
  import opened Identities
  import opened Coherence
  import opened Outcomes

  /** The eight fields that an update may give; a duration is stored in whole seconds. */
  ghost predicate KeyTakes(k: ScopedKey, req: UpdateKeyRequest, k': ScopedKey) {
    && Takes(req.name, k.name, k'.name) && Takes(req.description, k.description, k'.description)
    && Takes(req.pubAllow, k.pubAllow, k'.pubAllow) && Takes(req.pubDeny, k.pubDeny, k'.pubDeny)
    && Takes(req.subAllow, k.subAllow, k'.subAllow) && Takes(req.subDeny, k.subDeny, k'.subDeny)
    && Takes(req.responseMaxMsgs, k.responseMaxMsgs, k'.responseMaxMsgs)
    && (req.responseTtl.Some? ==> CutOff(req.responseTtl.value, k'.responseTtl))
    && (req.responseTtl.None? ==> k'.responseTtl == k.responseTtl)
  }

  /** What the update may not touch. */
  predicate SameKeyIdentity(k: ScopedKey, k': ScopedKey) {
    && k'.id == k.id && k'.accountId == k.accountId && k'.publicKey == k.publicKey && k'.seed == k.seed
    && k'.createdAt == k.createdAt
  }

  lemma PatchTakes(k: ScopedKey, req: UpdateKeyRequest)
    requires Whole(k)
    ensures KeyTakes(k, req, KeyRow(PatchedKey(k, req))) && SameKeyIdentity(k, KeyRow(PatchedKey(k, req)))
    ensures !ChangesKey(k, req) ==> KeyTakes(k, req, k)
  {
    hide WholeSeconds, CutOff;
    StoredCutOff(PatchedKey(k, req).responseTtl, KeyRow(PatchedKey(k, req)).responseTtl);
    StoredCutOff(k.responseTtl, k.responseTtl);
  }

  /** An update that succeeds, or fails after it changed the store, stores in each field what the request
      gives, or else what was there; it touches no other key and no user. */
  lemma UpdatedKey(s: State, id: Id, req: UpdateKeyRequest, ok: bool, faults: nat, d: Db)
    requires Inv(s) && Exportable(s.db) && UpdateKeyStep(s, id, req, ok, faults, d) && (ok || d != s.db)
    ensures id in s.db.keys && id in d.keys
    ensures KeyTakes(s.db.keys[id], req, d.keys[id]) && SameKeyIdentity(s.db.keys[id], d.keys[id])
    ensures OnlyRow(s.db.keys, d.keys, id) && d == s.db.(keys := d.keys, accounts := d.accounts)
  {
    hide Supplied, OperatorsFit, AccountsFit, UsersFit, ClustersFit, Signed, KeyTakes, SameKeyIdentity, KeyRow,
         PatchedKey, ChangesKey, KeyTaken, Signable, DeclaresNewest, Differs, Apart, Whole;
    KeepsId(s.db.keys[id], req);
    PatchTakes(s.db.keys[id], req);
    SameKeyRow(s.db.keys[id]);
  }

  lemma KeepsId(k: ScopedKey, req: UpdateKeyRequest)
    ensures PatchedKey(k, req).id == KeyRow(PatchedKey(k, req)).id == k.id
    ensures KeyRow(PatchedKey(k, req)).accountId == k.accountId
  {
  }

  lemma SameKeyRow(k: ScopedKey)
    ensures SameKeyIdentity(k, k)
  {
  }

  /** If it succeeds, the account is signed anew over the new row, and its JWT says of the key what the
      row says; only a request that changes nothing leaves the JWT as it was. */
  lemma UpdatedKeySigner(s: State, id: Id, req: UpdateKeyRequest, faults: nat, d: Db)
    requires Inv(s) && UpdateKeyStep(s, id, req, true, faults, d)
    requires d != s.db || (id in s.db.keys && Coherent(s.db, s.db.keys[id].accountId))
    ensures id in s.db.keys && id in d.keys && SignerSays(d, id)
    ensures var a := s.db.keys[id].accountId;
            d != s.db ==> a in s.db.accounts && SignedAnew(s.db, a, s.db.accounts[a], d)
                          && OnlyRow(s.db.accounts, d.accounts, a)
  {
    hide Supplied, OperatorsFit, KeysFit, UsersFit, ClustersFit, AccountsSigned, KeysSeeded, UsersSigned, WholeSeconds,
         PatchedKey, ChangesKey, KeyTaken, Signable, DeclaresNewest, Differs, SignerSays, Resigned, Coherent,
         SignedAnew;
    KeepsId(s.db.keys[id], req);
    OwnId(s.db, id);
    var a := s.db.keys[id].accountId;
    if d != s.db {
      var updated := WithKey(s.db, PatchedKey(s.db.keys[id], req));
      OwnAccountId(s.db, a);
      ResignedAnew(s.db, updated, s.db.accounts[a], d);
      SignedCoherent(s.db, a, s.db.accounts[a], d);
    }
    DeclaresFields(d, id);
  }

  lemma OwnId(db: Db, k: Id)
    requires Schema(db) && k in db.keys
    ensures db.keys[k].id == k
  {
    assert FitsKey(db.accounts.Keys, db.keys, db.keys[k]);
  }

  lemma OwnAccountId(db: Db, a: Id)
    requires Schema(db) && a in db.accounts
    ensures db.accounts[a].id == a
  {
    assert FitsAccount(db.operators.Keys, db.accounts, db.accounts[a]);
  }

  lemma SignedCoherent(db: Db, a: Id, row: Account, d: Db)
    requires SignedAnew(db, a, row, d)
    ensures Coherent(d, a)
  {
    hide Coherent;
  }

  // A key that is created

  /** The new row is what the request asks for, with a key pair that nothing else has. */
  ghost predicate KeyAsAsked(db: Db, req: CreateKeyRequest, now: int, k: ScopedKey) {
    && k.accountId == req.accountId && k.name == req.name && k.description == req.description
    && k.pubAllow == req.pubAllow && k.pubDeny == req.pubDeny
    && k.subAllow == req.subAllow && k.subDeny == req.subDeny
    && k.responseMaxMsgs == req.responseMaxMsgs && CutOff(req.responseTtl, k.responseTtl) && k.createdAt == now
    && k.seed == Seed(k.publicKey) && FreshPair(db, k.publicKey, 'A')
  }

  /** One that succeeds, or fails without being undone, adds one key as asked and touches no other row of
      keys, users, operators and clusters. */
  lemma CreatedKey(s: State, req: CreateKeyRequest, now: int, ok: bool, faults: nat, d: Db) returns (id: Id)
    requires Inv(s) && CreateKeyStep(s, req, now, ok, faults, d) && (ok || d != s.db)
    ensures id !in s.db.keys && id in d.keys && KeyAsAsked(s.db, req, now, d.keys[id])
    ensures OnlyRow(s.db.keys, d.keys, id) && d == s.db.(keys := d.keys, accounts := d.accounts)
  {
    hide Schema, Signed, KeyTaken, Signable, DeclaresNewest, WholeSeconds, CutOff;
    id := s.next + 1;
    StoredCutOff(req.responseTtl, KeyRow(NewKey(req, s.next, now)).responseTtl);
  }

  /** And if it succeeds, the account is signed anew with the new key. */
  lemma CreatedKeySigner(s: State, req: CreateKeyRequest, now: int, faults: nat, d: Db, id: Id)
    requires Inv(s) && CreateKeyStep(s, req, now, true, faults, d) && id in d.keys && id !in s.db.keys
    ensures SignerSays(d, id)
    ensures var a := req.accountId;
            && a in s.db.accounts && SignedAnew(s.db, a, s.db.accounts[a], d) && OnlyRow(s.db.accounts, d.accounts, a)
  {
    hide Supplied, OperatorsFit, KeysFit, UsersFit, ClustersFit, AccountsSigned, KeysSeeded, UsersSigned, WholeSeconds,
         KeyTaken, Signable, DeclaresNewest, SignerSays, Resigned, Coherent, SignedAnew;
    var a := req.accountId;
    OwnAccountId(s.db, a);
    ResignedAnew(s.db, WithKey(s.db, NewKey(req, s.next, now)), s.db.accounts[a], d);
    SignedCoherent(s.db, a, s.db.accounts[a], d);
    DeclaresFields(d, id);
  }

  // A key that is deleted

  /** One that succeeds, or fails after it changed the store, removes that key and takes it from the users
      that name it; and no other row of keys, users, operators and clusters changes. */
  lemma DeletedKey(s: State, id: Id, ok: bool, faults: nat, d: Db)
    requires Inv(s) && DeleteKeyStep(s, id, ok, faults, d) && (ok || d != s.db)
    ensures id in s.db.keys && d.keys == s.db.keys - {id}
    ensures d == s.db.(keys := d.keys, users := d.users, accounts := d.accounts)
    ensures d.users.Keys == s.db.users.Keys
    ensures forall u | u in s.db.users ::
              d.users[u] == if s.db.users[u].scopedKeyId == Some(id) then s.db.users[u].(scopedKeyId := None)
                            else s.db.users[u]
  {
    hide Supplied, OperatorsFit, AccountsFit, KeysFit, ClustersFit, Signed, Signable, DeclaresNewest, FitsUser;
    var gone := WithoutKey(s.db, id);
    assert gone.keys == s.db.keys - {id};
    assert gone.users.Keys == s.db.users.Keys;
    forall u | u in s.db.users
        ensures s.db.users[u].scopedKeyId.Some? ==> s.db.users[u].scopedKeyId.value in s.db.keys {
      UserKeyThere(s.db, u);
    }
  }

  lemma UserKeyThere(db: Db, u: Id)
    requires Schema(db) && u in db.users
    ensures db.users[u].scopedKeyId.Some? ==> db.users[u].scopedKeyId.value in db.keys
    ensures db.users[u].accountId in db.accounts
  {
    assert FitsUser(db.accounts.Keys, db.keys.Keys, db.users, db.users[u]);
  }

  /** And if it succeeds, the account's JWT no longer declares the key. */
  lemma DeletedKeySigner(s: State, id: Id, faults: nat, d: Db)
    requires Inv(s) && DeleteKeyStep(s, id, true, faults, d)
    ensures id in s.db.keys
    ensures var k := s.db.keys[id];
            && k.accountId in s.db.accounts && SignedAnew(s.db, k.accountId, s.db.accounts[k.accountId], d)
            && OnlyRow(s.db.accounts, d.accounts, k.accountId)
            && k.publicKey !in d.accounts[k.accountId].jwt.signers
  {
    hide Supplied, OperatorsFit, KeysFit, UsersFit, ClustersFit, AccountsSigned, KeysSeeded, UsersSigned, WholeSeconds,
         KeyTaken, Signable, DeclaresNewest, Resigned, Coherent, SignedAnew, Keep;
    var k := s.db.keys[id];
    OwnAccountId(s.db, k.accountId);
    SameBelow(s.db, id);
    ResignedAnew(s.db, WithoutKey(s.db, id), s.db.accounts[k.accountId], d);
    SignedCoherent(s.db, k.accountId, s.db.accounts[k.accountId], d);
    NoLongerDeclared(s.db, id, d);
  }

  lemma SameBelow(db: Db, id: Id)
    ensures WithoutKey(db, id).operators == db.operators && WithoutKey(db, id).accounts == db.accounts
    ensures WithoutKey(db, id).keys == db.keys - {id}
  {
    assert WithoutKey(db, id).accounts == db.accounts;
  }

  lemma NoLongerDeclared(db: Db, id: Id, d: Db)
    requires KeysFit(db.accounts.Keys, db.keys) && id in db.keys && d.keys == db.keys - {id}
    requires Coherent(d, db.keys[id].accountId)
    ensures db.keys[id].publicKey !in d.accounts[db.keys[id].accountId].jwt.signers
  {
    assert FitsKey(db.accounts.Keys, db.keys, db.keys[id]);
    assert forall i | i in d.keys :: d.keys[i].publicKey != db.keys[id].publicKey;
  }
}
