/** What each service call may do to the store: the new state after success, every state a failure
    can leave behind, and when a call that meets no fault succeeds. */
module Transitions {
  import opened Entities
  import opened Database
  import opened Jwts
  import opened Encryption
  import opened Sealing

  datatype State = State(db: Db, next: nat)

  // Rows built by the services. `n` is the first number the call draws from the supply.

  function NewKey(req: CreateKeyRequest, n: nat, now: int): ScopedKey {
    ScopedKey(n + 1, req.accountId, req.name, req.description, Seed(Key('A', n)), Key('A', n),
              req.pubAllow, req.pubDeny, req.subAllow, req.subDeny,
              req.responseMaxMsgs, req.responseTtl, now)
  }

  function DefaultKeyDescription(): string {
    "Default scoped signing key with unlimited account permissions"
  }

  function DefaultKeyRequest(accountId: Id): CreateKeyRequest {
    CreateKeyRequest(accountId, "default", DefaultKeyDescription(), [], [], [], [], 0, 0)
  }

  function NewAccount(req: CreateAccountRequest, n: nat, now: int): Account {
    Account(n + 1, req.operatorId, req.name, req.description, Seed(Key('A', n)), Key('A', n), NoJwt,
            req.jetStreamEnabled, req.jetStream, now)
  }

  function NewUser(req: CreateUserRequest, n: nat, now: int): User {
    User(n + 1, req.accountId, req.name, req.description, Seed(Key('U', n)), Key('U', n), NoJwt, req.scopedKeyId, now)
  }

  function NewOperator(name: string, description: string, n: nat, now: int): Operator {
    var o := Operator(n + 1, name, description, Seed(Key('O', n)), Key('O', n), NoJwt, NoKey, now);
    o.(jwt := OperatorClaims(Key('O', n), o))
  }

  function SystemAccountDescription(): string {
    "System account for operator management and syncing"
  }

  function SystemAccountRequest(operatorId: Id): CreateAccountRequest {
    CreateAccountRequest(operatorId, "$SYS", SystemAccountDescription(), false, JetStream(0, 0, 0, 0))
  }

  function SystemUserDescription(): string {
    "System user for operator management"
  }

  function SystemUserRequest(accountId: Id): CreateUserRequest {
    CreateUserRequest(accountId, "system", SystemUserDescription(), None)
  }

  // Accounts

  function AccountTaken(db: Db, operatorId: Id, name: string): bool {
    exists i | i in db.accounts :: db.accounts[i].operatorId == operatorId && db.accounts[i].name == name
  }

  ghost predicate Signable(db: Db, accountId: Id) {
    && accountId in db.accounts && db.accounts[accountId].operatorId in db.operators
    && db.operators[db.accounts[accountId].operatorId].seed.Seed?
  }

  /** `d` is `db` with the row `a` stored and signed afresh by its operator, declaring the newest
      keys the account has in `db`. */
  ghost predicate Resigned(db: Db, a: Account, d: Db) {
    && Signable(db, a.id) && a.operatorId == db.accounts[a.id].operatorId
    && a.id in d.accounts && d.accounts[a.id].jwt.AccountJwt?
    && var signers := d.accounts[a.id].jwt.signers;
       && DeclaresNewest(db.keys, a.id, signers)
       && d == db.(accounts :=
                     db.accounts[a.id := a.(jwt := AccountClaims(db.operators[a.operatorId].seed.key, a, signers))])
  }

  predicate AcceptsNewAccount(db: Db, req: CreateAccountRequest) {
    && req.name != "" && req.operatorId in db.operators && db.operators[req.operatorId].seed.Seed?
    && !AccountTaken(db, req.operatorId, req.name)
  }

  /** The new account, signed by its operator and declaring its default key. */
  function SignedNewAccount(db: Db, req: CreateAccountRequest, n: nat, now: int): Account
    requires req.operatorId in db.operators && db.operators[req.operatorId].seed.Seed?
  {
    var a := NewAccount(req, n, now);
    var k := NewKey(DefaultKeyRequest(a.id), n + 2, now);
    a.(jwt := AccountClaims(db.operators[req.operatorId].seed.key, a, map[k.publicKey := ScopeOf(k)]))
  }

  function WithNewAccount(db: Db, req: CreateAccountRequest, n: nat, now: int): Db
    requires req.operatorId in db.operators && db.operators[req.operatorId].seed.Seed?
  {
    db.(accounts := db.accounts[n + 1 := AccountRow(SignedNewAccount(db, req, n, now))])
  }

  function WithDefaultKey(db: Db, n: nat, now: int): Db {
    var k := NewKey(DefaultKeyRequest(n + 1), n + 2, now);
    db.(keys := db.keys[k.id := KeyRow(k)])
  }

  /** One fault leaves nothing behind. Only when the rollback fails too does the account stay, and
      then without the key that its JWT declares. */
  ghost predicate CreateAccountStep(s: State, req: CreateAccountRequest, now: int, ok: bool, faults: nat, d: Db) {
    && (faults == 0 ==> (ok <==> AcceptsNewAccount(s.db, req)))
    && (ok || d != s.db ==> AcceptsNewAccount(s.db, req))
    && (ok ==> d == WithDefaultKey(WithNewAccount(s.db, req, s.next, now), s.next, now))
    && (!ok && d != s.db ==> faults >= 2 && d == WithNewAccount(s.db, req, s.next, now))
  }

  function PatchedAccount(a: Account, req: UpdateRequest): Account {
    a.(name := OrElse(req.name, a.name), description := OrElse(req.description, a.description))
  }

  ghost predicate UpdateAccountStep(s: State, id: Id, req: UpdateRequest, ok: bool, faults: nat, d: Db) {
    && (faults == 0 ==> (ok <==>
         && id in s.db.accounts
         && (Differs(req.name, s.db.accounts[id].name) ==>
               !AccountTaken(s.db, s.db.accounts[id].operatorId, req.name.value))
         && (PatchedAccount(s.db.accounts[id], req) != s.db.accounts[id] ==> Signable(s.db, id))))
    && (ok ==>
         && id in s.db.accounts
         && (Differs(req.name, s.db.accounts[id].name) ==>
               !AccountTaken(s.db, s.db.accounts[id].operatorId, req.name.value))
         && var a := s.db.accounts[id];
            if PatchedAccount(a, req) == a then d == s.db else Resigned(s.db, PatchedAccount(a, req), d))
    && (!ok ==> d == s.db)
  }

  ghost predicate UpdateJetStreamStep(s: State, id: Id, enabled: bool, limits: JetStream, ok: bool, faults: nat,
      d: Db) {
    && (faults == 0 ==> (ok <==> id in s.db.accounts && Signable(s.db, id)))
    && (ok ==> id in s.db.accounts &&
               Resigned(s.db, s.db.accounts[id].(jetStreamEnabled := enabled, jetStream := limits), d))
    && (!ok ==> d == s.db)
  }

  predicate IsSystemAccount(db: Db, id: Id) {
    && id in db.accounts && db.accounts[id].operatorId in db.operators
    && db.operators[db.accounts[id].operatorId].systemAccount == db.accounts[id].publicKey
  }

  ghost predicate DeleteAccountStep(s: State, id: Id, ok: bool, faults: nat, d: Db) {
    && (faults == 0 ==> (ok <==> id in s.db.accounts && !IsSystemAccount(s.db, id)))
    && (ok ==> id in s.db.accounts && !IsSystemAccount(s.db, id))
    && d == if ok then WithoutAccount(s.db, id) else s.db
  }

  // Scoped signing keys

  function KeyTaken(db: Db, accountId: Id, name: string): bool {
    exists i | i in db.keys :: db.keys[i].accountId == accountId && db.keys[i].name == name
  }

  function WithKey(db: Db, k: ScopedKey): Db {
    db.(keys := db.keys[k.id := KeyRow(k)])
  }

  /** A single fault never separates the keys from the JWT: the new row stays behind only when both
      the re-signing and the rollback fail. */
  ghost predicate CreateKeyStep(s: State, req: CreateKeyRequest, now: int, ok: bool, faults: nat, d: Db) {
    && (faults == 0 ==> (ok <==>
         && req.name != "" && req.accountId in s.db.accounts && !KeyTaken(s.db, req.accountId, req.name)
         && Signable(s.db, req.accountId)))
    && (ok || d != s.db ==>
          req.name != "" && req.accountId in s.db.accounts && !KeyTaken(s.db, req.accountId, req.name))
    && var inserted := WithKey(s.db, NewKey(req, s.next, now));
       && (ok ==> Resigned(inserted, s.db.accounts[req.accountId], d))
       && (!ok && d != s.db ==> d == inserted && (if Signable(s.db, req.accountId) then faults >= 2 else faults >= 1))
  }

  function PatchedKey(k: ScopedKey, req: UpdateKeyRequest): ScopedKey {
    k.(name := OrElse(req.name, k.name), description := OrElse(req.description, k.description),
       pubAllow := OrElse(req.pubAllow, k.pubAllow), pubDeny := OrElse(req.pubDeny, k.pubDeny),
       subAllow := OrElse(req.subAllow, k.subAllow), subDeny := OrElse(req.subDeny, k.subDeny),
       responseMaxMsgs := OrElse(req.responseMaxMsgs, k.responseMaxMsgs),
       responseTtl := OrElse(req.responseTtl, k.responseTtl))
  }

  /** A permission list counts as changed whenever the request gives one. */
  predicate ChangesKey(k: ScopedKey, req: UpdateKeyRequest) {
    || Differs(req.name, k.name) || Differs(req.description, k.description)
    || req.pubAllow.Some? || req.pubDeny.Some? || req.subAllow.Some? || req.subDeny.Some?
    || Differs(req.responseMaxMsgs, k.responseMaxMsgs) || Differs(req.responseTtl, k.responseTtl)
  }

  /** There is no rollback: a failed re-signing leaves the changed row under the old JWT. */
  ghost predicate UpdateKeyStep(s: State, id: Id, req: UpdateKeyRequest, ok: bool, faults: nat, d: Db) {
    if id !in s.db.keys then !ok && d == s.db
    else
      var k := s.db.keys[id];
      var updated := WithKey(s.db, PatchedKey(k, req));
      && (faults == 0 ==> (ok <==>
           && (Differs(req.name, k.name) ==> !KeyTaken(s.db, k.accountId, req.name.value))
           && (ChangesKey(k, req) ==> Signable(s.db, k.accountId))))
      && (ok || d != s.db ==> Differs(req.name, k.name) ==> !KeyTaken(s.db, k.accountId, req.name.value))
      && (ok && !ChangesKey(k, req) ==> d == s.db)
      && (ok && ChangesKey(k, req) ==> k.accountId in s.db.accounts && Resigned(updated, s.db.accounts[k.accountId], d))
      && (!ok && d != s.db ==> d == updated && (Signable(s.db, k.accountId) ==> faults >= 1))
  }

  ghost predicate DeleteKeyStep(s: State, id: Id, ok: bool, faults: nat, d: Db) {
    if id !in s.db.keys then !ok && d == s.db
    else
      var accountId := s.db.keys[id].accountId;
      var deleted := WithoutKey(s.db, id);
      && (faults == 0 ==> (ok <==> Signable(s.db, accountId)))
      && (ok ==> accountId in s.db.accounts && Resigned(deleted, s.db.accounts[accountId], d))
      && (!ok && d != s.db ==> d == deleted && (Signable(s.db, accountId) ==> faults >= 1))
  }

  // Users

  function UserTaken(db: Db, accountId: Id, name: string): bool {
    exists i | i in db.users :: db.users[i].accountId == accountId && db.users[i].name == name
  }

  /** The key that signs `u`: its scoped key if it names one, else its account's own. */
  function SignerSeed(db: Db, u: User): Secret
    requires u.accountId in db.accounts && (u.scopedKeyId.Some? ==> u.scopedKeyId.value in db.keys)
  {
    if u.scopedKeyId.Some? then db.keys[u.scopedKeyId.value].seed else db.accounts[u.accountId].seed
  }

  ghost predicate HasSigner(db: Db, u: User) {
    && u.accountId in db.accounts && (u.scopedKeyId.Some? ==> u.scopedKeyId.value in db.keys)
    && SignerSeed(db, u).Seed?
  }

  function SignedUser(db: Db, u: User): User
    requires u.accountId in db.accounts && (u.scopedKeyId.Some? ==> u.scopedKeyId.value in db.keys)
    requires SignerSeed(db, u).Seed?
  {
    u.(jwt := UserClaims(SignerSeed(db, u).key, u, db.accounts[u.accountId], u.scopedKeyId.Some?))
  }

  function WithUser(db: Db, u: User): Db {
    db.(users := db.users[u.id := u])
  }

  ghost predicate AcceptsNewUser(db: Db, req: CreateUserRequest) {
    && req.name != "" && req.accountId in db.accounts && !UserTaken(db, req.accountId, req.name)
    && (req.scopedKeyId.Some? ==> req.scopedKeyId.value in db.keys
                                  && db.keys[req.scopedKeyId.value].accountId == req.accountId)
    && HasSigner(db, NewUser(req, 0, 0))
  }

  ghost predicate CreateUserStep(s: State, req: CreateUserRequest, now: int, ok: bool, faults: nat, d: Db) {
    && (faults == 0 ==> (ok <==> AcceptsNewUser(s.db, req)))
    && (ok ==> AcceptsNewUser(s.db, req) && d == WithUser(s.db, SignedUser(s.db, NewUser(req, s.next, now))))
    && (!ok ==> d == s.db)
  }

  function PatchedUser(u: User, req: UpdateRequest): User {
    u.(name := OrElse(req.name, u.name), description := OrElse(req.description, u.description))
  }

  ghost predicate UpdateUserStep(s: State, id: Id, req: UpdateRequest, ok: bool, faults: nat, d: Db) {
    if id !in s.db.users then !ok && d == s.db
    else
      var u := s.db.users[id];
      var patched := PatchedUser(u, req);
      && (faults == 0 ==> (ok <==>
           && (Differs(req.name, u.name) ==> !UserTaken(s.db, u.accountId, req.name.value))
           && (patched != u ==> HasSigner(s.db, patched))))
      && (ok && Differs(req.name, u.name) ==> !UserTaken(s.db, u.accountId, req.name.value))
      && (ok && patched == u ==> d == s.db)
      && (ok && patched != u ==> HasSigner(s.db, patched) && d == WithUser(s.db, SignedUser(s.db, patched)))
      && (!ok ==> d == s.db)
  }

  predicate IsSystemUser(db: Db, id: Id) {
    && id in db.users && db.users[id].accountId in db.accounts
    && db.accounts[db.users[id].accountId].name == "$SYS" && db.users[id].name == "system"
  }

  ghost predicate DeleteUserStep(s: State, id: Id, ok: bool, faults: nat, d: Db) {
    && (faults == 0 ==> (ok <==> id in s.db.users && !IsSystemUser(s.db, id)))
    && (ok ==> id in s.db.users && !IsSystemUser(s.db, id))
    && d == if ok then WithoutUser(s.db, id) else s.db
  }

  // Operators

  function OperatorTaken(db: Db, name: string): bool {
    exists i | i in db.operators :: db.operators[i].name == name
  }

  function WithOperator(db: Db, o: Operator): Db {
    db.(operators := db.operators[o.id := o])
  }

  function Designating(o: Operator, systemAccount: PubKey): Operator
    requires o.seed.Seed?
  {
    var o' := o.(systemAccount := systemAccount);
    o'.(jwt := OperatorClaims(o.seed.key, o'))
  }

  /** The four databases `CreateOperator` goes through, in order: the operator row, then its $SYS
      account (with its default key), then the system user, then the designation. */
  function CreateOperatorStage(s: State, name: string, description: string, now: int, stage: nat): Db
    requires 1 <= stage <= 4
  {
    var n := s.next;
    var o := NewOperator(name, description, n, now);
    var d1 := WithOperator(s.db, o);
    var d2 := WithDefaultKey(WithNewAccount(d1, SystemAccountRequest(n + 1), n + 2, now), n + 2, now);
    var d3 := WithUser(d2, SignedUser(d2, NewUser(SystemUserRequest(n + 3), n + 6, now)));
    if stage == 1 then d1 else if stage == 2 then d2 else if stage == 3 then d3
    else WithOperator(d3, Designating(o, Key('A', n + 2)))
  }

  /** There is no rollback of the operator: a failure leaves the database at one of the stages. */
  ghost predicate CreateOperatorStep(s: State, name: string, description: string, now: int,
                                     ok: bool, faults: nat, d: Db) {
    && (faults == 0 ==> (ok <==> name != "" && !OperatorTaken(s.db, name)))
    && (ok || d != s.db ==> name != "" && !OperatorTaken(s.db, name))
    && (ok ==> d == CreateOperatorStage(s, name, description, now, 4))
    && (!ok && d != s.db ==>
          || (faults >= 1 && exists stage | 1 <= stage <= 3 ::
                d == CreateOperatorStage(s, name, description, now, stage))
          || (faults >= 2 && d == WithNewAccount(CreateOperatorStage(s, name, description, now, 1),
                                                 SystemAccountRequest(s.next + 1), s.next + 2, now)))
  }

  function PatchedOperator(o: Operator, req: UpdateRequest): Operator {
    o.(name := OrElse(req.name, o.name), description := OrElse(req.description, o.description))
  }

  ghost predicate UpdateOperatorStep(s: State, id: Id, req: UpdateRequest, ok: bool, faults: nat, d: Db) {
    if id !in s.db.operators then !ok && d == s.db
    else
      var o := s.db.operators[id];
      var patched := PatchedOperator(o, req);
      && (faults == 0 ==> (ok <==>
           && (Differs(req.name, o.name) ==> !OperatorTaken(s.db, req.name.value))
           && (patched != o ==> o.seed.Seed?)))
      && (ok && Differs(req.name, o.name) ==> !OperatorTaken(s.db, req.name.value))
      && (ok && patched == o ==> d == s.db)
      && (ok && patched != o ==> o.seed.Seed? && d == WithOperator(s.db, Designating(patched, o.systemAccount)))
      && (!ok ==> d == s.db)
  }

  predicate NamesSystemAccount(jwt: Jwt, k: PubKey) {
    jwt.OperatorJwt? && jwt.systemAccount == k
  }

  /** The JWT is kept when it already names the account. */
  ghost predicate SetSystemAccountStep(s: State, id: Id, k: PubKey, ok: bool, faults: nat, d: Db) {
    if id !in s.db.operators then !ok && d == s.db
    else
      var o := s.db.operators[id];
      var valid := k.Key? ==> k.prefix == 'A';
      && (faults == 0 ==> (ok <==> valid && (NamesSystemAccount(o.jwt, k) || o.seed.Seed?)))
      && (ok ==> valid && (NamesSystemAccount(o.jwt, k) || o.seed.Seed?) &&
                 d == WithOperator(s.db, if NamesSystemAccount(o.jwt,
                     k) then o.(systemAccount := k) else Designating(o, k)))
      && (!ok ==> d == s.db)
  }

  ghost predicate AccountsLeft(db: Db, id: Id, d: Db) {
    && d.operators == db.operators && d.clusters == db.clusters
    && (forall a | a in d.accounts :: a in db.accounts && d.accounts[a] == db.accounts[a])
    && (forall a | a in db.accounts && db.accounts[a].operatorId != id :: a in d.accounts)
    && (forall k | k in d.keys :: k in db.keys && db.keys[k].accountId in d.accounts && d.keys[k] == db.keys[k])
    && (forall k | k in db.keys && db.keys[k].accountId in d.accounts :: k in d.keys)
  }

  ghost predicate UsersLeft(db: Db, id: Id, d: Db) {
    && (forall u | u in d.users ::
          u in db.users && db.users[u].accountId in d.accounts && d.users[u] == Unlink(db.users[u], d.keys.Keys))
    && (forall u | u in db.users && db.users[u].accountId !in AccountsOf(db, id) :: u in d.users)
  }

  /** `d` is `db` after some of the operator's accounts, and some users of its accounts, are gone:
      a key stays or goes with its account, no user outlives its account, and nothing outside the
      operator changes. */
  ghost predicate PartlyDeleted(db: Db, id: Id, d: Db) {
    AccountsLeft(db, id, d) && UsersLeft(db, id, d)
  }

  /** How many accounts, and how many users of each, one deletion of an operator lists. */
  const BULK := 10000

  /** Clusters refer to their operator without cascade, so an operator that has one is never
      deleted, yet without a fault the attempt deletes all its accounts. */
  ghost predicate DeleteOperatorStep(s: State, id: Id, ok: bool, faults: nat, d: Db) {
    && (faults == 0 ==> (ok <==> id in s.db.operators && ClustersOf(s.db, id) == {}))
    && (ok ==> id in s.db.operators && ClustersOf(s.db, id) == {} && d == WithoutOperator(s.db, id))
    && (!ok ==> PartlyDeleted(s.db, id, d))
    && (!ok && id !in s.db.operators ==> d == s.db)
    && (!ok && faults == 0 && |AccountsOf(s.db, id)| <= BULK ==> AccountsOf(d, id) == {})
  }

  // Clusters

  function ClusterTaken(db: Db, name: string): bool {
    exists i | i in db.clusters :: db.clusters[i].name == name
  }

  function WithCluster(db: Db, c: Cluster): Db {
    db.(clusters := db.clusters[c.id := c])
  }

  predicate AcceptsNewCluster(db: Db, req: CreateClusterRequest) {
    && req.name != "" && req.serverUrls != [] && req.operatorId in db.operators
    && db.operators[req.operatorId].systemAccount != NoKey && !ClusterTaken(db, req.name)
    && exists i | i in db.accounts :: db.accounts[i].publicKey == db.operators[req.operatorId].systemAccount
  }

  function NewCluster(req: CreateClusterRequest, systemAccount: PubKey, n: nat, now: int): Cluster {
    Cluster(n, req.operatorId, req.name, req.description, req.serverUrls, systemAccount, "", req.skipVerifyTls, now)
  }

  /** The user that a new cluster takes its credentials from. */
  predicate IsManager(db: Db, systemAccount: PubKey, u: Id) {
    && u in db.users && db.users[u].name == "system" && db.users[u].accountId in db.accounts
    && db.accounts[db.users[u].accountId].publicKey == systemAccount
  }

  /** A new cluster gets the credentials of its system user where it can; failing to is no error. */
  ghost predicate CreateClusterStep(s: State, req: CreateClusterRequest, v: Vault, nonce: Bytes, now: int,
                                    ok: bool, faults: nat, d: Db) {
    && (faults == 0 ==> (ok <==> AcceptsNewCluster(s.db, req)))
    && (ok ==>
         && AcceptsNewCluster(s.db, req)
         && var c := NewCluster(req, s.db.operators[req.operatorId].systemAccount, s.next, now);
            || (d == WithCluster(s.db, c)
                && (faults == 0 ==>
                      forall u | IsManager(s.db, c.systemAccount, u) :: Sealed(v, nonce, s.db.users[u]).Err?))
            || exists u | IsManager(s.db, c.systemAccount, u) ::
                 && Sealed(v, nonce, s.db.users[u]).Ok?
                 && d == WithCluster(s.db, c.(creds := Sealed(v, nonce, s.db.users[u]).value)))
    && (!ok ==> d == s.db)
  }

  ghost predicate ClusterCredentialsStep(s: State, id: Id, userId: Id, v: Vault, nonce: Bytes,
                                         ok: bool, faults: nat, d: Db) {
    && (faults == 0 ==>
          (ok <==> id in s.db.clusters && userId in s.db.users && Sealed(v, nonce, s.db.users[userId]).Ok?))
    && (ok ==>
         && id in s.db.clusters && userId in s.db.users && Sealed(v, nonce, s.db.users[userId]).Ok?
         && d == WithCluster(s.db, s.db.clusters[id].(creds := Sealed(v, nonce, s.db.users[userId]).value)))
    && (!ok ==> d == s.db)
  }

  function PatchedCluster(c: Cluster, req: UpdateClusterRequest): Cluster {
    c.(name := OrElse(req.name, c.name), description := OrElse(req.description, c.description),
       serverUrls := OrElse(req.serverUrls, c.serverUrls), systemAccount := OrElse(req.systemAccount, c.systemAccount),
       skipVerifyTls := OrElse(req.skipVerifyTls, c.skipVerifyTls))
  }

  ghost predicate UpdateClusterStep(s: State, id: Id, req: UpdateClusterRequest, ok: bool, faults: nat, d: Db) {
    if id !in s.db.clusters then !ok && d == s.db
    else
      var c := s.db.clusters[id];
      && (faults == 0 ==> (ok <==> (Differs(req.name, c.name) ==> !ClusterTaken(s.db, req.name.value))))
      && (ok && Differs(req.name, c.name) ==> !ClusterTaken(s.db, req.name.value))
      && d == if ok then WithCluster(s.db, PatchedCluster(c, req)) else s.db
  }

  ghost predicate DeleteClusterStep(s: State, id: Id, ok: bool, faults: nat, d: Db) {
    && (faults == 0 ==> (ok <==> id in s.db.clusters))
    && (ok ==> id in s.db.clusters)
    && d == if ok then WithoutCluster(s.db, id) else s.db
  }

  datatype ClusterCommand =
    | CreateCluster(req: CreateClusterRequest, vault: Vault, nonce: Bytes, now: int)
    | UpdateClusterCredentials(id: Id, userId: Id, vault: Vault, nonce: Bytes)
    | UpdateCluster(id: Id, clusterPatch: UpdateClusterRequest)
    | DeleteCluster(id: Id)

  ghost predicate ClusterStep(s: State, c: ClusterCommand, ok: bool, faults: nat, d: Db) {
    match c
    case CreateCluster(req, v, nonce, now) => CreateClusterStep(s, req, v, nonce, now, ok, faults, d)
    case UpdateClusterCredentials(id, userId, v, nonce) =>
      ClusterCredentialsStep(s, id, userId, v, nonce, ok, faults, d)
    case UpdateCluster(id, req) => UpdateClusterStep(s, id, req, ok, faults, d)
    case DeleteCluster(id) => DeleteClusterStep(s, id, ok, faults, d)
  }

  lemma ClusterStepOnlyClusters(s: State, c: ClusterCommand, ok: bool, faults: nat, d: Db)
    requires ClusterStep(s, c, ok, faults, d)
    ensures d.operators == s.db.operators && d.accounts == s.db.accounts && d.keys == s.db.keys && d.users == s.db.users
  {
    hide AcceptsNewCluster, IsManager, Sealed;
  }

  // The whole machine

  datatype Command =
    | CreateOperator(name: string, description: string, now: int)
    | UpdateOperator(operatorId: Id, patch: UpdateRequest)
    | SetSystemAccount(operatorId: Id, key: PubKey)
    | DeleteOperator(operatorId: Id)
    | CreateAccount(account: CreateAccountRequest, now: int)
    | UpdateAccount(accountId: Id, patch: UpdateRequest)
    | UpdateJetStream(accountId: Id, enabled: bool, limits: JetStream)
    | DeleteAccount(accountId: Id)
    | CreateKey(newKey: CreateKeyRequest, now: int)
    | UpdateKey(keyId: Id, keyPatch: UpdateKeyRequest)
    | DeleteKey(keyId: Id)
    | CreateUser(user: CreateUserRequest, now: int)
    | UpdateUser(userId: Id, patch: UpdateRequest)
    | DeleteUser(userId: Id)
    | OnCluster(call: ClusterCommand)

  /** A call, whether it succeeded, and how many repository or encryptor calls failed inside it. */
  datatype Event = Event(cmd: Command, ok: bool, faults: nat)

  ghost predicate Changes(s: State, e: Event, d: Db) {
    match e.cmd
    case CreateOperator(name, description, now) => CreateOperatorStep(s, name, description, now, e.ok, e.faults, d)
    case UpdateOperator(id, req) => UpdateOperatorStep(s, id, req, e.ok, e.faults, d)
    case SetSystemAccount(id, k) => SetSystemAccountStep(s, id, k, e.ok, e.faults, d)
    case DeleteOperator(id) => DeleteOperatorStep(s, id, e.ok, e.faults, d)
    case CreateAccount(req, now) => CreateAccountStep(s, req, now, e.ok, e.faults, d)
    case UpdateAccount(id, req) => UpdateAccountStep(s, id, req, e.ok, e.faults, d)
    case UpdateJetStream(id, enabled, limits) => UpdateJetStreamStep(s, id, enabled, limits, e.ok, e.faults, d)
    case DeleteAccount(id) => DeleteAccountStep(s, id, e.ok, e.faults, d)
    case CreateKey(req, now) => CreateKeyStep(s, req, now, e.ok, e.faults, d)
    case UpdateKey(id, req) => UpdateKeyStep(s, id, req, e.ok, e.faults, d)
    case DeleteKey(id) => DeleteKeyStep(s, id, e.ok, e.faults, d)
    case CreateUser(req, now) => CreateUserStep(s, req, now, e.ok, e.faults, d)
    case UpdateUser(id, req) => UpdateUserStep(s, id, req, e.ok, e.faults, d)
    case DeleteUser(id) => DeleteUserStep(s, id, e.ok, e.faults, d)
    case OnCluster(c) => ClusterStep(s, c, e.ok, e.faults, d)
  }

  ghost predicate Step(s: State, e: Event, s': State) {
    Changes(s, e, s'.db) && Sound(s'.db, s'.next) && s.next <= s'.next
  }

  /** A call on a cluster changes no other table. */
  lemma OnlyClustersChange(s: State, e: Event, d: Db)
    requires Changes(s, e, d) && e.cmd.OnCluster?
    ensures d.operators == s.db.operators && d.accounts == s.db.accounts && d.keys == s.db.keys && d.users == s.db.users
  {
    hide CreateOperatorStep, UpdateOperatorStep, SetSystemAccountStep, DeleteOperatorStep, CreateAccountStep,
         UpdateAccountStep, UpdateJetStreamStep, DeleteAccountStep, CreateKeyStep, UpdateKeyStep, DeleteKeyStep,
         CreateUserStep, UpdateUserStep, DeleteUserStep, ClusterStep;
    ClusterStepOnlyClusters(s, e.cmd.call, e.ok, e.faults, d);
  }
}
