/** The credentials of a cluster, from the user they are made of to the NATS client that uses them. */
module ClusterCredentials {
  import opened Entities
  import opened Database
  import opened Jwts
  import opened Transitions
  import opened Invariants
  import opened Runs
  import opened Trust
  import opened Encryption
  import opened Sealing
  import opened Creds
  import opened CredsExact
  import opened CredsBytes

  /** The later vault, with the same cipher, still holds the key that the first one encrypts with. */
  ghost predicate KeepsKey(v: Vault, later: Vault, nonce: Bytes) {
    var e := v.encryptor;
    && OpenUndoesSeal(v.aead) && later.aead == v.aead && |nonce| == NONCE_SIZE
    && ColonFree(e.currentKeyId) && e.currentKeyId in e.keys
    && e.currentKeyId in later.encryptor.keys && later.encryptor.keys[e.currentKeyId] == e.keys[e.currentKeyId]
  }

  /** The user's seed decrypts to `seed`, and neither it nor the JWT breaks the file. */
  ghost predicate Printable(v: Vault, u: User, seed: string) {
    && Plain(v.jwtText(u.jwt)) && Plain(seed) && OneByte(v.jwtText(u.jwt)) && OneByte(seed)
    && Decrypt(v.aead, v.encryptor, v.seedRef(u.seed)) == Ok(ToBytes(seed))
  }

  lemma SealedIs(v: Vault, nonce: Bytes, u: User, seed: string)
    requires v.encryptor.currentKeyId in v.encryptor.keys && Printable(v, u, seed)
    ensures Sealed(v, nonce, u) == Encrypt(v.aead, v.encryptor, nonce, ToBytes(CredsFile(v.jwtText(u.jwt), seed)))
    ensures Sealed(v, nonce, u).Ok?
  {
    hide Decrypt, CredsFile, Plain;
    BytesRoundTrip(seed);
  }

  /** Opening a cluster whose credentials were made of this user gives the client exactly the user's
      JWT and seed, under any vault that still has the key, if and only if the cluster has a server. */
  lemma OpenGivesUserIff(v: Vault, later: Vault, nonce: Bytes, u: User, seed: string, c: Cluster)
    requires KeepsKey(v, later, nonce) && Printable(v, u, seed)
    requires Ok(c.creds) == Sealed(v, nonce, u)
    ensures OpenWith(later, c) == (if c.serverUrls == [] then Err(Invalid) else Ok(AsUser(v.jwtText(u.jwt), seed)))
  {
    hide Decrypt, CredsFile, Parse, OpenUndoesSeal, Sealed;
    var jwt := v.jwtText(u.jwt);
    SealedIs(v, nonce, u, seed);
    FileOneByte(jwt, seed);
    BytesRoundTrip(CredsFile(jwt, seed));
    DecryptsIff(v.aead, v.encryptor, later.encryptor, nonce, ToBytes(CredsFile(jwt, seed)));
    PlainRoundTrip(jwt, seed);
    NotEmpty(v.aead, v.encryptor, nonce, ToBytes(CredsFile(jwt, seed)));
    FileNotEmpty(jwt, seed);
  }

  lemma FileNotEmpty(jwt: string, seed: string)
    ensures CredsFile(jwt, seed) != ""
  {
    hide AfterJwt;
    JwtEndMarker();
  }

  /** When a cluster can be opened, and as whom: never as a user with an empty JWT or seed, and without
      credentials only if an empty file was stored. */
  lemma OpensIff(v: Vault, c: Cluster)
    ensures var content := Decrypt(v.aead, v.encryptor, c.creds);
            && (OpenWith(v, c).Ok? <==>
                  && c.creds != "" && |c.serverUrls| > 0 && content.Ok?
                  && (content.value == [] || Parse(FromBytes(content.value)).Credentials?))
            && (OpenWith(v, c) == Ok(Anonymous) <==> c.creds != "" && |c.serverUrls| > 0 && content == Ok([]))
    ensures forall jwt, seed | OpenWith(v, c) == Ok(AsUser(jwt, seed)) :: jwt != "" && seed != ""
  {
    hide Decrypt, Between;
  }

  // Which calls touch the credentials of a cluster.

  predicate SetsCredentials(e: Event, id: Id) {
    e.cmd.OnCluster? && e.cmd.call.UpdateClusterCredentials? && e.cmd.call.id == id && e.ok
  }

  lemma UpperStepKeepsClusters(s: State, e: Event, d: Db)
    requires Changes(s, e, d)
    requires e.cmd.CreateOperator? || e.cmd.UpdateOperator? || e.cmd.SetSystemAccount? || e.cmd.DeleteOperator?
    ensures d.clusters == s.db.clusters
  {
    hide SignedNewAccount, SignedUser, AccountRow, KeyRow, DefaultKeyDescription, SystemAccountDescription,
         SystemUserDescription, CreateAccountStep, UpdateAccountStep, UpdateJetStreamStep, DeleteAccountStep,
         CreateKeyStep, UpdateKeyStep, DeleteKeyStep, CreateUserStep, UpdateUserStep, DeleteUserStep, ClusterStep;
  }

  lemma AccountStepKeepsClusters(s: State, e: Event, d: Db)
    requires Changes(s, e, d)
    requires e.cmd.CreateAccount? || e.cmd.UpdateAccount? || e.cmd.UpdateJetStream? || e.cmd.DeleteAccount?
    ensures d.clusters == s.db.clusters
  {
    hide DeclaresNewest, Signable, SignedNewAccount, AccountRow, KeyRow, AccountTaken, DefaultKeyDescription,
         CreateOperatorStep, UpdateOperatorStep, SetSystemAccountStep, DeleteOperatorStep, CreateKeyStep,
         UpdateKeyStep, DeleteKeyStep, CreateUserStep, UpdateUserStep, DeleteUserStep, ClusterStep;
  }

  lemma LowerStepKeepsClusters(s: State, e: Event, d: Db)
    requires Changes(s, e, d)
    requires e.cmd.CreateKey? || e.cmd.UpdateKey? || e.cmd.DeleteKey? || e.cmd.CreateUser? || e.cmd.UpdateUser?
             || e.cmd.DeleteUser?
    ensures d.clusters == s.db.clusters
  {
    hide DeclaresNewest, Signable, HasSigner, SignedUser, KeyRow, KeyTaken, UserTaken, CreateOperatorStep,
         UpdateOperatorStep, SetSystemAccountStep, DeleteOperatorStep, CreateAccountStep, UpdateAccountStep,
         UpdateJetStreamStep, DeleteAccountStep, ClusterStep;
  }

  /** The call may give the cluster another system account. */
  predicate Redirects(e: Event, id: Id) {
    e.cmd.OnCluster? && e.cmd.call.UpdateCluster? && e.cmd.call.id == id && e.ok
        && e.cmd.call.clusterPatch.systemAccount.Some?
  }

  lemma ClusterStepKeepsCluster(s: State, c: ClusterCommand, ok: bool, faults: nat, d: Db, id: Id)
    requires ClustersFit(s.db.operators.Keys, s.db.clusters) && ClusterStep(s, c, ok, faults, d)
    requires id in d.clusters && id < s.next
    ensures id in s.db.clusters
    ensures !(ok && c.UpdateClusterCredentials? && c.id == id) ==> d.clusters[id].creds == s.db.clusters[id].creds
    ensures !(ok && c.UpdateCluster? && c.id == id && c.clusterPatch.systemAccount.Some?) ==>
              d.clusters[id].systemAccount == s.db.clusters[id].systemAccount
  {
    hide AcceptsNewCluster, IsManager, FitsCluster, Sealed;
  }

  lemma ClusterStepOf(s: State, e: Event, d: Db)
    requires Changes(s, e, d) && e.cmd.OnCluster?
    ensures ClusterStep(s, e.cmd.call, e.ok, e.faults, d)
  {
    hide CreateOperatorStep, UpdateOperatorStep, SetSystemAccountStep, DeleteOperatorStep, CreateAccountStep,
         UpdateAccountStep, UpdateJetStreamStep, DeleteAccountStep, CreateKeyStep, UpdateKeyStep, DeleteKeyStep,
         CreateUserStep, UpdateUserStep, DeleteUserStep, ClusterStep;
  }

  lemma StepKeepsCluster(s: State, e: Event, s': State, id: Id)
    requires Sound(s.db, s.next) && Step(s, e, s') && id in s'.db.clusters && id < s.next
    ensures id in s.db.clusters
    ensures !SetsCredentials(e, id) ==> s'.db.clusters[id].creds == s.db.clusters[id].creds
    ensures !Redirects(e, id) ==> s'.db.clusters[id].systemAccount == s.db.clusters[id].systemAccount
  {
    hide Supplied, ClustersFit, OperatorsFit, AccountsFit, KeysFit, UsersFit, Changes, ClusterStep;
    if e.cmd.OnCluster? {
      ClusterStepOf(s, e, s'.db);
      ClusterStepKeepsCluster(s, e.cmd.call, e.ok, e.faults, s'.db, id);
    } else if e.cmd.CreateOperator? || e.cmd.UpdateOperator? || e.cmd.SetSystemAccount? || e.cmd.DeleteOperator? {
      UpperStepKeepsClusters(s, e, s'.db);
    } else if e.cmd.CreateAccount? || e.cmd.UpdateAccount? || e.cmd.UpdateJetStream? || e.cmd.DeleteAccount? {
      AccountStepKeepsClusters(s, e, s'.db);
    } else {
      LowerStepKeepsClusters(s, e, s'.db);
    }
  }

  /** The call sets the credentials of the cluster from this user: an update, or the creation of the
      cluster, which takes them from its system user if it takes any. */
  ghost predicate SetsFrom(s: State, e: Event, d: Db, id: Id, userId: Id, v: Vault, nonce: Bytes) {
    && e.ok && e.cmd.OnCluster?
    && match e.cmd.call
       case UpdateClusterCredentials(i, u, vault, drawn) => i == id && u == userId && vault == v && drawn == nonce
       case CreateCluster(_, vault, drawn, _) =>
         && id == s.next && vault == v && drawn == nonce
         && id in d.clusters && d.clusters[id].creds != "" && IsManager(s.db, d.clusters[id].systemAccount, userId)
       case _ => false
  }

  /** Call `j` sets the credentials of the cluster from this user, and no call before `n` sets them again. */
  ghost predicate LastSet(states: seq<State>, events: seq<Event>, j: nat, n: nat, id: Id, userId: Id, v: Vault,
      nonce: Bytes) {
    && j < n <= |events| < |states|
    && SetsFrom(states[j], events[j], states[j + 1].db, id, userId, v, nonce)
    && forall i | j < i < n :: !SetsCredentials(events[i], id)
  }

  predicate Holds(db: Db, id: Id, creds: Result<string>) {
    id in db.clusters ==> Ok(db.clusters[id].creds) == creds
  }

  lemma {:induction false} CredentialsKept(states: seq<State>, events: seq<Event>, j: nat, n: nat, id: Id, userId: Id,
                                           v: Vault, nonce: Bytes)
    requires LastSet(states, events, j, n, id, userId, v, nonce) && IsRun(states, events)
    ensures userId in states[j].db.users && Holds(states[n].db, id, Sealed(v, nonce, states[j].db.users[userId]))
  {
    hide Step, Changes, Inv, Sound, Sealed, SetsFrom;
    StepAt(states, events, n - 1);
    SetAt(states[j], events[j], states[j + 1], id, userId, v, nonce) by {
      StepAt(states, events, j);
      RunKeeps(states, events, j);
    }
    if j < n - 1 {
      RunKeeps(states, events, n - 1);
      InvSound(states[n - 1]);
      SupplyGrows(states, events, j + 1, n - 1);
      if id in states[n].db.clusters {
        StepKeepsCluster(states[n - 1], events[n - 1], states[n], id);
      }
      CredentialsKept(states, events, j, n - 1, id, userId, v, nonce);
    }
  }

  lemma InvSound(s: State)
    requires Inv(s)
    ensures Sound(s.db, s.next)
  {
  }

  lemma SetAt(s: State, e: Event, s': State, id: Id, userId: Id, v: Vault, nonce: Bytes)
    requires Inv(s) && Step(s, e, s') && SetsFrom(s, e, s'.db, id, userId, v, nonce)
    ensures id < s'.next && userId in s.db.users && Holds(s'.db, id, Sealed(v, nonce, s.db.users[userId]))
  {
    hide OperatorsFit, AccountsFit, KeysFit, UsersFit, FitsCluster, Signed, Changes, Sealed, AcceptsNewCluster,
         IsManager;
    ClusterStepOf(s, e, s'.db);
    match e.cmd.call {
      case CreateCluster(req, _, _, now) => CreatedFrom(s, req, v, nonce, now, e.faults, s'.db, userId);
      case _ =>
    }
  }

  lemma CreatedFrom(s: State, req: CreateClusterRequest, v: Vault, nonce: Bytes, now: int, faults: nat, d: Db,
      userId: Id)
    requires AccountsFit(s.db.operators.Keys, s.db.accounts) && UsersFit(s.db.accounts.Keys, s.db.keys.Keys, s.db.users)
    requires CreateClusterStep(s, req, v, nonce, now, true, faults, d)
    requires s.next in d.clusters && d.clusters[s.next].creds != ""
    requires IsManager(s.db, d.clusters[s.next].systemAccount, userId)
    ensures userId in s.db.users && Holds(d, s.next, Sealed(v, nonce, s.db.users[userId]))
  {
    hide AccountsFit, UsersFit, Sealed, IsManager;
    var c := NewCluster(req, s.db.operators[req.operatorId].systemAccount, s.next, now);
    OneManager(s.db, c.systemAccount, userId);
    assert d != WithCluster(s.db, c);
    var u :| IsManager(s.db, c.systemAccount, u) && u in s.db.users && Sealed(v, nonce, s.db.users[u]).Ok?
             && d == WithCluster(s.db, c.(creds := Sealed(v, nonce, s.db.users[u]).value));
  }

  /** An account has one key pair and one user called "system". */
  lemma OneManager(db: Db, systemAccount: PubKey, u: Id)
    requires AccountsFit(db.operators.Keys, db.accounts) && UsersFit(db.accounts.Keys, db.keys.Keys, db.users)
    requires IsManager(db, systemAccount, u)
    ensures u in db.users && forall w | IsManager(db, systemAccount, w) :: w == u
  {
    forall w | IsManager(db, systemAccount, w) ensures w == u {
      assert FitsAccount(db.operators.Keys, db.accounts, db.accounts[db.users[w].accountId]);
      assert FitsUser(db.accounts.Keys, db.keys.Keys, db.users, db.users[w]);
    }
  }

  /** Opening this cluster, if it is there, gives the client exactly the user's JWT and this seed -
      unless all its servers were taken away, when there is no client at all. */
  ghost predicate Opens(db: Db, id: Id, v: Vault, jwt: string, seed: string) {
    id in db.clusters ==>
      OpenWith(v, db.clusters[id]) == if db.clusters[id].serverUrls == [] then Err(Invalid) else Ok(AsUser(jwt, seed))
  }

  /** The credential pipeline, over every run: after call `j`, an update or the creation
      of the cluster, set its credentials from a user, and with no later call setting them, opening
      the cluster at any later state gives the NATS client exactly the JWT and the seed that user
      had, under any vault that still has the key, if and only if the cluster still has a server. */
  lemma CredentialPipeline(states: seq<State>, events: seq<Event>, j: nat, n: nat, id: Id, u: User,
                           v: Vault, later: Vault, nonce: Bytes, seed: string)
    requires KeepsKey(v, later, nonce) && Printable(v, u, seed)
    requires |states| == |events| + 1 && j <= |events| && u.id in states[j].db.users && states[j].db.users[u.id] == u
    requires LastSet(states, events, j, n, id, u.id, v, nonce)
    requires IsRun(states, events)
    ensures Opens(states[n].db, id, later, v.jwtText(u.jwt), seed)
  {
    hide Step, Sealed, OpenUndoesSeal, OpenWith, Printable, SetsCredentials, SetsFrom;
    CredentialsKept(states, events, j, n, id, u.id, v, nonce);
    if id in states[n].db.clusters {
      OpenGivesUserIff(v, later, nonce, u, seed, states[n].db.clusters[id]);
    }
  }

  /** Taking all servers away is allowed, so the exception does occur. */
  lemma ServersCanGo(s: State, id: Id, c: Cluster)
    requires Sound(s.db, s.next) && id in s.db.clusters && c == s.db.clusters[id].(serverUrls := [])
    ensures var patch := UpdateClusterRequest(None, None, Some([]), None, None);
            UpdateClusterStep(s, id, patch, true, 0, WithCluster(s.db, c)) && WithCluster(s.db, c).clusters[id] == c
  {
    assert FitsCluster(s.db.operators.Keys, s.db.clusters, s.db.clusters[id]);
  }

  lemma NotEmpty(a: Aead, e: Encryptor, nonce: Bytes, plain: Bytes)
    requires e.currentKeyId in e.keys
    ensures Encrypt(a, e, nonce, plain).value != ""
  {
    assert |"encrypted:"| == 10;
  }
}
