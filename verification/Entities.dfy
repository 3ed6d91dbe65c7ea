/** The rows NIS stores, the claims its JWTs carry, and the requests its services take. */
module Entities {
  datatype Option<+T> = None | Some(value: T)

  datatype Error =
    | NotFound
    | AlreadyExists
    | Rejected      // a unique index or a foreign key refuses the statement
    | Invalid       // the service's own validation refuses the request
    | Unsignable    // the stored seed cannot be decrypted into a key pair
    | Panicked      // a slice whose end precedes its start: the call does not return
    | Denied        // the caller has no authority over the row
    | Broken        // the repository, the encryptor or the network failed

  datatype Result<+T> = Ok(value: T) | Err(error: Error)

  type Id = nat

  /** An NKey public key: a prefix letter ('O', 'A', 'U') and the number of the draw that made it.
      `NoKey` is the empty string. */
  datatype PubKey = NoKey | Key(prefix: char, n: nat)

  /** An encrypted seed column, known by the key pair it decrypts to. `NoSeed` is the empty string
      that an export without secrets leaves behind. */
  datatype Secret = NoSeed | Seed(key: PubKey)

  datatype JetStream = JetStream(maxMemory: int, maxStorage: int, maxStreams: int, maxConsumers: int)

  /** One entry of an account JWT's `signing_keys` claim. */
  datatype Scope = Scope(role: string, description: string,
                         pubAllow: seq<string>, pubDeny: seq<string>,
                         subAllow: seq<string>, subDeny: seq<string>,
                         response: Option<(int, int)>)

  /** The claims of a JWT; `issuer` is the key that signed it. `NoJwt` is the empty string. */
  datatype Jwt =
    | NoJwt
    | OperatorJwt(issuer: PubKey, subject: PubKey, name: string, systemAccount: PubKey)
    | AccountJwt(issuer: PubKey, subject: PubKey, name: string, limits: Option<JetStream>,
                 signers: map<PubKey, Scope>)
    | UserJwt(issuer: PubKey, subject: PubKey, name: string, issuerAccount: PubKey, scoped: bool)

  datatype Operator = Operator(id: Id, name: string, description: string, seed: Secret,
                               publicKey: PubKey, jwt: Jwt, systemAccount: PubKey, createdAt: int)

  datatype Account = Account(id: Id, operatorId: Id, name: string, description: string, seed: Secret,
                             publicKey: PubKey, jwt: Jwt, jetStreamEnabled: bool, jetStream: JetStream,
                             createdAt: int)

  /** `responseTtl` is in nanoseconds, as Go's `time.Duration`. */
  datatype ScopedKey = ScopedKey(id: Id, accountId: Id, name: string, description: string, seed: Secret,
                                 publicKey: PubKey,
                                 pubAllow: seq<string>, pubDeny: seq<string>,
                                 subAllow: seq<string>, subDeny: seq<string>,
                                 responseMaxMsgs: int, responseTtl: int, createdAt: int)

  datatype User = User(id: Id, accountId: Id, name: string, description: string, seed: Secret,
                       publicKey: PubKey, jwt: Jwt, scopedKeyId: Option<Id>, createdAt: int)

  datatype Cluster = Cluster(id: Id, operatorId: Id, name: string, description: string,
                             serverUrls: seq<string>, systemAccount: PubKey, creds: string,
                             skipVerifyTls: bool, createdAt: int)

  datatype CreateAccountRequest = CreateAccountRequest(operatorId: Id, name: string, description: string,
                                                       jetStreamEnabled: bool, jetStream: JetStream)

  datatype CreateKeyRequest = CreateKeyRequest(accountId: Id, name: string, description: string,
                                               pubAllow: seq<string>, pubDeny: seq<string>,
                                               subAllow: seq<string>, subDeny: seq<string>,
                                               responseMaxMsgs: int, responseTtl: int)

  datatype UpdateKeyRequest = UpdateKeyRequest(name: Option<string>, description: Option<string>,
                                               pubAllow: Option<seq<string>>, pubDeny: Option<seq<string>>,
                                               subAllow: Option<seq<string>>, subDeny: Option<seq<string>>,
                                               responseMaxMsgs: Option<int>, responseTtl: Option<int>)

  datatype CreateUserRequest = CreateUserRequest(accountId: Id, name: string, description: string,
                                                 scopedKeyId: Option<Id>)

  /** The operator, account and user update requests all carry just these two fields. */
  datatype UpdateRequest = UpdateRequest(name: Option<string>, description: Option<string>)

  datatype CreateClusterRequest = CreateClusterRequest(operatorId: Id, name: string, description: string,
                                                       serverUrls: seq<string>, skipVerifyTls: bool)

  datatype UpdateClusterRequest = UpdateClusterRequest(name: Option<string>, description: Option<string>,
                                                       serverUrls: Option<seq<string>>, systemAccount: Option<PubKey>,
                                                       skipVerifyTls: Option<bool>)

  function OrElse<T>(o: Option<T>, d: T): T {
    if o.Some? then o.value else d
  }

  predicate Differs<T(==)>(o: Option<T>, current: T) {
    o.Some? && o.value != current
  }
}
