/** What the calls on accounts store, and what the account's JWT grants. */
module AccountOutcomes {
  import opened Entities
  import opened Database
  import opened Jwts
  import opened Transitions
  import opened Invariants
  import opened Deletions
  import opened Coherence
  import opened KeyOutcomes
  import opened Outcomes

  /** Insertion puts the column default -1 in place of a maximum of 0. */
  predicate Defaulted(asked: int, stored: int) {
    (asked == 0 ==> stored == -1) && (asked != 0 ==> stored == asked)
  }

  predicate AllDefaulted(asked: JetStream, stored: JetStream) {
    && Defaulted(asked.maxMemory, stored.maxMemory) && Defaulted(asked.maxStorage, stored.maxStorage)
    && Defaulted(asked.maxStreams, stored.maxStreams) && Defaulted(asked.maxConsumers, stored.maxConsumers)
  }

  /** The row is what the request asks for; the JWT grants the limits as asked. */
  ghost predicate AccountAsAsked(db: Db, req: CreateAccountRequest, now: int, a: Account) {
    && a.operatorId == req.operatorId && a.name == req.name && a.description == req.description
    && a.jetStreamEnabled == req.jetStreamEnabled && AllDefaulted(req.jetStream, a.jetStream) && a.createdAt == now
    && a.seed == Seed(a.publicKey) && FreshPair(db, a.publicKey, 'A')
    && a.operatorId in db.operators && a.jwt.AccountJwt? && Seed(a.jwt.issuer) == db.operators[a.operatorId].seed
    && a.jwt.subject == a.publicKey && a.jwt.name == a.name
    && Grants(a.jwt.limits, req.jetStreamEnabled, req.jetStream)
  }

  /** The key that comes with a new account restricts nothing. */
  predicate IsDefaultKey(k: ScopedKey, account: Id, now: int) {
    && k.accountId == account && k.name == "default" && k.createdAt == now
    && k.description == "Default scoped signing key with unlimited account permissions"
    && k.pubAllow == [] && k.pubDeny == [] && k.subAllow == [] && k.subDeny == []
    && k.responseMaxMsgs == 0 && k.responseTtl == 0
    && k.seed == Seed(k.publicKey) && k.publicKey.Key? && k.publicKey.prefix == 'A'
  }

  lemma NewRows(db: Db, n: nat, req: CreateAccountRequest, now: int)
    requires Supplied(db, n) && AcceptsNewAccount(db, req)
    ensures var d, id := WithDefaultKey(WithNewAccount(db, req, n, now), n, now), n + 1;
            && id !in db.accounts && id in d.accounts && AccountAsAsked(db, req, now, d.accounts[id])
            && OnlyRow(db.accounts, d.accounts, id) && d == db.(accounts := d.accounts, keys := d.keys)
            && d.accounts[id].publicKey == Key('A', n)
  {
    hide AccountTaken, DefaultKeyDescription;
  }

  lemma NewDefaultKey(db: Db, n: nat, req: CreateAccountRequest, now: int)
    requires Supplied(db, n) && AcceptsNewAccount(db, req)
    ensures var d, id, k := WithDefaultKey(WithNewAccount(db, req, n, now), n, now), n + 1, n + 3;
            && k !in db.keys && k in d.keys && IsDefaultKey(d.keys[k], id, now) && OnlyRow(db.keys, d.keys, k)
            && id in d.accounts && d.keys[k].publicKey != d.accounts[id].publicKey && d.accounts[id].jwt.AccountJwt?
            && d.accounts[id].jwt.signers.Keys == {d.keys[k].publicKey}
            && Says(d.accounts[id].jwt.signers[d.keys[k].publicKey], d.keys[k])
  {
    hide AccountTaken;
  }

  /** A new account has exactly one key, the default one, and its JWT declares just that. */
  lemma CreatedAccount(s: State, req: CreateAccountRequest, now: int, faults: nat, d: Db) returns (id: Id, k: Id)
    requires Inv(s) && CreateAccountStep(s, req, now, true, faults, d)
    ensures id !in s.db.accounts && id in d.accounts && AccountAsAsked(s.db, req, now, d.accounts[id])
    ensures k !in s.db.keys && k in d.keys && IsDefaultKey(d.keys[k], id, now)
    ensures d.keys[k].publicKey != d.accounts[id].publicKey && KeysOf(d.keys, id) == {k}
    ensures d.accounts[id].jwt.signers.Keys == {d.keys[k].publicKey}
            && Says(d.accounts[id].jwt.signers[d.keys[k].publicKey], d.keys[k])
    ensures OnlyRow(s.db.accounts, d.accounts, id) && OnlyRow(s.db.keys, d.keys, k)
    ensures d == s.db.(accounts := d.accounts, keys := d.keys)
  {
    hide Schema, Supplied, Signed, AcceptsNewAccount, WithNewAccount, WithDefaultKey, AccountAsAsked, Says;
    id, k := s.next + 1, s.next + 3;
    NoKeysYet(s, id);
    NewRows(s.db, s.next, req, now);
    NewDefaultKey(s.db, s.next, req, now);
  }

  /** A failed creation that is not undone leaves the account as asked, without a key. */
  lemma LeftBehind(s: State, req: CreateAccountRequest, now: int, faults: nat, d: Db) returns (id: Id)
    requires Inv(s) && CreateAccountStep(s, req, now, false, faults, d) && d != s.db
    ensures faults >= 2
    ensures id !in s.db.accounts && id in d.accounts && AccountAsAsked(s.db, req, now, d.accounts[id])
    ensures KeysOf(d.keys, id) == {} && OnlyRow(s.db.accounts, d.accounts, id) && d == s.db.(accounts := d.accounts)
  {
    hide OperatorsFit, AccountsFit, KeysFit, UsersFit, ClustersFit, Signed, AccountTaken, DefaultKeyDescription;
    id := s.next + 1;
    NoKeysYet(s, id);
  }

  /** The JWT of a new account grants what its stored row says exactly if JetStream is off or no maximum
      is 0: the default -1 comes in after the JWT was signed. */
  lemma NewAccountLimitsIff(s: State, req: CreateAccountRequest, now: int, faults: nat, d: Db, id: Id)
    requires Inv(s) && CreateAccountStep(s, req, now, true, faults, d) && id in d.accounts && id !in s.db.accounts
    ensures var a, asked := d.accounts[id], req.jetStream;
            a.jwt.AccountJwt? &&
            (Grants(a.jwt.limits, a.jetStreamEnabled, a.jetStream) <==>
               !req.jetStreamEnabled
               || (asked.maxMemory != 0 && asked.maxStorage != 0 && asked.maxStreams != 0 && asked.maxConsumers != 0))
  {
    hide Schema, Signed, AccountTaken, DefaultKeyDescription;
  }

  /** An update stores the fields it gives, keeps the others, and signs anew whenever a field changes. */
  lemma UpdatedAccount(s: State, id: Id, req: UpdateRequest, faults: nat, d: Db)
    requires Inv(s) && UpdateAccountStep(s, id, req, true, faults, d)
    ensures id in s.db.accounts && id in d.accounts
    ensures OnlyRow(s.db.accounts, d.accounts, id) && d == s.db.(accounts := d.accounts)
    ensures var a, a' := s.db.accounts[id], d.accounts[id];
            && Takes(req.name, a.name, a'.name) && Takes(req.description, a.description, a'.description)
            && (d != s.db ==> SignedAnew(s.db, id, a.(name := a'.name, description := a'.description), d))
            && (a'.name != a.name || a'.description != a.description ==> d != s.db)
  {
    hide Supplied, OperatorsFit, AccountsFit, KeysFit, UsersFit, ClustersFit, AccountsSigned, KeysSeeded, UsersSigned,
         Signable, DeclaresNewest, AccountTaken, Differs, SignedAnew;
    OwnAccountId(s.db, id);
    if d != s.db {
      ResignedAnew(s.db, s.db, PatchedAccount(s.db.accounts[id], req), d);
    }
  }

  /** New limits are stored as given, zeros included, and granted by the new JWT one by one. */
  lemma UpdatedLimits(s: State, id: Id, enabled: bool, limits: JetStream, faults: nat, d: Db)
    requires Inv(s) && UpdateJetStreamStep(s, id, enabled, limits, true, faults, d)
    ensures id in s.db.accounts && id in d.accounts
    ensures OnlyRow(s.db.accounts, d.accounts, id) && d == s.db.(accounts := d.accounts)
    ensures SignedAnew(s.db, id, s.db.accounts[id].(jetStreamEnabled := enabled, jetStream := limits), d)
    ensures d.accounts[id].jwt.limits == if enabled then Some(limits) else None
  {
    hide Supplied, OperatorsFit, AccountsFit, KeysFit, UsersFit, ClustersFit, AccountsSigned, KeysSeeded, UsersSigned,
         Signable, DeclaresNewest;
    OwnAccountId(s.db, id);
    ResignedAnew(s.db, s.db, s.db.accounts[id].(jetStreamEnabled := enabled, jetStream := limits), d);
  }

  /** A deletion takes exactly the account with its keys and users away; the users of other accounts keep
      their keys. */
  lemma DeletedAccount(s: State, id: Id, faults: nat, d: Db, x: Id)
    requires Inv(s) && DeleteAccountStep(s, id, true, faults, d)
    ensures id in s.db.accounts && d.accounts == s.db.accounts - {id}
    ensures d.operators == s.db.operators && d.clusters == s.db.clusters
    ensures x in d.keys <==> x in s.db.keys && s.db.keys[x].accountId != id
    ensures x in d.keys ==> d.keys[x] == s.db.keys[x]
    ensures x in d.users <==> x in s.db.users && s.db.users[x].accountId != id
    ensures x in d.users ==> d.users[x] == s.db.users[x]
  {
    hide Inv, KeepBelow;
    BelowRows(s.db, s.db.accounts.Keys - {id}, s.db.users.Keys);
    if x in s.db.users { UserLinks(s, x); }
    if x in s.db.keys { KeyLinks(s, x); }
  }
}
