/** What holds of the store after every run, whichever calls fail on the way: every JWT is signed by
    the key that the chain of trust wants, and names what its row says. */
module Invariants {
  import opened Entities
  import opened Database
  import opened Jwts
  import opened Transitions

  ghost predicate OperatorsSigned(operators: map<Id, Operator>) {
    forall i | i in operators ::
      && operators[i].publicKey.Key? && operators[i].seed == Seed(operators[i].publicKey)
      && operators[i].jwt == OperatorJwt(operators[i].publicKey, operators[i].publicKey, operators[i].name,
                                         operators[i].systemAccount)
  }

  /** The account's JWT is issued by its operator's key and names the account as its row does. */
  ghost predicate AccountSigned(operators: map<Id, Operator>, a: Account) {
    && a.publicKey.Key? && a.seed == Seed(a.publicKey)
    && a.operatorId in operators && a.jwt.AccountJwt? && a.jwt.issuer == operators[a.operatorId].publicKey
    && a.jwt.subject == a.publicKey && a.jwt.name == a.name
  }

  ghost predicate AccountsSigned(operators: map<Id, Operator>, accounts: map<Id, Account>) {
    forall i | i in accounts :: AccountSigned(operators, accounts[i])
  }

  ghost predicate KeysSeeded(accounts: map<Id, Account>, keys: map<Id, ScopedKey>) {
    && (forall i | i in keys :: keys[i].publicKey.Key? && keys[i].seed == Seed(keys[i].publicKey))
    && forall i, j | i in accounts && j in keys :: accounts[i].publicKey != keys[j].publicKey
  }

  /** A key pair that was drawn once, but that no stored account or scoped key has any more. */
  ghost predicate Gone(accounts: map<Id, Account>, keys: map<Id, ScopedKey>, next: nat, p: PubKey) {
    && p.Key? && p.n < next
    && (forall i | i in accounts :: accounts[i].publicKey != p)
    && (forall i | i in keys :: keys[i].publicKey != p)
  }

  /** A user with a scoped key is signed by that key of its own account; a user without one is signed
      by its account, or still carries the signature of a scoped key that was deleted. */
  ghost predicate UserSigned(accounts: map<Id, Account>, keys: map<Id, ScopedKey>, next: nat, u: User) {
    && u.accountId in accounts && u.jwt.UserJwt?
    && var a := accounts[u.accountId];
       if u.scopedKeyId.Some? then
         && u.scopedKeyId.value in keys && keys[u.scopedKeyId.value].accountId == u.accountId
         && u.jwt == UserJwt(keys[u.scopedKeyId.value].publicKey, u.publicKey, u.name, a.publicKey, true)
       else
         || u.jwt == UserJwt(a.publicKey, u.publicKey, u.name, NoKey, false)
         || (u.jwt == UserJwt(u.jwt.issuer, u.publicKey, u.name, a.publicKey, true)
             && Gone(accounts, keys, next, u.jwt.issuer))
  }

  ghost predicate UsersSigned(accounts: map<Id, Account>, keys: map<Id, ScopedKey>, next: nat, users: map<Id, User>) {
    forall i | i in users :: UserSigned(accounts, keys, next, users[i])
  }

  ghost predicate Signed(db: Db, next: nat) {
    && OperatorsSigned(db.operators) && AccountsSigned(db.operators, db.accounts)
    && KeysSeeded(db.accounts, db.keys) && UsersSigned(db.accounts, db.keys, next, db.users)
  }

  ghost predicate Inv(s: State) {
    Sound(s.db, s.next) && Signed(s.db, s.next)
  }

  /** Storing an account again with its own key pair disturbs no key and no user. */
  lemma SameAccountKeys(db: Db, next: nat, next': nat, a: Account)
    requires KeysSeeded(db.accounts, db.keys) && UsersSigned(db.accounts, db.keys, next, db.users) && next <= next'
    requires a.id in db.accounts && a.publicKey == db.accounts[a.id].publicKey
    ensures var accounts := db.accounts[a.id := a];
            KeysSeeded(accounts, db.keys) && UsersSigned(accounts, db.keys, next', db.users)
  {
    var accounts := db.accounts[a.id := a];
    forall i | i in db.users ensures UserSigned(accounts, db.keys, next', db.users[i]) {
      assert UserSigned(db.accounts, db.keys, next, db.users[i]);
    }
  }

  lemma ResignedSigned(s: State, a: Account, d: Db, next: nat)
    requires Signed(s.db, s.next) && Resigned(s.db, a, d) && s.next <= next
    requires a.publicKey == s.db.accounts[a.id].publicKey && a.seed == s.db.accounts[a.id].seed
    ensures Signed(d, next)
  {
    assert AccountSigned(s.db.operators, s.db.accounts[a.id]);
    SameAccountKeys(s.db, s.next, next, d.accounts[a.id]);
  }

  /** A new scoped key has a key pair that nothing else has. */
  lemma NewKeySeeded(s: State, k: ScopedKey)
    requires Supplied(s.db, s.next) && KeysSeeded(s.db.accounts, s.db.keys)
    requires k.publicKey.Key? && k.publicKey.n >= s.next && k.seed == Seed(k.publicKey)
    ensures KeysSeeded(s.db.accounts, s.db.keys[k.id := KeyRow(k)])
    ensures s.next <= k.id ==> k.id !in s.db.keys
  {
    hide WholeSeconds;
  }

  lemma NewKeySigned(s: State, k: ScopedKey, next: nat)
    requires Supplied(s.db, s.next) && Signed(s.db, s.next) && s.next <= next && s.next <= k.id
    requires k.publicKey.Key? && k.publicKey.n >= s.next && k.seed == Seed(k.publicKey)
    ensures Signed(WithKey(s.db, k), next)
  {
    hide Supplied, KeysSeeded, AccountsSigned, OperatorsSigned;
    NewKeySeeded(s, k);
    var keys := s.db.keys[k.id := KeyRow(k)];
    forall i | i in s.db.users ensures UserSigned(s.db.accounts, keys, next, s.db.users[i]) {
      assert UserSigned(s.db.accounts, s.db.keys, s.next, s.db.users[i]);
    }
  }

  lemma PatchedKeySigned(s: State, k: ScopedKey, next: nat)
    requires Signed(s.db, s.next) && s.next <= next && k.id in s.db.keys
    requires k.publicKey == s.db.keys[k.id].publicKey && k.seed == s.db.keys[k.id].seed
    requires k.accountId == s.db.keys[k.id].accountId
    ensures Signed(WithKey(s.db, k), next)
  {
    var keys := s.db.keys[k.id := KeyRow(k)];
    assert KeysSeeded(s.db.accounts, keys) by { hide UsersSigned; }
    hide KeysSeeded, AccountsSigned, OperatorsSigned;
    forall i | i in s.db.users ensures UserSigned(s.db.accounts, keys, next, s.db.users[i]) {
      assert UserSigned(s.db.accounts, s.db.keys, s.next, s.db.users[i]);
    }
  }

  /** Deleting rows keeps every remaining JWT right: a user whose key goes is left with the
      signature of a key pair that nothing has any more. */
  lemma KeepSigned(s: State, accts: set<Id>, ks: set<Id>, us: set<Id>, next: nat)
    requires Sound(s.db, s.next) && Signed(s.db, s.next) && s.next <= next
    requires forall i | i in s.db.users && i in us :: s.db.users[i].accountId in accts
    ensures Signed(Keep(s.db, accts, ks, us), next)
  {
    var d := Keep(s.db, accts, ks, us);
    forall i | i in d.users ensures UserSigned(d.accounts, d.keys, next, d.users[i]) {
      UserKept(s, accts, ks, us, i, next);
    }
  }

  lemma UserKept(s: State, accts: set<Id>, ks: set<Id>, us: set<Id>, i: Id, next: nat)
    requires Sound(s.db, s.next) && Signed(s.db, s.next) && s.next <= next
    requires i in s.db.users && i in us && s.db.users[i].accountId in accts
    ensures var d := Keep(s.db, accts, ks, us); UserSigned(d.accounts, d.keys, next, d.users[i])
  {
    hide Sound, Gone, KeysSeeded, AccountsSigned, OperatorsSigned;
    var d, u := Keep(s.db, accts, ks, us), s.db.users[i];
    assert UserSigned(s.db.accounts, s.db.keys, s.next, u);
    if u.scopedKeyId.Some? {
      if u.scopedKeyId.value !in ks {
        GoneOnceDeleted(s, u.scopedKeyId.value, accts, ks, next);
      }
    } else if u.jwt.scoped {
      GoneStays(s, accts, ks, next, u.jwt.issuer);
    }
  }

  lemma GoneStays(s: State, accts: set<Id>, ks: set<Id>, next: nat, p: PubKey)
    requires Gone(s.db.accounts, s.db.keys, s.next, p) && s.next <= next
    ensures var d := Keep(s.db, accts, ks, {}); Gone(d.accounts, d.keys, next, p)
  {
  }

  lemma GoneOnceDeleted(s: State, k: Id, accts: set<Id>, ks: set<Id>, next: nat)
    requires Sound(s.db, s.next) && Signed(s.db, s.next) && s.next <= next && k in s.db.keys && k !in ks
    ensures var d := Keep(s.db, accts, ks, {}); Gone(d.accounts, d.keys, next, s.db.keys[k].publicKey)
  {
    assert FitsKey(s.db.accounts.Keys, s.db.keys, s.db.keys[k]);
    assert Drawn(k, s.db.keys[k].publicKey, s.next);
  }

  lemma UsersSignedLater(accounts: map<Id, Account>, keys: map<Id, ScopedKey>, next: nat, next': nat,
      users: map<Id, User>)
    requires UsersSigned(accounts, keys, next, users) && next <= next'
    ensures UsersSigned(accounts, keys, next', users)
  {
    forall i | i in users ensures UserSigned(accounts, keys, next', users[i]) {
      assert UserSigned(accounts, keys, next, users[i]);
    }
  }

  lemma SignedUserSigned(db: Db, u: User, next: nat)
    requires HasSigner(db, u) && AccountsSigned(db.operators, db.accounts) && KeysSeeded(db.accounts, db.keys)
    requires u.scopedKeyId.Some? ==> db.keys[u.scopedKeyId.value].accountId == u.accountId
    ensures UserSigned(db.accounts, db.keys, next, SignedUser(db, u)) && SignedUser(db, u).id == u.id
  {
    assert AccountSigned(db.operators, db.accounts[u.accountId]);
  }

  lemma WithUserSigned(s: State, u: User, next: nat)
    requires Signed(s.db, s.next) && s.next <= next && HasSigner(s.db, u)
    requires u.scopedKeyId.Some? ==> s.db.keys[u.scopedKeyId.value].accountId == u.accountId
    ensures Signed(WithUser(s.db, SignedUser(s.db, u)), next)
  {
    hide OperatorsSigned, AccountsSigned, KeysSeeded, UserSigned, SignedUser;
    UsersSignedLater(s.db.accounts, s.db.keys, s.next, next, s.db.users);
    SignedUserSigned(s.db, u, next);
  }

  lemma WithOperatorSigned(s: State, o: Operator, next: nat)
    requires Signed(s.db, s.next) && s.next <= next
    requires o.publicKey.Key? && o.seed == Seed(o.publicKey) && o.jwt == OperatorClaims(o.publicKey, o)
    requires o.id in s.db.operators ==> o.publicKey == s.db.operators[o.id].publicKey
    ensures Signed(WithOperator(s.db, o), next)
  {
    hide UsersSigned, KeysSeeded;
    var d := WithOperator(s.db, o);
    UsersSignedLater(s.db.accounts, s.db.keys, s.next, next, s.db.users);
    forall i | i in d.accounts ensures AccountSigned(d.operators, d.accounts[i]) {
      assert AccountSigned(s.db.operators, s.db.accounts[i]);
    }
  }

  lemma MoreAccountsUserSigned(s: State, a: Account, next: nat)
    requires Supplied(s.db, s.next) && Signed(s.db, s.next) && s.next <= next
    requires a.id !in s.db.accounts && a.publicKey.Key? && a.publicKey.n >= s.next
    ensures UsersSigned(s.db.accounts[a.id := a], s.db.keys, next, s.db.users)
  {
    hide Supplied, KeysSeeded, AccountsSigned, OperatorsSigned;
    forall i | i in s.db.users ensures UserSigned(s.db.accounts[a.id := a], s.db.keys, next, s.db.users[i]) {
      assert UserSigned(s.db.accounts, s.db.keys, s.next, s.db.users[i]);
    }
  }

  lemma NewAccountSigned(s: State, req: CreateAccountRequest, n: nat, now: int, next: nat)
    requires Supplied(s.db, s.next) && Signed(s.db, s.next) && AcceptsNewAccount(s.db, req)
    requires s.next <= n && s.next <= next
    ensures Signed(WithNewAccount(s.db, req, n, now), next)
  {
    hide DefaultKeyDescription;
    var a := AccountRow(SignedNewAccount(s.db, req, n, now));
    MoreAccountsUserSigned(s, a, next);
    assert AccountSigned(s.db.operators, a);
    hide SignedNewAccount, UsersSigned;
    assert KeysSeeded(s.db.accounts[a.id := a], s.db.keys);
    assert AccountsSigned(s.db.operators, s.db.accounts[a.id := a]);
  }
}
