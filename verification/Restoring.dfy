/** Importing an export of a signed store, with its secrets, keeps the store signed: the services can
    go on from there as if they had made the rows themselves. */
module Restoring {
  import opened Entities
  import opened Database
  import opened Transitions
  import opened Invariants
  import opened Runs
  import opened Identities
  import opened ExportService
  import opened ImportService
  import opened ImportTheorems
  import opened ImportCopies

  /** The key pair is that of one of these accounts or of their keys, or has signed one of their users. */
  ghost predicate Uses(db: Db, accts: set<Id>, p: PubKey) {
    || (exists a | a in db.accounts && a in accts :: db.accounts[a].publicKey == p)
    || (exists k | k in db.keys && db.keys[k].accountId in accts :: db.keys[k].publicKey == p)
    || exists u | u in db.users && db.users[u].accountId in accts && db.users[u].jwt.UserJwt? ::
          db.users[u].jwt.issuer == p
  }

  /** The operator and the store have no key pair in common. */
  ghost predicate Strangers(source: Db, id: Id, db: Db) {
    forall p | Uses(source, AccountsOf(source, id), p) :: !Uses(db, db.accounts.Keys, p)
  }

  lemma RestoredOperators(x: Db, id: Id, db: Db, d: Db, m: map<Id, Id>)
    requires OperatorsSigned(x.operators) && OperatorsSigned(db.operators) && OperatorCopied(x, id, db, d, m)
    ensures OperatorsSigned(d.operators)
  {
  }

  lemma RestoredAccounts(x: Db, id: Id, db: Db, d: Db, m: map<Id, Id>)
    requires AccountsSigned(x.operators, x.accounts) && AccountsSigned(db.operators, db.accounts)
    requires OperatorCopied(x, id, db, d, m) && AccountsCopied(x, id, db, d, m)
    ensures AccountsSigned(d.operators, d.accounts)
  {
    forall i | i in d.accounts ensures AccountSigned(d.operators, d.accounts[i]) {
      if i in db.accounts {
        assert AccountSigned(db.operators, db.accounts[i]);
      } else {
        var a :| a in AccountsOf(x, id) && a in m && m[a] == i;
        assert AccountSigned(x.operators, x.accounts[a]);
      }
    }
  }

  /** The public key of an account of the restored store comes from the store or from the operator. */
  lemma RestoredAccountKey(x: Db, id: Id, db: Db, d: Db, m: map<Id, Id>, i: Id)
    requires AccountsCopied(x, id, db, d, m) && i in d.accounts
    ensures (i in db.accounts && d.accounts[i] == db.accounts[i])
            || exists a | a in AccountsOf(x, id) :: x.accounts[a].publicKey == d.accounts[i].publicKey
  {
    if i !in db.accounts {
      var a :| a in AccountsOf(x, id) && a in m && m[a] == i;
      assert d.accounts[m[a]].publicKey == x.accounts[a].publicKey;
    }
  }

  lemma RestoredKeyKey(x: Db, id: Id, db: Db, d: Db, m: map<Id, Id>, i: Id)
    requires KeysCopied(x, id, db, d, m) && i in d.keys
    ensures (i in db.keys && d.keys[i] == db.keys[i])
            || exists k | k in KeysUnder(x, AccountsOf(x, id)) ::
                 x.keys[k].publicKey == d.keys[i].publicKey && x.keys[k].seed == d.keys[i].seed
  {
    if i !in db.keys {
      var k :| k in KeysUnder(x, AccountsOf(x, id)) && k in m && m[k] == i;
      assert d.keys[m[k]].publicKey == x.keys[k].publicKey;
    }
  }

  lemma RestoredKeys(x: Db, id: Id, db: Db, d: Db, m: map<Id, Id>)
    requires KeysSeeded(x.accounts, x.keys) && KeysSeeded(db.accounts, db.keys) && Strangers(x, id, db)
    requires AccountsCopied(x, id, db, d, m) && KeysCopied(x, id, db, d, m)
    requires forall k | k in db.keys :: db.keys[k].accountId in db.accounts
    ensures KeysSeeded(d.accounts, d.keys)
  {
    hide AccountsCopied, KeysCopied;
    forall j | j in d.keys ensures d.keys[j].publicKey.Key? && d.keys[j].seed == Seed(d.keys[j].publicKey) {
      RestoredKeyKey(x, id, db, d, m, j);
    }
    forall i, j | i in d.accounts && j in d.keys ensures d.accounts[i].publicKey != d.keys[j].publicKey {
      RestoredAccountKey(x, id, db, d, m, i);
      RestoredKeyKey(x, id, db, d, m, j);
      var p := d.accounts[i].publicKey;
      assert p == d.keys[j].publicKey ==> !(Uses(x, AccountsOf(x, id), p) && Uses(db, db.accounts.Keys, p));
    }
  }

  /** A key pair that was gone from the store, and is none of the operator's, is still gone. */
  lemma StillGone(x: Db, id: Id, db: Db, d: Db, m: map<Id, Id>, next: nat, next': nat, p: PubKey)
    requires AccountsCopied(x, id, db, d, m) && KeysCopied(x, id, db, d, m) && next <= next'
    requires Gone(db.accounts, db.keys, next, p) && !Uses(x, AccountsOf(x, id), p)
    ensures Gone(d.accounts, d.keys, next', p)
  {
    hide AccountsCopied, KeysCopied;
    forall i | i in d.accounts ensures d.accounts[i].publicKey != p { RestoredAccountKey(x, id, db, d, m, i); }
    forall i | i in d.keys ensures d.keys[i].publicKey != p { RestoredKeyKey(x, id, db, d, m, i); }
  }

  /** One that was gone from the source, and is none of the store's, is gone from the copy. */
  lemma GoneThere(x: Db, id: Id, db: Db, d: Db, m: map<Id, Id>, next: nat, next': nat, p: PubKey)
    requires AccountsCopied(x, id, db, d, m) && KeysCopied(x, id, db, d, m) && p.Key? && p.n < next'
    requires Gone(x.accounts, x.keys, next, p) && !Uses(db, db.accounts.Keys, p)
    requires forall k | k in db.keys :: db.keys[k].accountId in db.accounts
    ensures Gone(d.accounts, d.keys, next', p)
  {
    hide AccountsCopied, KeysCopied;
    forall i | i in d.accounts ensures d.accounts[i].publicKey != p { RestoredAccountKey(x, id, db, d, m, i); }
    forall i | i in d.keys ensures d.keys[i].publicKey != p { RestoredKeyKey(x, id, db, d, m, i); }
  }

  lemma OldUserSigned(x: Db, id: Id, db: Db, d: Db, m: map<Id, Id>, next: nat, next': nat, i: Id)
    requires AccountsCopied(x, id, db, d, m) && KeysCopied(x, id, db, d, m) && Strangers(x, id, db) && next <= next'
    requires i in db.users && UserSigned(db.accounts, db.keys, next, db.users[i])
    ensures UserSigned(d.accounts, d.keys, next', db.users[i])
  {
    hide Gone, Strangers;
    var u := db.users[i];
    if Gone(db.accounts, db.keys, next, u.jwt.issuer) {
      assert Uses(db, db.accounts.Keys, u.jwt.issuer);
      NotOfBoth(x, id, db, u.jwt.issuer);
      StillGone(x, id, db, d, m, next, next', u.jwt.issuer);
    }
  }

  lemma NotOfBoth(x: Db, id: Id, db: Db, p: PubKey)
    requires Strangers(x, id, db)
    ensures !(Uses(x, AccountsOf(x, id), p) && Uses(db, db.accounts.Keys, p))
  {
    hide Uses;
  }

  lemma NewUserSigned(x: Db, id: Id, db: Db, d: Db, m: map<Id, Id>, next: nat, next': nat, u: Id)
    requires AccountsCopied(x, id, db, d, m) && KeysCopied(x, id, db, d, m) && UsersCopied(x, id, db, d, m)
    requires Strangers(x, id, db) && IssuersDrawn(x, AccountsOf(x, id), next')
    requires forall k | k in db.keys :: db.keys[k].accountId in db.accounts
    requires u in UsersUnder(x, AccountsOf(x, id)) && UserSigned(x.accounts, x.keys, next, x.users[u])
    ensures u in m && m[u] in d.users && UserSigned(d.accounts, d.keys, next', d.users[m[u]])
  {
    hide Gone, Strangers, Added, AccountRow;
    var row := x.users[u];
    AddedThere(db.users, d.users, UsersUnder(x, AccountsOf(x, id)), m);
    AddedThere(db.accounts, d.accounts, AccountsOf(x, id), m);
    AddedThere(db.keys, d.keys, KeysUnder(x, AccountsOf(x, id)), m);
    SameRow(x.accounts[row.accountId].(id := m[row.accountId], operatorId := m[id]));
    if row.scopedKeyId.Some? {
      assert row.scopedKeyId.value in KeysUnder(x, AccountsOf(x, id));
    } else if Gone(x.accounts, x.keys, next, row.jwt.issuer) {
      assert Uses(x, AccountsOf(x, id), row.jwt.issuer);
      NotOfBoth(x, id, db, row.jwt.issuer);
      GoneIsKey(x.accounts, x.keys, next, row.jwt.issuer);
      assert UserDrawn(row, next');
      GoneThere(x, id, db, d, m, next, next', row.jwt.issuer);
    }
  }

  lemma GoneIsKey(accounts: map<Id, Account>, keys: map<Id, ScopedKey>, next: nat, p: PubKey)
    requires Gone(accounts, keys, next, p)
    ensures p.Key?
  {
  }

  lemma SameRow(a: Account)
    ensures AccountRow(a).publicKey == a.publicKey && AccountRow(a).jwt == a.jwt && AccountRow(a).name == a.name
  {
  }

  lemma RestoredUsers(x: Db, id: Id, db: Db, d: Db, m: map<Id, Id>, next: nat, n: nat, next': nat)
    requires AccountsCopied(x, id, db, d, m) && KeysCopied(x, id, db, d, m) && UsersCopied(x, id, db, d, m)
    requires Strangers(x, id, db) && IssuersDrawn(x, AccountsOf(x, id), next') && n <= next'
    requires forall k | k in db.keys :: db.keys[k].accountId in db.accounts
    requires UsersSigned(x.accounts, x.keys, next, x.users) && UsersSigned(db.accounts, db.keys, n, db.users)
    ensures UsersSigned(d.accounts, d.keys, next', d.users)
  {
    hide AccountsCopied, KeysCopied, UserSigned, Strangers, IssuersDrawn;
    forall i | i in d.users ensures UserSigned(d.accounts, d.keys, next', d.users[i]) {
      if i in db.users {
        OldUserSigned(x, id, db, d, m, n, next', i);
      } else {
        var u :| u in UsersUnder(x, AccountsOf(x, id)) && u in m && m[u] == i;
        NewUserSigned(x, id, db, d, m, next, next', u);
      }
    }
  }

  lemma ShownWithSecrets(db: Db)
    ensures var x := Shown(db, true);
            x.operators == db.operators && x.accounts == db.accounts && x.keys == db.keys && x.users == db.users
  {
  }

  /** Shown with its secrets, a signed store is signed. */
  lemma ShownSigned(db: Db, next: nat)
    requires Signed(db, next)
    ensures Signed(Shown(db, true), next)
  {
    hide Shown, OperatorsSigned, AccountsSigned, KeysSeeded, UsersSigned;
    ShownWithSecrets(db);
  }

  /** What is left of a signed source after a cut is signed: a user is only kept with its account and its key. */
  lemma CutSigned(x: Db, id: Id, e: Export, g: Progress, next: nat)
    requires Signed(x, next) && InOrder(e, g) && IsExport(x, id, e)
    ensures Signed(Cut(x, id, e, g), next)
  {
    hide UsersSigned, IsExport;
    var y := Cut(x, id, e, g);
    forall i | i in y.accounts ensures AccountSigned(y.operators, y.accounts[i]) {
      assert AccountSigned(x.operators, x.accounts[i]);
    }
    hide AccountsSigned, OperatorsSigned, KeysSeeded;
    assert UsersSigned(y.accounts, y.keys, next, y.users) by { CutUsersSigned(x, id, e, g, next); }
  }

  lemma CutUsersSigned(x: Db, id: Id, e: Export, g: Progress, next: nat)
    requires UsersSigned(x.accounts, x.keys, next, x.users) && InOrder(e, g) && IsExport(x, id, e)
    ensures var y := Cut(x, id, e, g); UsersSigned(y.accounts, y.keys, next, y.users)
  {
    hide Lists;
    var y := Cut(x, id, e, g);
    forall u | u in y.users ensures UserSigned(y.accounts, y.keys, next, y.users[u]) {
      assert UserSigned(x.accounts, x.keys, next, x.users[u]);
      CutKeepsLinks(x, id, e, g, u);
    }
  }

  lemma CutKeepsLinks(x: Db, id: Id, e: Export, g: Progress, u: Id)
    requires InOrder(e, g) && IsExport(x, id, e) && u in Cut(x, id, e, g).users
    ensures var y, row := Cut(x, id, e, g), x.users[u];
            && (row.accountId in x.accounts ==> row.accountId in y.accounts)
            && forall k | k in x.keys && x.keys[k].accountId == row.accountId :: k in y.keys
  {
    var row := x.users[u];
    if row.accountId in AccountsOf(x, id) {
      assert g.users > 0;
      assert AccountIds(e.accounts)[..g.accounts] == AccountIds(e.accounts)
          && KeyIds(e.keys)[..g.keys] == KeyIds(e.keys);
      assert row.accountId in Elements(AccountIds(e.accounts));
      forall k | k in x.keys && x.keys[k].accountId == row.accountId ensures k in KeyIds(e.keys) {
        assert k in Elements(KeyIds(e.keys));
      }
    }
  }

  lemma CutStrangers(x: Db, id: Id, e: Export, g: Progress, db: Db)
    requires InOrder(e, g) && Strangers(x, id, db)
    ensures Strangers(Cut(x, id, e, g), id, db)
  {
    var y := Cut(x, id, e, g);
    forall p | Uses(y, AccountsOf(y, id), p) ensures !Uses(db, db.accounts.Keys, p) {
      assert Uses(x, AccountsOf(x, id), p);
    }
  }

  /** Importing an operator's export, with its secrets, into a store that has none of its key pairs
      keeps every JWT signed as it should be - wherever the import stops. */
  lemma ImportKeepsSigned(source: State, id: Id, e: Export, s: State, n: nat, regenerate: bool, g: Progress, next: nat)
    requires Inv(source) && Exportable(source.db) && IsExport(Shown(source.db, true), id, e)
    requires Inv(s) && s.next <= next && Mentioned(e, next) && InOrder(e, g) && Fitted(s.db, e, n, regenerate, g)
    requires Strangers(Shown(source.db, true), id, s.db)
    ensures Signed(After(s.db, e, n, regenerate, g), next)
  {
    hide Schema, Supplied, Strangers, Shown, After, Renaming, IsExport, UsersCopied, AccountsCopied, KeysCopied,
         OperatorCopied, Exportable, OwnKeys, OperatorsSigned, AccountsSigned, KeysSeeded, UsersSigned, Cut, Fitted,
         Mentioned, Resolves;
    var x, d, m := Shown(source.db, true), After(s.db, e, n, regenerate, g), Renaming(e, n, regenerate);
    var y := Cut(x, id, e, g);
    if g.operators == 0 {
      NothingYet(s.db, e, n, regenerate, g);
      SignedLater(s.db, s.next, next);
    } else {
      SourceResolves(source, id, e);
      ShownSigned(source.db, source.next);
      CutSigned(x, id, e, g, source.next);
      CutStrangers(x, id, e, g, s.db);
      AllKeysHaveAccounts(s);
      OperatorIsCopied(x, id, e, s.db, n, regenerate, g);
      AccountsAreCopied(x, id, e, s.db, n, regenerate, g);
      KeysAreCopied(x, id, e, s.db, n, regenerate, g);
      UsersAreCopied(x, id, e, s.db, n, regenerate, g);
      RestoredOperators(y, id, s.db, d, m);
      RestoredAccounts(y, id, s.db, d, m);
      RestoredKeys(y, id, s.db, d, m);
      CutMentioned(x, id, e, g, next);
      RestoredUsers(y, id, s.db, d, m, source.next, s.next, next);
    }
  }

  lemma NothingYet(db: Db, e: Export, n: nat, regenerate: bool, g: Progress)
    requires InOrder(e, g) && g.operators == 0
    ensures After(db, e, n, regenerate, g) == db
  {
  }

  lemma SourceResolves(source: State, id: Id, e: Export)
    requires Inv(source) && Exportable(source.db) && IsExport(Shown(source.db, true), id, e)
    ensures Resolves(e) && Shown(source.db, true).operators[id].id == id
    ensures forall k | k in Shown(source.db, true).keys :: Whole(Shown(source.db, true).keys[k])
  {
    hide Schema, Supplied, Signed, Shown, Resolves, Whole, OwnKeys, Lists;
    InvOwnKeys(source);
    ShownIntact(source.db, true);
    ShownRows(source.db, true, id);
    ExportResolves(Shown(source.db, true), id, e);
  }

  /** The key pairs that signed the users under the operator are mentioned in the file. */
  ghost predicate IssuersDrawn(x: Db, accts: set<Id>, next: nat) {
    forall u | u in UsersUnder(x, accts) :: UserDrawn(x.users[u], next)
  }

  lemma CutMentioned(x: Db, id: Id, e: Export, g: Progress, next: nat)
    requires InOrder(e, g) && IsExport(x, id, e) && Mentioned(e, next)
    ensures var y := Cut(x, id, e, g); IssuersDrawn(y, AccountsOf(y, id), next)
  {
    hide UserDrawn;
    var y := Cut(x, id, e, g);
    forall u | u in UsersUnder(y, AccountsOf(y, id)) ensures UserDrawn(y.users[u], next) {
      assert u in UsersUnder(x, AccountsOf(x, id));
      assert u in Elements(UserIds(e.users));
      var i :| 0 <= i < |e.users| && UserIds(e.users)[i] == u;
      assert e.users[i] == x.users[u];
    }
  }

  lemma AllKeysHaveAccounts(s: State)
    requires Inv(s)
    ensures forall k | k in s.db.keys :: s.db.keys[k].accountId in s.db.accounts
  {
    hide Signed, Supplied, OperatorsFit, AccountsFit, UsersFit, ClustersFit, KeysFit;
    KeysHaveAccounts(s.db);
  }
}
