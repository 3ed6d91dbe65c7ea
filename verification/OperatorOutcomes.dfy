/** What the calls on operators store: the operator with its $SYS account, its system user and its
    designation. */
module OperatorOutcomes {
  import opened Entities
  import opened Database
  import opened Transitions
  import opened Invariants
  import opened OperatorService
  import opened Coherence
  import opened Outcomes
  import opened AccountOutcomes

  /** The operator signs its own JWT, which says what its row says. */
  predicate SelfSigned(o: Operator) {
    && o.seed == Seed(o.publicKey) && o.jwt.OperatorJwt? && o.jwt.issuer == o.publicKey
    && o.jwt.subject == o.publicKey && o.jwt.name == o.name && o.jwt.systemAccount == o.systemAccount
  }

  /** The account that comes with an operator. */
  predicate IsSystemAccountOf(a: Account, o: Operator) {
    && a.operatorId == o.id && a.name == "$SYS" && a.seed == Seed(a.publicKey) && a.publicKey == o.systemAccount
    && a.description == "System account for operator management and syncing"
    && !a.jetStreamEnabled && a.jwt.AccountJwt? && a.jwt.limits == None
    && a.jwt.issuer == o.publicKey && a.jwt.subject == a.publicKey && a.jwt.name == "$SYS"
  }

  /** And the user of that account, signed by the account itself. */
  predicate IsSystemUserOf(u: User, account: Id, a: Account) {
    && u.accountId == account && u.name == "system" && u.description == "System user for operator management"
    && u.scopedKeyId == None && u.seed == Seed(u.publicKey)
    && u.jwt == UserJwt(a.publicKey, u.publicKey, "system", NoKey, false)
  }

  /** A new operator comes with one account, that with one key and one user, and designates the account. */
  lemma CreatedOperator(s: State, name: string, description: string, now: int, faults: nat, d: Db)
    returns (o: Id, a: Id, k: Id, u: Id)
    requires Inv(s) && CreateOperatorStep(s, name, description, now, true, faults, d)
    ensures o !in s.db.operators && o in d.operators && OnlyRow(s.db.operators, d.operators, o)
    ensures a !in s.db.accounts && a in d.accounts && OnlyRow(s.db.accounts, d.accounts, a)
    ensures k !in s.db.keys && k in d.keys && OnlyRow(s.db.keys, d.keys, k)
    ensures u !in s.db.users && u in d.users && OnlyRow(s.db.users, d.users, u)
    ensures d.clusters == s.db.clusters
    ensures d.operators[o].name == name && d.operators[o].description == description && d.operators[o].createdAt == now
    ensures d.operators[o].id == o && SelfSigned(d.operators[o]) && FreshPair(s.db, d.operators[o].publicKey, 'O')
    ensures IsSystemAccountOf(d.accounts[a], d.operators[o]) && FreshPair(s.db, d.accounts[a].publicKey, 'A')
    ensures IsDefaultKey(d.keys[k], a, now) && d.accounts[a].jwt.signers.Keys == {d.keys[k].publicKey}
    ensures IsSystemUserOf(d.users[u], a, d.accounts[a])
  {
    hide Inv, CreateOperatorStage, SelfSigned, IsSystemAccountOf, IsSystemUserOf, IsDefaultKey, FreshPair, OnlyRow;
    o, a, k, u := s.next + 1, s.next + 3, s.next + 5, s.next + 7;
    OperatorStored(s, name, description, now);
    AccountStored(s, name, description, now);
    UserStored(s, name, description, now);
  }

  lemma OperatorStored(s: State, name: string, description: string, now: int)
    requires Inv(s)
    ensures var d, o := CreateOperatorStage(s, name, description, now, 4), s.next + 1;
            && o !in s.db.operators && o in d.operators && OnlyRow(s.db.operators, d.operators, o)
            && d.clusters == s.db.clusters
            && d.operators[o].name == name && d.operators[o].description == description
            && d.operators[o].createdAt == now && d.operators[o].id == o && SelfSigned(d.operators[o])
            && FreshPair(s.db, d.operators[o].publicKey, 'O')
            && d.operators[o].seed == Seed(Key('O', s.next)) && d.operators[o].systemAccount == Key('A', s.next + 2)
  {
    hide Schema, Signed, SignedNewAccount, SignedUser, AccountRow, KeyRow, DefaultKeyDescription,
         SystemAccountDescription, SystemUserDescription;
  }

  lemma AccountStored(s: State, name: string, description: string, now: int)
    requires Inv(s) && name != "" && !OperatorTaken(s.db, name)
    ensures var d, o, a, k := CreateOperatorStage(s, name, description, now, 4), s.next + 1, s.next + 3, s.next + 5;
            && a !in s.db.accounts && a in d.accounts && OnlyRow(s.db.accounts, d.accounts, a)
            && k !in s.db.keys && k in d.keys && OnlyRow(s.db.keys, d.keys, k)
            && FreshPair(s.db, d.accounts[a].publicKey, 'A') && IsDefaultKey(d.keys[k], a, now)
            && d.accounts[a].jwt.AccountJwt? && d.accounts[a].jwt.signers.Keys == {d.keys[k].publicKey}
            && o in d.operators && IsSystemAccountOf(d.accounts[a], d.operators[o])
  {
    hide Schema, Signed, OperatorTaken, CreateOperatorStage, WithNewAccount, WithDefaultKey, AcceptsNewAccount, OnlyRow,
         SystemAccountRequest, IsSystemAccountOf, AccountAsAsked, IsDefaultKey, FreshPair, SelfSigned, Says;
    OperatorStored(s, name, description, now);
    FirstStage(s, name, description, now);
    SystemAccountAccepted(s, name, description, now);
    StageAccounts(s, name, description, now, 4);
    var d1 := CreateOperatorStage(s, name, description, now, 1);
    var req := SystemAccountRequest(s.next + 1);
    NewRows(d1, s.next + 2, req, now);
    NewDefaultKey(d1, s.next + 2, req, now);
    SystemRow(s, d1, CreateOperatorStage(s, name, description, now, 4), now);
  }

  lemma FirstStage(s: State, name: string, description: string, now: int)
    requires Supplied(s.db, s.next)
    ensures var d1, o := CreateOperatorStage(s, name, description, now, 1), NewOperator(name, description, s.next, now);
            d1 == WithOperator(s.db, o) && Supplied(d1, s.next + 2)
                && d1.operators[s.next + 1].seed == Seed(Key('O', s.next))
  {
    hide SignedNewAccount, SignedUser, AccountRow, KeyRow;
  }

  lemma SystemRow(s: State, d1: Db, d: Db, now: int)
    requires s.next + 3 in d.accounts && s.next + 1 in d.operators && s.next + 1 in d1.operators
    requires SelfSigned(d.operators[s.next + 1]) && d.operators[s.next + 1].id == s.next + 1
    requires d.accounts[s.next + 3].publicKey == d.operators[s.next + 1].systemAccount
    requires d1.operators[s.next + 1].seed == d.operators[s.next + 1].seed
    requires d1.accounts == s.db.accounts && d1.keys == s.db.keys && d1.users == s.db.users
    requires s.db.operators.Keys <= d1.operators.Keys
    requires forall o | o in s.db.operators :: d1.operators[o].publicKey == s.db.operators[o].publicKey
    requires AccountAsAsked(d1, SystemAccountRequest(s.next + 1), now, d.accounts[s.next + 3])
    ensures IsSystemAccountOf(d.accounts[s.next + 3], d.operators[s.next + 1])
    ensures FreshPair(s.db, d.accounts[s.next + 3].publicKey, 'A')
  {
  }

  lemma UserStored(s: State, name: string, description: string, now: int)
    requires Inv(s)
    ensures var d, a, u := CreateOperatorStage(s, name, description, now, 4), s.next + 3, s.next + 7;
            && u !in s.db.users && u in d.users && OnlyRow(s.db.users, d.users, u)
            && a in d.accounts && IsSystemUserOf(d.users[u], a, d.accounts[a])
  {
    hide Schema, Signed, DefaultKeyDescription, SystemAccountDescription;
  }

  /** An update stores the fields it gives, keeps the others, and the JWT says so. */
  lemma UpdatedOperator(s: State, id: Id, req: UpdateRequest, faults: nat, d: Db)
    requires Inv(s) && UpdateOperatorStep(s, id, req, true, faults, d)
    ensures id in s.db.operators && id in d.operators
    ensures OnlyRow(s.db.operators, d.operators, id) && d == s.db.(operators := d.operators)
    ensures var o, o' := s.db.operators[id], d.operators[id];
            && Takes(req.name, o.name, o'.name) && Takes(req.description, o.description, o'.description)
            && o' == o.(name := o'.name, description := o'.description, jwt := o'.jwt) && SelfSigned(o')
  {
    hide Supplied, AccountsFit, KeysFit, UsersFit, ClustersFit, AccountsSigned, KeysSeeded, UsersSigned, OperatorTaken;
    OwnOperatorId(s.db, id);
  }

  lemma OwnOperatorId(db: Db, id: Id)
    requires Schema(db) && id in db.operators
    ensures db.operators[id].id == id
  {
    assert FitsOperator(db.operators, db.operators[id]);
  }

  /** A designation stores the key as given, and the JWT says so, whether or not it was signed again. */
  lemma DesignatedOperator(s: State, id: Id, key: PubKey, faults: nat, d: Db)
    requires Inv(s) && SetSystemAccountStep(s, id, key, true, faults, d)
    ensures id in s.db.operators && id in d.operators && (key == NoKey || key.prefix == 'A')
    ensures OnlyRow(s.db.operators, d.operators, id) && d == s.db.(operators := d.operators)
    ensures d.operators[id] == s.db.operators[id].(systemAccount := key, jwt := d.operators[id].jwt)
    ensures SelfSigned(d.operators[id])
  {
    hide Supplied, AccountsFit, KeysFit, UsersFit, ClustersFit, AccountsSigned, KeysSeeded, UsersSigned;
    OwnOperatorId(s.db, id);
  }
}
