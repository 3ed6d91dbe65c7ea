/** What the calls on users store, and which key signs. */
module UserOutcomes {
  import opened Entities
  import opened Database
  import opened Transitions
  import opened Invariants
  import opened Outcomes

  /** The JWT of the row `u`: signed by the scoped key that the row names, which puts the user under that
      key's permissions, or else by the account itself. */
  ghost predicate SignedAsStored(db: Db, u: User) {
    && u.accountId in db.accounts && u.jwt.UserJwt? && u.jwt.subject == u.publicKey && u.jwt.name == u.name
    && (u.jwt.scoped <==> u.scopedKeyId.Some?)
    && (u.scopedKeyId.Some? ==>
          && u.scopedKeyId.value in db.keys && db.keys[u.scopedKeyId.value].accountId == u.accountId
          && Seed(u.jwt.issuer) == db.keys[u.scopedKeyId.value].seed
          && u.jwt.issuerAccount == db.accounts[u.accountId].publicKey)
    && (u.scopedKeyId.None? ==> Seed(u.jwt.issuer) == db.accounts[u.accountId].seed && u.jwt.issuerAccount == NoKey)
  }

  /** The one new user is what the request asks for - the scoped key that it names included - and signed
      accordingly. */
  lemma CreatedUser(s: State, req: CreateUserRequest, now: int, faults: nat, d: Db) returns (id: Id)
    requires Inv(s) && CreateUserStep(s, req, now, true, faults, d)
    ensures id !in s.db.users && id in d.users && OnlyRow(s.db.users, d.users, id) && d == s.db.(users := d.users)
    ensures var u := d.users[id];
            && u.accountId == req.accountId && u.name == req.name && u.description == req.description
            && u.scopedKeyId == req.scopedKeyId && u.createdAt == now
            && u.seed == Seed(u.publicKey) && FreshPair(s.db, u.publicKey, 'U')
            && SignedAsStored(s.db, u)
  {
    hide Schema, Signed, UserTaken;
    id := s.next + 1;
  }

  /** An update stores the fields it gives, keeps the others, and signs again whenever a field changes, with
      the key that the stored row names. */
  lemma UpdatedUser(s: State, id: Id, req: UpdateRequest, faults: nat, d: Db)
    requires Inv(s) && UpdateUserStep(s, id, req, true, faults, d)
    ensures id in s.db.users && id in d.users && OnlyRow(s.db.users, d.users, id) && d == s.db.(users := d.users)
    ensures var u, u' := s.db.users[id], d.users[id];
            && Takes(req.name, u.name, u'.name) && Takes(req.description, u.description, u'.description)
            && u' == u.(name := u'.name, description := u'.description, jwt := u'.jwt)
            && (u'.name != u.name || u'.description != u.description ==> SignedAsStored(s.db, u'))
            && (u'.name == u.name && u'.description == u.description ==> u' == u)
  {
    hide Supplied, OperatorsFit, AccountsFit, KeysFit, ClustersFit, OperatorsSigned, AccountsSigned, KeysSeeded, Gone,
         UserTaken, FitsUser;
    assert UserSigned(s.db.accounts, s.db.keys, s.next, s.db.users[id]);
    assert d.users == s.db.users[id := d.users[id]];
  }

  /** A deletion takes that one user away. */
  lemma DeletedUser(s: State, id: Id, ok: bool, faults: nat, d: Db)
    requires Inv(s) && DeleteUserStep(s, id, ok, faults, d)
    ensures ok ==> id in s.db.users
    ensures d == s.db.(users := if ok then s.db.users - {id} else s.db.users)
  {
    hide Supplied, OperatorsFit, AccountsFit, KeysFit, ClustersFit, Signed;
    forall u | u in s.db.users ensures Unlink(s.db.users[u], s.db.keys.Keys) == s.db.users[u] {
      assert FitsUser(s.db.accounts.Keys, s.db.keys.Keys, s.db.users, s.db.users[u]);
    }
    hide UsersFit;
    var gone := WithoutUser(s.db, id);
    assert gone.accounts == s.db.accounts;
    assert s.db.keys.Keys * s.db.keys.Keys == s.db.keys.Keys;
    assert gone.keys == s.db.keys;
    assert gone.users == s.db.users - {id};
  }
}
