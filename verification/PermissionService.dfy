/** Which rows an API user may see: ownership of operators and accounts, and the list filters. */
module PermissionService {
  import opened Entities
  import opened Database
  import opened Repositories

  datatype Role = Admin | OperatorAdmin | AccountAdmin | OtherRole(name: string)

  datatype ApiUser = ApiUser(role: Role, operatorId: Option<Id>, accountId: Option<Id>)

  /** `None` is a caller that is not authenticated. */
  function OwnsOperator(db: Db, caller: Option<ApiUser>, id: Id): Result<bool> {
    if caller.None? then Ok(false)
    else match caller.value.role
         case Admin => Ok(true)
         case OperatorAdmin => Ok(caller.value.operatorId == Some(id))
         case AccountAdmin =>
           if caller.value.accountId.None? then Ok(false)
           else if caller.value.accountId.value !in db.accounts then Err(NotFound)
           else Ok(db.accounts[caller.value.accountId.value].operatorId == id)
         case OtherRole(_) => Ok(false)
  }

  function OwnsAccount(db: Db, caller: Option<ApiUser>, id: Id): Result<bool> {
    if caller.None? then Ok(false)
    else match caller.value.role
         case Admin => Ok(true)
         case OperatorAdmin =>
           if id !in db.accounts then Err(NotFound) else Ok(caller.value.operatorId == Some(db.accounts[id].operatorId))
         case AccountAdmin => Ok(caller.value.accountId == Some(id))
         case OtherRole(_) => Ok(false)
  }

  function Granted(owns: Result<bool>): Result<()> {
    match owns
    case Err(error) => Err(error)
    case Ok(owned) => if owned then Ok(()) else Err(Denied)
  }

  function ReadOperator(db: Db, caller: Option<ApiUser>, id: Id): Result<()> {
    Granted(OwnsOperator(db, caller, id))
  }

  function ReadAccount(db: Db, caller: Option<ApiUser>, id: Id): Result<()> {
    Granted(OwnsAccount(db, caller, id))
  }

  function ReadUser(db: Db, caller: Option<ApiUser>, id: Id): Result<()> {
    if id !in db.users then Err(NotFound) else Granted(OwnsAccount(db, caller, db.users[id].accountId))
  }

  method CheckOwnsOperator(store: Store, caller: Option<ApiUser>, id: Id) returns (r: Result<bool>)
    requires store.Valid()
    modifies store`plan, store`faults
    ensures store.Valid() && Gives(r, OwnsOperator(store.db, caller, id), old(store.faults), store.faults)
  {
    hide Schema, Supplied;
    if caller.None? { return Ok(false); }
    match caller.value.role {
      case Admin => return Ok(true);
      case OperatorAdmin => return Ok(caller.value.operatorId == Some(id));
      case AccountAdmin =>
        if caller.value.accountId.None? { return Ok(false); }
        var ra := store.GetAccount(caller.value.accountId.value);
        if ra.Err? { return Err(ra.error); }
        return Ok(ra.value.operatorId == id);
      case OtherRole(_) => return Ok(false);
    }
  }

  method CheckOwnsAccount(store: Store, caller: Option<ApiUser>, id: Id) returns (r: Result<bool>)
    requires store.Valid()
    modifies store`plan, store`faults
    ensures store.Valid() && Gives(r, OwnsAccount(store.db, caller, id), old(store.faults), store.faults)
  {
    hide Schema, Supplied;
    if caller.None? { return Ok(false); }
    match caller.value.role {
      case Admin => return Ok(true);
      case OperatorAdmin =>
        var ra := store.GetAccount(id);
        if ra.Err? { return Err(ra.error); }
        return Ok(caller.value.operatorId.Some? && caller.value.operatorId.value == ra.value.operatorId);
      case AccountAdmin => return Ok(caller.value.accountId == Some(id));
      case OtherRole(_) => return Ok(false);
    }
  }

  method CanReadOperator(store: Store, caller: Option<ApiUser>, id: Id) returns (r: Result<()>)
    requires store.Valid()
    modifies store`plan, store`faults
    ensures store.Valid() && Gives(r, ReadOperator(store.db, caller, id), old(store.faults), store.faults)
  {
    var owned := CheckOwnsOperator(store, caller, id);
    if owned.Err? { return Err(owned.error); }
    r := if owned.value then Ok(()) else Err(Denied);
  }

  method CanReadAccount(store: Store, caller: Option<ApiUser>, id: Id) returns (r: Result<()>)
    requires store.Valid()
    modifies store`plan, store`faults
    ensures store.Valid() && Gives(r, ReadAccount(store.db, caller, id), old(store.faults), store.faults)
  {
    var owned := CheckOwnsAccount(store, caller, id);
    if owned.Err? { return Err(owned.error); }
    r := if owned.value then Ok(()) else Err(Denied);
  }

  method CanReadUser(store: Store, caller: Option<ApiUser>, id: Id) returns (r: Result<()>)
    requires store.Valid()
    modifies store`plan, store`faults
    ensures store.Valid() && Gives(r, ReadUser(store.db, caller, id), old(store.faults), store.faults)
  {
    hide Schema, Supplied;
    var ru := store.GetUser(id);
    if ru.Err? { return Err(ru.error); }
    var owned := CheckOwnsAccount(store, caller, ru.value.accountId);
    if owned.Err? { return Err(owned.error); }
    r := if owned.value then Ok(()) else Err(Denied);
  }

  /** The rows that `keep` marks, in their order. */
  function Marked<T>(rows: seq<T>, keep: seq<bool>): seq<T>
    requires |keep| == |rows|
  {
    if rows == [] then []
    else Marked(rows[..|rows| - 1], keep[..|rows| - 1]) + if keep[|rows| - 1] then [rows[|rows| - 1]] else []
  }

  /** What an order-preserved subsequence is: row `i` is kept exactly if it is marked, and it then
      comes after exactly the marked rows before it. */
  lemma {:induction false} MarkedAt<T>(rows: seq<T>, keep: seq<bool>, i: nat)
    requires |keep| == |rows| && i < |rows|
    ensures var before := |Marked(rows[..i], keep[..i])|;
            && |Marked(rows[..i + 1], keep[..i + 1])| == before + (if keep[i] then 1 else 0) <= |Marked(rows, keep)|
            && (keep[i] ==> Marked(rows, keep)[before] == rows[i])
    decreases |rows|
  {
    var n := |rows| - 1;
    assert rows[..i + 1][..i] == rows[..i] && keep[..i + 1][..i] == keep[..i];
    if i < n {
      MarkedAt(rows[..n], keep[..n], i);
      assert rows[..n][..i] == rows[..i] && keep[..n][..i] == keep[..i];
      assert rows[..n][..i + 1] == rows[..i + 1] && keep[..n][..i + 1] == keep[..i + 1];
    } else {
      assert rows[..i + 1] == rows && keep[..i + 1] == keep;
    }
  }

  lemma MarkedNext<T>(rows: seq<T>, keep: seq<bool>, i: nat)
    requires |keep| == |rows| && i < |rows|
    ensures Marked(rows[..i + 1], keep[..i + 1]) == Marked(rows[..i], keep[..i]) + if keep[i] then [rows[i]] else []
  {
    assert rows[..i + 1][..i] == rows[..i] && keep[..i + 1][..i] == keep[..i];
  }

  function VisibleOperators(db: Db, caller: Option<ApiUser>, rows: seq<Operator>): seq<bool> {
    seq(|rows|, i requires 0 <= i < |rows| => ReadOperator(db, caller, rows[i].id).Ok?)
  }

  function VisibleAccounts(db: Db, caller: Option<ApiUser>, rows: seq<Account>): seq<bool> {
    seq(|rows|, i requires 0 <= i < |rows| => ReadAccount(db, caller, rows[i].id).Ok?)
  }

  function VisibleUsers(db: Db, caller: Option<ApiUser>, rows: seq<User>): seq<bool> {
    seq(|rows|, i requires 0 <= i < |rows| => ReadAccount(db, caller, rows[i].accountId).Ok?)
  }

  /** Every operator of the list is looked up without an error; the first failure fails the list. */
  method FilterOperators(store: Store, caller: Option<ApiUser>, rows: seq<Operator>) returns (r: Result<seq<Operator>>)
    requires store.Valid()
    modifies store`plan, store`faults
    ensures store.Valid() && store.faults >= old(store.faults)
    ensures r.Ok? ==> r.value == Marked(rows, VisibleOperators(store.db, caller, rows))
    ensures store.faults == old(store.faults) ==>
              (r.Ok? <==> forall i | 0 <= i < |rows| :: OwnsOperator(store.db, caller, rows[i].id).Ok?)
  {
    hide Schema, Supplied;
    var out := [];
    ghost var keep := VisibleOperators(store.db, caller, rows);
    for i := 0 to |rows|
      invariant store.Valid() && store.faults == old(store.faults) && store.db == old(store.db)
      invariant out == Marked(rows[..i], keep[..i])
      invariant forall j | 0 <= j < i :: OwnsOperator(store.db, caller, rows[j].id).Ok?
    {
      MarkedNext(rows, keep, i);
      var owned := CheckOwnsOperator(store, caller, rows[i].id);
      if owned.Err? { return Err(owned.error); }
      if owned.value {
        out := out + [rows[i]];
      }
    }
    assert rows[..|rows|] == rows && keep[..|rows|] == keep;
    r := Ok(out);
  }

  method FilterAccounts(store: Store, caller: Option<ApiUser>, rows: seq<Account>) returns (r: Result<seq<Account>>)
    requires store.Valid()
    modifies store`plan, store`faults
    ensures store.Valid() && store.faults >= old(store.faults)
    ensures r.Ok? ==> r.value == Marked(rows, VisibleAccounts(store.db, caller, rows))
    ensures store.faults == old(store.faults) ==>
              (r.Ok? <==> forall i | 0 <= i < |rows| :: OwnsAccount(store.db, caller, rows[i].id).Ok?)
  {
    hide Schema, Supplied;
    var out := [];
    ghost var keep := VisibleAccounts(store.db, caller, rows);
    for i := 0 to |rows|
      invariant store.Valid() && store.faults == old(store.faults) && store.db == old(store.db)
      invariant out == Marked(rows[..i], keep[..i])
      invariant forall j | 0 <= j < i :: OwnsAccount(store.db, caller, rows[j].id).Ok?
    {
      MarkedNext(rows, keep, i);
      var owned := CheckOwnsAccount(store, caller, rows[i].id);
      if owned.Err? { return Err(owned.error); }
      if owned.value {
        out := out + [rows[i]];
      }
    }
    assert rows[..|rows|] == rows && keep[..|rows|] == keep;
    r := Ok(out);
  }

  /** A user whose account cannot be looked up is left out; the list never fails. */
  method FilterUsers(store: Store, caller: Option<ApiUser>, rows: seq<User>) returns (out: seq<User>)
    requires store.Valid()
    modifies store`plan, store`faults
    ensures store.Valid() && store.faults >= old(store.faults)
    ensures store.faults == old(store.faults) ==> out == Marked(rows, VisibleUsers(store.db, caller, rows))
    ensures forall u | u in out :: u in rows && ReadAccount(store.db, caller, u.accountId).Ok?
  {
    hide Schema, Supplied;
    out := [];
    ghost var keep := VisibleUsers(store.db, caller, rows);
    for i := 0 to |rows|
      invariant store.Valid() && store.faults >= old(store.faults) && store.db == old(store.db)
      invariant store.faults == old(store.faults) ==> out == Marked(rows[..i], keep[..i])
      invariant forall u | u in out :: u in rows && ReadAccount(store.db, caller, u.accountId).Ok?
    {
      MarkedNext(rows, keep, i);
      var owned := CheckOwnsAccount(store, caller, rows[i].accountId);
      if owned.Err? { continue; }
      if owned.value {
        out := out + [rows[i]];
      }
    }
    assert rows[..|rows|] == rows && keep[..|rows|] == keep;
  }

  // What the scopes guarantee

  /** Rows of the store are filtered by what the caller may read, and listing accounts of the store
      never fails; listing operators fails only for an account admin whose account is gone. */
  lemma StoredRowsVisible(db: Db, caller: Option<ApiUser>, o: Id, a: Id, u: Id)
    requires Schema(db)
    ensures a in db.accounts ==> OwnsAccount(db, caller, a).Ok?
    ensures u in db.users ==> ReadUser(db, caller, u) == ReadAccount(db, caller, db.users[u].accountId)
                              && OwnsAccount(db, caller, db.users[u].accountId).Ok?
    ensures OwnsOperator(db, caller, o).Err? <==>
              caller.Some? && caller.value.role.AccountAdmin? && caller.value.accountId.Some?
              && caller.value.accountId.value !in db.accounts
  {
    hide OperatorsFit, AccountsFit, KeysFit, ClustersFit;
    if u in db.users {
      assert FitsUser(db.accounts.Keys, db.keys.Keys, db.users, db.users[u]);
    }
  }

  /** Whoever owns an account owns its operator. */
  lemma AccountOwnerOwnsOperator(db: Db, caller: Option<ApiUser>, a: Id)
    requires a in db.accounts && OwnsAccount(db, caller, a) == Ok(true)
    ensures OwnsOperator(db, caller, db.accounts[a].operatorId) == Ok(true)
  {
  }

  predicate IsAdmin(caller: Option<ApiUser>) {
    caller.Some? && caller.value.role.Admin?
  }

  /** All that a caller other than an admin can read, in whatever way, lies under one operator. */
  lemma OneOperator(db: Db, caller: Option<ApiUser>, o: Id, a: Id, u: Id)
    requires Schema(db) && !IsAdmin(caller)
    requires ReadOperator(db, caller, o).Ok?
    ensures a in db.accounts && ReadAccount(db, caller, a).Ok? ==> db.accounts[a].operatorId == o
    ensures ReadUser(db, caller, u).Ok? ==>
              && u in db.users && db.users[u].accountId in db.accounts
              && db.accounts[db.users[u].accountId].operatorId == o
  {
    hide OperatorsFit, AccountsFit, KeysFit, ClustersFit;
    if u in db.users {
      assert FitsUser(db.accounts.Keys, db.keys.Keys, db.users, db.users[u]);
    }
  }

  // Who may read what, role by role.

  /** An admin, the operator's own admin, or the admin of one of its accounts. */
  ghost predicate MayReadOperator(db: Db, caller: Option<ApiUser>, o: Id) {
    && caller.Some?
    && (caller.value.role == Admin
        || (caller.value.role == OperatorAdmin && caller.value.operatorId == Some(o))
        || (caller.value.role == AccountAdmin
            && exists a | a in db.accounts && caller.value.accountId == Some(a) :: db.accounts[a].operatorId == o))
  }

  /** An admin, the admin of the account's operator, or the account's own admin. */
  ghost predicate MayReadAccount(db: Db, caller: Option<ApiUser>, a: Id)
    requires a in db.accounts
  {
    && caller.Some?
    && (caller.value.role == Admin
        || (caller.value.role == OperatorAdmin && caller.value.operatorId == Some(db.accounts[a].operatorId))
        || (caller.value.role == AccountAdmin && caller.value.accountId == Some(a)))
  }

  lemma WhoReads(db: Db, caller: Option<ApiUser>, o: Id, a: Id, u: Id)
    requires Schema(db)
    ensures ReadOperator(db, caller, o).Ok? <==> MayReadOperator(db, caller, o)
    ensures a in db.accounts ==> ReadAccount(db, caller, a) == if MayReadAccount(db, caller,
            a) then Ok(()) else Err(Denied)
    ensures u in db.users ==>
              && db.users[u].accountId in db.accounts
              && ReadUser(db, caller, u) == if MayReadAccount(db, caller, db.users[u].accountId) then Ok(())
                                            else Err(Denied)
    ensures u !in db.users ==> ReadUser(db, caller, u) == Err(NotFound)
  {
    hide OperatorsFit, AccountsFit, KeysFit, ClustersFit;
    if u in db.users {
      assert FitsUser(db.accounts.Keys, db.keys.Keys, db.users, db.users[u]);
    }
  }

  lemma {:induction false} MarkedIff<T(!new)>(rows: seq<T>, keep: seq<bool>, x: T)
    requires |keep| == |rows|
    ensures x in Marked(rows, keep) <==> exists i | 0 <= i < |rows| :: keep[i] && rows[i] == x
  {
    if rows != [] {
      var n := |rows| - 1;
      MarkedIff(rows[..n], keep[..n], x);
    }
  }

  /** The filtered lists of stored rows hold exactly the rows that the caller may read. */
  lemma FilteredExactly(db: Db, caller: Option<ApiUser>, operators: seq<Operator>, accounts: seq<Account>,
                        users: seq<User>)
    requires Schema(db)
    requires forall a | a in accounts :: a.id in db.accounts
    requires forall u | u in users :: u.id in db.users && db.users[u.id] == u
    ensures forall o :: o in Marked(operators, VisibleOperators(db, caller, operators))
                        <==> o in operators && MayReadOperator(db, caller, o.id)
    ensures forall a :: a in Marked(accounts, VisibleAccounts(db, caller, accounts))
                        <==> a in accounts && MayReadAccount(db, caller, a.id)
    ensures forall u | u in users :: u.accountId in db.accounts
    ensures forall u :: u in Marked(users, VisibleUsers(db, caller, users))
                        <==> u in users && MayReadAccount(db, caller, u.accountId)
  {
    hide ReadOperator, ReadAccount, ReadUser, MayReadOperator, MayReadAccount, Schema, Marked;
    forall o ensures o in Marked(operators, VisibleOperators(db, caller, operators))
                     <==> o in operators && MayReadOperator(db, caller, o.id) {
      MarkedIff(operators, VisibleOperators(db, caller, operators), o);
      WhoReads(db, caller, o.id, 0, 0);
    }
    forall a ensures a in Marked(accounts, VisibleAccounts(db, caller, accounts))
                     <==> a in accounts && MayReadAccount(db, caller, a.id) {
      MarkedIff(accounts, VisibleAccounts(db, caller, accounts), a);
      WhoReads(db, caller, 0, a.id, 0);
    }
    forall u | u in users ensures u.accountId in db.accounts {
      WhoReads(db, caller, 0, 0, u.id);
    }
    forall u ensures u in Marked(users, VisibleUsers(db, caller, users))
                     <==> u in users && MayReadAccount(db, caller, u.accountId) {
      MarkedIff(users, VisibleUsers(db, caller, users), u);
      WhoReads(db, caller, 0, u.accountId, 0);
    }
  }
}
