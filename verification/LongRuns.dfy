/** Runs in which operators are also restored from exports: the invariant and the coherence of account
    JWTs hold over these as well. */
module LongRuns {
  import opened Entities
  import opened Database
  import opened Repositories
  import opened Transitions
  import opened Invariants
  import opened Runs
  import opened Identities
  import opened Coherence
  import opened ExportService
  import opened ImportService
  import opened ImportTheorems
  import opened ImportCopies
  import opened Restoring

  /** A service call, or an import of an export of operator `id` of `source`, with its secrets, as far
      as it came. */
  datatype Happening =
    | Served(event: Event)
    | Restored(source: State, id: Id, file: Export, regenerate: bool, progress: Progress)

  /** The source is a store like this one: `Runs.RunKeeps` and `Identities.RunExportable` say that every
      run leaves one. The store must have none of the operator's key pairs; whatever else is in the way
      of the import may stop it. */
  ghost predicate Restorable(s: State, source: State, id: Id, file: Export) {
    && Inv(source) && Exportable(source.db) && IsExport(Shown(source.db, true), id, file)
    && Strangers(Shown(source.db, true), id, s.db)
  }

  ghost predicate Restores(s: State, source: State, id: Id, file: Export, regenerate: bool, g: Progress, s': State) {
    var n := Start(file, s.next);
    && Restorable(s, source, id, file) && InOrder(file, g) && Fitted(s.db, file, n, regenerate, g)
    && s'.db == After(s.db, file, n, regenerate, g)
    && Sound(s'.db, s'.next) && s.next <= s'.next && Mentioned(file, s'.next)
  }

  ghost predicate Happens(s: State, h: Happening, s': State) {
    match h
    case Served(e) => Step(s, e, s')
    case Restored(source, id, file, regenerate, g) => Restores(s, source, id, file, regenerate, g, s')
  }

  /** Every import of such a file happens like this, whether or not it succeeds. */
  method Restore(store: Store, file: Export, regenerate: bool, ghost source: State, ghost id: Id)
    returns (r: Result<()>, ghost h: Happening)
    requires store.Valid() && Restorable(State(store.db, store.next), source, id, file)
    modifies store
    ensures store.Valid() && h.Restored? && (r.Ok? ==> h.progress == Everything(file))
    ensures Happens(State(old(store.db), old(store.next)), h, State(store.db, store.next))
  {
    hide Schema, Supplied, Start, After, Fitted, Mentioned, Inv, Exportable, IsExport, Strangers, Importable;
    ghost var s := State(store.db, store.next);
    ghost var n := Start(file, s.next);
    r := ImportOperator(store, file, regenerate);
    ghost var g := Everything(file);
    if r.Err? {
      g :| InOrder(file, g) && Fitted(s.db, file, n, regenerate, g) && store.db == After(s.db, file, n, regenerate, g);
    } else {
      ImportableFitted(s.db, file, n, regenerate);
    }
    h := Restored(source, id, file, regenerate, g);
  }

  ghost predicate IsLongRun(states: seq<State>, hs: seq<Happening>) {
    && |states| == |hs| + 1 && states[0].db == EMPTY
    && forall i | 0 <= i < |hs| :: Happens(states[i], hs[i], states[i + 1])
  }

  lemma HappensAt(states: seq<State>, hs: seq<Happening>, i: nat)
    requires IsLongRun(states, hs) && i < |hs|
    ensures Happens(states[i], hs[i], states[i + 1])
  {
    hide Happens;
  }

  lemma RestoreKeeps(s: State, source: State, id: Id, file: Export, regenerate: bool, g: Progress, s': State)
    requires Inv(s) && Restores(s, source, id, file, regenerate, g, s')
    ensures Inv(s')
  {
    hide Sound, Signed, Strangers, IsExport, Shown, After, Start, Exportable, Fitted, Mentioned;
    ImportKeepsSigned(source, id, file, s, Start(file, s.next), regenerate, g, s'.next);
  }

  lemma {:induction false} LongRunKeeps(states: seq<State>, hs: seq<Happening>, n: nat)
    requires IsLongRun(states, hs) && n <= |hs|
    ensures Inv(states[n])
  {
    hide Inv, Step, Restores;
    if n == 0 {
      EmptyKeeps(states[0]);
    } else {
      LongRunKeeps(states, hs, n - 1);
      HappensAt(states, hs, n - 1);
      match hs[n - 1] {
        case Served(e) => StepKeeps(states[n - 1], e, states[n]);
        case Restored(source, id, file, regenerate, g) =>
          RestoreKeeps(states[n - 1], source, id, file, regenerate, g, states[n]);
      }
    }
  }

  lemma LongRunOperatorNamesRow(states: seq<State>, hs: seq<Happening>, n: nat, id: Id)
    requires |states| == |hs| + 1 && n <= |hs| && id in states[n].db.operators
    requires IsLongRun(states, hs)
    ensures var o := states[n].db.operators[id];
            o.jwt == OperatorJwt(o.publicKey, o.publicKey, o.name, o.systemAccount)
  {
    hide Happens, Sound, AccountsSigned, KeysSeeded, UsersSigned;
    LongRunKeeps(states, hs, n);
  }

  /** The account was restored from one that was itself incoherent, or the import stopped before all of
      its keys were stored. */
  ghost predicate RestoredStale(s: State, h: Happening, a: Id) {
    && h.Restored?
    && var m := Renaming(h.file, Start(h.file, s.next), h.regenerate);
       exists b | b in AccountsOf(h.source.db, h.id) ::
         b in m && m[b] == a && (!Coherent(h.source.db, b) || KeyMissing(h.file, h.progress, b))
  }

  predicate KeyMissing(file: Export, g: Progress, b: Id) {
    exists j | 0 <= j < |file.keys| :: g.keys <= j && file.keys[j].accountId == b
  }

  ghost predicate Spoils(s: State, h: Happening, s': State, a: Id) {
    (h.Served? && Disturbs(s, h.event, s', a)) || RestoredStale(s, h, a)
  }

  predicate Renews(s: State, h: Happening, a: Id) {
    h.Served? && Refreshes(s, h.event, a)
  }

  ghost predicate Spoilt(states: seq<State>, hs: seq<Happening>, n: nat, a: Id)
    requires |states| == |hs| + 1 && n <= |hs|
  {
    exists i | 0 <= i < n :: Spoils(states[i], hs[i], states[i + 1], a) && NotRenewed(states, hs, i + 1, n, a)
  }

  ghost predicate NotRenewed(states: seq<State>, hs: seq<Happening>, from: nat, n: nat, a: Id)
    requires |states| == |hs| + 1 && from <= n <= |hs|
  {
    forall j | from <= j < n :: !Renews(states[j], hs[j], a)
  }

  /** An import, wherever it stops, leaves the accounts that were there alone, and brings coherent ones
      from coherent ones whose keys it stored. */
  lemma RestoreServes(s: State, source: State, id: Id, file: Export, regenerate: bool, g: Progress, s': State, a: Id)
    requires Inv(s) && Restores(s, source, id, file, regenerate, g, s') && a in s'.db.accounts
    ensures Untouched(s.db, s'.db, a) || Coherent(s'.db, a)
            || RestoredStale(s, Restored(source, id, file, regenerate, g), a)
  {
    hide Supplied, OperatorsFit, AccountsFit, KeysFit, UsersFit, ClustersFit, Signed, Strangers, IsExport, Shown, After,
         Start, Exportable, Renaming, Fitted, Mentioned, Untouched, Coherent, OwnKeys, Injective, AccountsCopied,
         KeysCopied, Cut, KeyMissing, Resolves;
    var n := Start(file, s.next);
    var x, m := Shown(source.db, true), Renaming(file, n, regenerate);
    var y := Cut(x, id, file, g);
    SourceResolves(source, id, file);
    ResolvesDistinct(file);
    AccountsAreCopied(x, id, file, s.db, n, regenerate, g);
    KeysAreCopied(x, id, file, s.db, n, regenerate, g);
    RenamingInjective(file, n, regenerate);
    if a in s.db.accounts {
      OldAccountUntouched(y, id, s.db, s'.db, m, a);
    } else {
      NewAccountFrom(y, id, s.db, s'.db, m, a);
      var b :| b in AccountsOf(y, id) && b in m && m[b] == a;
      CopiedCoherentIff(y, id, s.db, s'.db, m, b);
      CutAccounts(x, id, file, g);
      ShownAt(source.db, true, id);
      ShownCoherent(source.db, true, b);
      if Coherent(source.db, b) && !KeyMissing(file, g, b) {
        CutCoherent(x, id, file, g, b);
      }
    }
  }

  lemma ResolvesDistinct(e: Export)
    requires Resolves(e)
    ensures Distinct(Sources(e))
  {
    hide Distinct, Sources;
  }

  /** The cut takes nothing from an account whose keys are all stored. */
  lemma CutCoherent(x: Db, id: Id, e: Export, g: Progress, b: Id)
    requires InOrder(e, g) && IsExport(x, id, e) && b in AccountsOf(Cut(x, id, e, g), id) && !KeyMissing(e, g, b)
    requires Coherent(x, b)
    ensures Coherent(Cut(x, id, e, g), b)
  {
    hide Coherent;
    var y := Cut(x, id, e, g);
    forall k | k in x.keys && x.keys[k].accountId == b ensures k in y.keys {
      assert k in Elements(KeyIds(e.keys));
      var j :| 0 <= j < |e.keys| && KeyIds(e.keys)[j] == k;
      assert e.keys[j] == x.keys[k];
      assert KeyIds(e.keys)[..g.keys][j] == k;
    }
    UntouchedCoherent(x, y, b);
  }

  lemma NewAccountFrom(x: Db, id: Id, db: Db, d: Db, m: map<Id, Id>, a: Id)
    requires AccountsCopied(x, id, db, d, m) && a in d.accounts && a !in db.accounts
    ensures exists b | b in AccountsOf(x, id) :: b in m && m[b] == a
  {
  }

  /** The new keys are all in new accounts. */
  lemma NewKeysElsewhere(x: Db, id: Id, db: Db, d: Db, m: map<Id, Id>)
    requires AccountsCopied(x, id, db, d, m) && KeysCopied(x, id, db, d, m)
    ensures forall k | k in d.keys && k !in db.keys :: d.keys[k].accountId !in db.accounts
  {
    forall k | k in d.keys && k !in db.keys ensures d.keys[k].accountId !in db.accounts {
      var o :| o in KeysUnder(x, AccountsOf(x, id)) && o in m && m[o] == k;
      assert x.keys[o].accountId in AccountsOf(x, id);
    }
  }

  lemma OldAccountUntouched(x: Db, id: Id, db: Db, d: Db, m: map<Id, Id>, a: Id)
    requires AccountsCopied(x, id, db, d, m) && KeysCopied(x, id, db, d, m) && a in db.accounts
    ensures Untouched(db, d, a)
  {
    NewKeysElsewhere(x, id, db, d, m);
  }

  /** Over every long run, whatever fails: an account's JWT declares exactly its newest keys, unless a
      call on its keys returned an error, or it was restored from an account whose JWT did not or by an
      import that stopped before its keys, and nothing has re-signed it since. */
  lemma {:induction false} CoherentOrSpoilt(states: seq<State>, hs: seq<Happening>, n: nat, a: Id)
    requires |states| == |hs| + 1 && n <= |hs| && a in states[n].db.accounts
    requires IsLongRun(states, hs)
    ensures Coherent(states[n].db, a) || Spoilt(states, hs, n, a)
  {
    hide Coherent, Step, Inv, Restores, Spoils, Renews, Untouched;
    if n > 0 {
      var s, h, s' := states[n - 1], hs[n - 1], states[n];
      LongRunKeeps(states, hs, n - 1);
      HappensAt(states, hs, n - 1);
      HappeningServes(s, h, s', a);
      if Spoils(s, h, s', a) {
        assert NotRenewed(states, hs, n, n, a);
      } else if !Renews(s, h, a) && !Coherent(s'.db, a) {
        UntouchedThere(s.db, s'.db, a);
        CoherentOrSpoilt(states, hs, n - 1, a);
        if Coherent(s.db, a) {
          UntouchedCoherent(s.db, s'.db, a);
        } else {
          var i :| 0 <= i < n - 1 && Spoils(states[i], hs[i], states[i + 1], a)
              && NotRenewed(states, hs, i + 1, n - 1, a);
          assert NotRenewed(states, hs, i + 1, n, a);
        }
      }
    }
  }

  lemma HappeningServes(s: State, h: Happening, s': State, a: Id)
    requires Inv(s) && Happens(s, h, s') && a in s'.db.accounts
    ensures Renews(s, h, a) ==> Coherent(s'.db, a)
    ensures !Renews(s, h, a) && !Spoils(s, h, s', a) && !Coherent(s'.db, a) ==> Untouched(s.db, s'.db, a)
  {
    hide Inv, Sound, Changes, Restores, Coherent, Untouched, RestoredStale, Resigns, Writes;
    match h {
      case Served(e) => StepServes(s, e, s'.db, a);
      case Restored(source, id, file, regenerate, g) => RestoreServes(s, source, id, file, regenerate, g, s', a);
    }
  }
}
