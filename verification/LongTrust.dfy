/** The chain of trust over runs that restore operators from exports. */
module LongTrust {
  import opened Entities
  import opened Database
  import opened Jwts
  import opened Transitions
  import opened Invariants
  import opened Coherence
  import opened Trust
  import opened Identities
  import opened ExportService
  import opened ImportService
  import opened ImportTheorems
  import opened ImportCopies
  import opened Restoring
  import opened LongRuns

  /** The user was imported from an orphan (or, with `orphan` false, from a user that was none). */
  ghost predicate RestoredFrom(s: State, h: Happening, s': State, i: Id, orphan: bool) {
    && h.Restored? && i !in s.db.users && i in s'.db.users
    && var m := Renaming(h.file, Start(h.file, s.next), h.regenerate);
       exists u | u in UsersUnder(h.source.db, AccountsOf(h.source.db, h.id)) ::
         u in m && m[u] == i && Orphaned(h.source.db.users[u]) == orphan
  }

  ghost predicate Orphans(s: State, h: Happening, s': State, i: Id) {
    (h.Served? && Unlinks(s, h.event, s', i)) || RestoredFrom(s, h, s', i, true)
  }

  ghost predicate Clears(s: State, h: Happening, s': State, i: Id) {
    (h.Served? && SignsAgain(s, h.event, i)) || RestoredFrom(s, h, s', i, false)
  }

  ghost predicate TracksLong(s: State, h: Happening, s': State, i: Id) {
    && i in s'.db.users
    && (i in s.db.users || h.Restored? ==>
          (Orphaned(s'.db.users[i]) <==>
             Orphans(s, h, s', i) || (i in s.db.users && Orphaned(s.db.users[i]) && !Clears(s, h, s', i))))
    && (h.Restored? && i !in s.db.users && !Orphans(s, h, s', i) ==> Clears(s, h, s', i))
    && (h.Served? && i !in s.db.users ==> i >= s.next && !Orphaned(s'.db.users[i]))
  }

  /** What an import does to one user. */
  lemma RestoreTracks(s: State, source: State, id: Id, file: Export, regenerate: bool, g: Progress, s': State, i: Id)
    requires Inv(s) && Restores(s, source, id, file, regenerate, g, s') && i in s'.db.users
    ensures TracksLong(s, Restored(source, id, file, regenerate, g), s', i)
  {
    hide Schema, Supplied, Signed, Strangers, IsExport, Shown, After, Start, Exportable, Renaming, Fitted, Mentioned,
         UsersCopied, Cut, Resolves, Orphaned;
    var n := Start(file, s.next);
    var x, m := Shown(source.db, true), Renaming(file, n, regenerate);
    SourceResolves(source, id, file);
    UsersAreCopied(x, id, file, s.db, n, regenerate, g);
    if i in s.db.users {
      OldUserThere(Cut(x, id, file, g), id, s.db, s'.db, m, i);
    } else {
      var u := NewUserFrom(Cut(x, id, file, g), id, s.db, s'.db, m, i);
      CutUsers(x, id, file, g);
      ShownAt(source.db, true, id);
      ShownUsers(source.db, id);
      ResolvesDistinct(file);
      RenamingInjective(file, n, regenerate);
      assert Orphaned(s'.db.users[i]) <==> Orphaned(source.db.users[u]);
      assert forall v | v in m && m[v] == i :: v == u;
    }
  }

  lemma OldUserThere(x: Db, id: Id, db: Db, d: Db, m: map<Id, Id>, i: Id)
    requires UsersCopied(x, id, db, d, m) && i in db.users
    ensures i in d.users && d.users[i] == db.users[i]
  {
  }

  lemma NewUserFrom(x: Db, id: Id, db: Db, d: Db, m: map<Id, Id>, i: Id) returns (u: Id)
    requires UsersCopied(x, id, db, d, m) && i in d.users && i !in db.users
    ensures u in UsersUnder(x, AccountsOf(x, id)) && u in m && m[u] == i
    ensures Orphaned(d.users[i]) <==> Orphaned(x.users[u])
  {
    u :| u in UsersUnder(x, AccountsOf(x, id)) && u in m && m[u] == i;
  }

  lemma ShownUsers(db: Db, id: Id)
    ensures var x := Shown(db, true);
            UsersUnder(x, AccountsOf(x, id)) == UsersUnder(db, AccountsOf(db, id)) && x.users == db.users
  {
    ShownWithSecrets(db);
  }

  lemma ServeTracks(s: State, e: Event, s': State, i: Id)
    requires Inv(s) && Step(s, e, s') && i in s'.db.users
    ensures TracksLong(s, Served(e), s', i)
  {
    hide Inv, Step, Orphaned, Unlinks, SignsAgain;
    StepTracks(s, e, s', i);
  }

  ghost predicate OrphanedAt(states: seq<State>, hs: seq<Happening>, j: nat, i: Id)
    requires j < |hs| < |states|
  {
    Orphans(states[j], hs[j], states[j + 1], i)
  }

  ghost predicate ClearedAt(states: seq<State>, hs: seq<Happening>, j: nat, i: Id)
    requires j < |hs| < |states|
  {
    Clears(states[j], hs[j], states[j + 1], i)
  }

  /** The user lost its key, or came as one that had lost it, and was not signed or brought back since. */
  ghost predicate LeftOrphan(states: seq<State>, hs: seq<Happening>, n: nat, i: Id)
    requires n <= |hs| < |states|
  {
    exists j | 0 <= j < n :: OrphanedAt(states, hs, j, i) && NotCleared(states, hs, j + 1, n, i)
  }

  ghost predicate NotCleared(states: seq<State>, hs: seq<Happening>, from: nat, n: nat, i: Id)
    requires from <= n <= |hs| < |states|
  {
    forall j | from <= j < n :: !ClearedAt(states, hs, j, i)
  }

  lemma LeftOrphanStep(states: seq<State>, hs: seq<Happening>, n: nat, i: Id)
    requires 0 < n <= |hs| < |states|
    ensures LeftOrphan(states, hs, n, i) <==>
              || OrphanedAt(states, hs, n - 1, i)
              || (LeftOrphan(states, hs, n - 1, i) && !ClearedAt(states, hs, n - 1, i))
  {
    hide OrphanedAt, ClearedAt;
    if OrphanedAt(states, hs, n - 1, i) {
      assert NotCleared(states, hs, n - 1 + 1, n, i);
    }
    if LeftOrphan(states, hs, n - 1, i) && !ClearedAt(states, hs, n - 1, i) {
      var j :| 0 <= j < n - 1 && OrphanedAt(states, hs, j, i) && NotCleared(states, hs, j + 1, n - 1, i);
      assert NotCleared(states, hs, j + 1, n, i);
    }
    if LeftOrphan(states, hs, n, i) && !OrphanedAt(states, hs, n - 1, i) {
      var j :| 0 <= j < n && OrphanedAt(states, hs, j, i) && NotCleared(states, hs, j + 1, n, i);
      assert NotCleared(states, hs, j + 1, n - 1, i);
    }
  }

  lemma {:induction false} LongSupplyGrows(states: seq<State>, hs: seq<Happening>, j: nat, n: nat)
    requires j <= n <= |hs| && IsLongRun(states, hs)
    ensures states[j].next <= states[n].next
  {
    hide Changes, Sound, Restorable, After, Start, Fitted, Mentioned;
    if j < n {
      LongSupplyGrows(states, hs, j, n - 1);
      HappensAt(states, hs, n - 1);
    }
  }

  /** An id that is yet to be drawn has no history. */
  lemma NoHistory(states: seq<State>, hs: seq<Happening>, n: nat, i: Id)
    requires n <= |hs| < |states| && i >= states[n].next && IsLongRun(states, hs)
    ensures !LeftOrphan(states, hs, n, i)
  {
    hide Step, Restores, Inv;
    forall j | 0 <= j < n ensures !OrphanedAt(states, hs, j, i) {
      LongSupplyGrows(states, hs, j, n);
      LongSupplyGrows(states, hs, j + 1, n);
      LongRunKeeps(states, hs, j);
      LongRunKeeps(states, hs, j + 1);
      FreshIds(states[j]);
      FreshIds(states[j + 1]);
    }
  }

  /** Over every long run, a stored user is an orphan exactly if it lost its key, or came as one that
      had lost it, and was not signed or brought back since. */
  lemma {:induction false} OrphanedLongIff(states: seq<State>, hs: seq<Happening>, n: nat, i: Id)
    requires n <= |hs| < |states| && i in states[n].db.users && IsLongRun(states, hs)
    ensures Orphaned(states[n].db.users[i]) <==> LeftOrphan(states, hs, n, i)
  {
    hide Step, Restores, Inv, Orphaned, Orphans, Clears;
    if n > 0 {
      var s, h, s' := states[n - 1], hs[n - 1], states[n];
      LongRunKeeps(states, hs, n - 1);
      HappensAt(states, hs, n - 1);
      match h {
        case Served(e) => ServeTracks(s, e, s', i);
        case Restored(source, id, file, regenerate, g) => RestoreTracks(s, source, id, file, regenerate, g, s', i);
      }
      LeftOrphanStep(states, hs, n, i);
      if i in s.db.users {
        OrphanedLongIff(states, hs, n - 1, i);
      } else if h.Served? {
        NoHistory(states, hs, n - 1, i);
        NewIsNoOrphan(s, h, s', i);
      }
    }
  }

  lemma NewIsNoOrphan(s: State, h: Happening, s': State, i: Id)
    requires h.Served? && i !in s.db.users
    ensures !Orphans(s, h, s', i)
  {
  }

  /** The chain of trust over every long run: in an account that is not left spoilt and has at most
      `PAGE` keys, a user is trusted exactly if it is not left an orphan. */
  lemma LongChainOfTrust(states: seq<State>, hs: seq<Happening>, n: nat, i: Id)
    requires |states| == |hs| + 1 && n <= |hs| && i in states[n].db.users
    requires !Spoilt(states, hs, n, states[n].db.users[i].accountId)
    requires |KeysOf(states[n].db.keys, states[n].db.users[i].accountId)| <= PAGE
    requires IsLongRun(states, hs)
    ensures Trusted(states[n].db, states[n].db.users[i]) <==> !LeftOrphan(states, hs, n, i)
  {
    hide Happens, Coherent, Spoilt, Trusted, Orphaned, Schema, LeftOrphan;
    LongRunKeeps(states, hs, n);
    AccountThere(states[n], i);
    CoherentOrSpoilt(states, hs, n, states[n].db.users[i].accountId);
    TrustedUnlessOrphaned(states[n], i);
    OrphanedLongIff(states, hs, n, i);
  }
}
