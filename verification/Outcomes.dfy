/** What the service calls store: each row and each JWT field by field, in terms of the request and the
    rows before. */
module Outcomes {
  import opened Entities
  import opened Database
  import opened Jwts
  import opened Transitions
  import opened Invariants
  import opened Coherence

  /** The field has the value that the request gives, or keeps the one it had. */
  ghost predicate Takes<T(!new)>(given: Option<T>, before: T, after: T) {
    (given.Some? ==> after == given.value) && (given.None? ==> after == before)
  }

  /** All rows but these are as they were. */
  ghost predicate OnlyRow<T(!new)>(before: map<Id, T>, after: map<Id, T>, id: Id) {
    forall i | i != id :: (i in after <==> i in before) && (i in after ==> after[i] == before[i])
  }

  /** `stored` is the duration in whole seconds, cut off toward zero. */
  predicate CutOff(ns: int, stored: int) {
    && stored % 1_000_000_000 == 0
    && (ns >= 0 ==> stored <= ns < stored + 1_000_000_000)
    && (ns < 0 ==> stored - 1_000_000_000 < ns <= stored)
  }

  lemma StoredCutOff(ns: int, stored: int)
    ensures CutOff(ns, stored) <==> stored == WholeSeconds(ns)
  {
    var p := if ns >= 0 then ns else -ns;
    var w := p / SECOND * SECOND;
    assert w <= p < w + SECOND && w % SECOND == 0;
    if CutOff(ns, stored) {
      var q := if ns >= 0 then stored else -stored;
      assert q % SECOND == 0 && q <= p < q + SECOND;
      SameMultiple(q, w, p);
    }
  }

  lemma SameMultiple(q: int, w: int, p: int)
    requires q % SECOND == 0 && w % SECOND == 0 && q <= p < q + SECOND && w <= p < w + SECOND
    ensures q == w
  {
  }

  /** A key pair of this kind that no stored row has. */
  ghost predicate FreshPair(db: Db, p: PubKey, prefix: char) {
    && p.Key? && p.prefix == prefix
    && (forall i | i in db.operators :: db.operators[i].publicKey != p)
    && (forall i | i in db.accounts :: db.accounts[i].publicKey != p)
    && (forall i | i in db.keys :: db.keys[i].publicKey != p)
    && forall i | i in db.users :: db.users[i].publicKey != p
  }

  // The account that a call signs again.

  /** Its JWT, issued by its operator, carries the name and the limits of its row, and the signers that
      `Coherent` describes; nothing else of the row changes. */
  ghost predicate SignedAnew(db: Db, a: Id, row: Account, d: Db) {
    && a in d.accounts && d.accounts[a].(jwt := NoJwt) == row.(jwt := NoJwt)
    && d.accounts[a].jwt.AccountJwt? && Coherent(d, a)
    && row.operatorId in db.operators && d.accounts[a].jwt.issuer == db.operators[row.operatorId].publicKey
    && d.accounts[a].jwt.subject == row.publicKey && d.accounts[a].jwt.name == row.name
    && Grants(d.accounts[a].jwt.limits, row.jetStreamEnabled, row.jetStream)
  }

  /** The limits claim: absent without JetStream, else the four maxima one by one. */
  predicate Grants(limits: Option<JetStream>, enabled: bool, maxima: JetStream) {
    && (limits.Some? <==> enabled)
    && (enabled ==>
          && limits.value.maxMemory == maxima.maxMemory && limits.value.maxStorage == maxima.maxStorage
          && limits.value.maxStreams == maxima.maxStreams && limits.value.maxConsumers == maxima.maxConsumers)
  }

  lemma ResignedAnew(db: Db, base: Db, a: Account, d: Db)
    requires OperatorsSigned(db.operators) && base.operators == db.operators && Resigned(base, a, d)
    requires a.id in base.accounts
    ensures SignedAnew(db, a.id, a, d) && OnlyRow(base.accounts, d.accounts, a.id)
    ensures d == base.(accounts := d.accounts)
  {
    hide DeclaresNewest;
  }
}
