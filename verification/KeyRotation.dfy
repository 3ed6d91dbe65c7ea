/** References across key rotation: what was encrypted stays readable while keys are only added. */
module KeyRotation {
  import opened Entities
  import opened Encryption
  import Base64

  /** How a reference came about: encrypted at time `at`, or rotated at that time from an older one. */
  datatype Origin =
    | Fresh(at: nat, nonce: Bytes)
    | Rotated(from: Origin, at: nat, nonce: Bytes)

  /** The encryptors over time: each has a current key, ids have no colon, and keys are only added. */
  ghost predicate Growing(es: seq<Encryptor>) {
    && (forall i | 0 <= i < |es| :: es[i].currentKeyId in es[i].keys && forall id | id in es[i].keys :: ColonFree(id))
    && forall i, j, id | 0 <= i <= j < |es| && id in es[i].keys :: id in es[j].keys && es[j].keys[id] == es[i].keys[id]
  }

  /** Nonces have their size, and no rotation precedes what it rotates. */
  predicate InOrder(o: Origin, times: nat) {
    && o.at < times && |o.nonce| == NONCE_SIZE
    && (o.Rotated? ==> o.from.at <= o.at && InOrder(o.from, times))
  }

  function Reference(a: Aead, es: seq<Encryptor>, plain: Bytes, o: Origin): Result<string>
    requires InOrder(o, |es|)
  {
    match o
    case Fresh(at, nonce) => Encrypt(a, es[at], nonce, plain)
    case Rotated(from, at, nonce) =>
      match Reference(a, es, plain, from)
      case Err(error) => Err(error)
      case Ok(ref) => RotateKey(a, es[at], nonce, ref)
  }

  /** The reference names this key. */
  predicate Names(ref: string, keyId: string) {
    var parts := SplitN(ref, 3);
    |parts| == 3 && parts[0] == "encrypted" && parts[1] == keyId
  }

  /** Every reference, however often it was rotated, decrypts to its plaintext under every later
      encryptor, and names the key that was current when it was last written. */
  lemma {:induction false} RotationKeepsPlaintext(a: Aead, es: seq<Encryptor>, plain: Bytes, o: Origin, j: nat)
    requires OpenUndoesSeal(a) && Growing(es) && InOrder(o, |es|) && o.at <= j < |es|
    ensures var ref := Reference(a, es, plain, o);
            && ref.Ok? && Decrypt(a, es[j], ref.value) == Ok(plain)
            && Names(ref.value, es[o.at].currentKeyId)
  {
    hide Decrypt, SplitN, OpenUndoesSeal;
    var e := es[o.at];
    if o.Rotated? {
      RotationKeepsPlaintext(a, es, plain, o.from, o.at);
    }
    DecryptsIff(a, e, es[j], o.nonce, plain);
    SplitReference(e.currentKeyId, Base64.Encode(o.nonce + a.seal(e.keys[e.currentKeyId], o.nonce, plain)));
  }
}
