/** Storage references `encrypted:<key id>:<base64>`, and what key rotation preserves. */
module Encryption {
  import opened Entities
  import opened Text
  import Base64

  type Bytes = seq<Base64.Byte>

  const KEY_SIZE := 32
  const NONCE_SIZE := 12

  /** An authenticated cipher, section 2.8 of RFC 8439; only one law of it is used. */
  datatype Aead = Aead(seal: (Bytes, Bytes, Bytes) -> Bytes, open: (Bytes, Bytes, Bytes) -> Option<Bytes>)

  ghost predicate OpenUndoesSeal(a: Aead) {
    forall key, nonce, plain :: a.open(key, nonce, a.seal(key, nonce, plain)) == Some(plain)
  }

  datatype Encryptor = Encryptor(keys: map<string, Bytes>, currentKeyId: string)

  method NewEncryptor(keys: map<string, string>, currentKeyId: string) returns (r: Result<Encryptor>)
    ensures r.Ok? <==> currentKeyId != "" && currentKeyId in keys && forall id | id in keys ::
              Base64.Decode(keys[id]).Some? && |Base64.Decode(keys[id]).value| == 32
    ensures r.Ok? ==> r.value.currentKeyId == currentKeyId && r.value.keys.Keys == keys.Keys
                      && forall id | id in keys :: Some(r.value.keys[id]) == Base64.Decode(keys[id])
                                                   && |r.value.keys[id]| == 32
  {
    if |keys| == 0 { return Err(Invalid); }
    if currentKeyId == "" { return Err(Invalid); }
    var decoded: map<string, Bytes> := map[];
    var left := keys.Keys;
    while left != {}
      invariant left <= keys.Keys && decoded.Keys == keys.Keys - left
      invariant forall id | id in decoded :: Some(decoded[id]) == Base64.Decode(keys[id]) && |decoded[id]| == KEY_SIZE
      decreases left
    {
      var id :| id in left;
      var b := Base64.Decode(keys[id]);
      if b.None? || |b.value| != KEY_SIZE { return Err(Invalid); }
      decoded := decoded[id := b.value];
      left := left - {id};
    }
    if currentKeyId !in decoded { return Err(Invalid); }
    r := Ok(Encryptor(decoded, currentKeyId));
  }

  function Encrypt(a: Aead, e: Encryptor, nonce: Bytes, plain: Bytes): Result<string> {
    if e.currentKeyId !in e.keys then Err(NotFound)
    else Ok("encrypted:" + e.currentKeyId + ":"
            + Base64.Encode(nonce + a.seal(e.keys[e.currentKeyId], nonce, plain)))
  }

  /** At most `n` pieces: a split at the first colons, the last piece holding the rest. */
  function SplitN(s: string, n: nat): seq<string>
    requires n > 0
    decreases n
  {
    var i := Index(s, ":");
    if n == 1 || i < 0 || i >= |s| then [s] else [s[..i]] + SplitN(s[i + 1..], n - 1)
  }

  function DecryptChaCha(a: Aead, e: Encryptor, keyId: string, data: string): Result<Bytes> {
    if keyId !in e.keys then Err(NotFound)
    else match Base64.Decode(data)
         case None => Err(Invalid)
         case Some(b) =>
           if |b| < NONCE_SIZE then Err(Invalid)
           else match a.open(e.keys[keyId], b[..NONCE_SIZE], b[NONCE_SIZE..])
                case None => Err(Invalid)
                case Some(plain) => Ok(plain)
  }

  function Decrypt(a: Aead, e: Encryptor, ref: string): Result<Bytes> {
    var parts := SplitN(ref, 3);
    if |parts| != 3 then Err(Invalid)
    else if parts[0] == "encrypted" then DecryptChaCha(a, e, parts[1], parts[2])
    else Err(Invalid)
  }

  function RotateKey(a: Aead, e: Encryptor, nonce: Bytes, oldRef: string): Result<string> {
    match Decrypt(a, e, oldRef)
    case Err(error) => Err(error)
    case Ok(plain) => Encrypt(a, e, nonce, plain)
  }

  // Splitting a reference

  predicate ColonFree(s: string) {
    ':' !in s
  }

  lemma FirstColon(a: string, b: string)
    requires ColonFree(a)
    ensures Index(a + ":" + b, ":") == |a|
  {
    var s := a + ":" + b;
    assert s[|a|..|a| + 1] == ":";
    forall j | 0 <= j < |a| ensures !OccursAt(s, ":", j) {
      assert s[j] == a[j] && s[j..j + 1][0] == s[j];
    }
    IndexIs(s, ":", |a|);
  }

  lemma SplitAtColon(a: string, b: string, n: nat)
    requires ColonFree(a) && n > 1
    ensures SplitN(a + ":" + b, n) == [a] + SplitN(b, n - 1)
  {
    FirstColon(a, b);
    assert (a + ":" + b)[..|a|] == a && (a + ":" + b)[|a| + 1..] == b;
  }

  lemma SplitReference(id: string, data: string)
    requires ColonFree(id)
    ensures SplitN("encrypted:" + id + ":" + data, 3) == ["encrypted", id, data]
  {
    assert "encrypted:" + id + ":" + data == "encrypted" + ":" + (id + ":" + data);
    SplitAtColon("encrypted", id + ":" + data, 3);
    SplitAtColon(id, data, 2);
  }

  /** A key id with a colon in it leaves a colon in the data. */
  lemma SplitReferenceWithColon(id: string, data: string) returns (x: string, y: string)
    requires !ColonFree(id)
    ensures SplitN("encrypted:" + id + ":" + data, 3) == ["encrypted", x, y + ":" + data]
  {
    var i := LeastColon(id);
    x, y := id[..i], id[i + 1..];
    assert "encrypted:" + id + ":" + data == "encrypted" + ":" + (x + ":" + (y + ":" + data));
    SplitAtColon("encrypted", x + ":" + (y + ":" + data), 3);
    SplitAtColon(x, y + ":" + data, 2);
  }

  lemma {:induction false} LeastColon(s: string) returns (i: nat)
    requires !ColonFree(s)
    ensures i < |s| && s[i] == ':' && ColonFree(s[..i])
  {
    if s[0] == ':' {
      i := 0;
    } else {
      var j := LeastColon(s[1..]);
      i := j + 1;
      assert s[..i] == [s[0]] + s[1..][..j];
    }
  }

  /** An encrypted reference decrypts to its plaintext, under any encryptor that has the key, if and
      only if the key id has no colon. */
  lemma DecryptsIff(a: Aead, e: Encryptor, later: Encryptor, nonce: Bytes, plain: Bytes)
    requires OpenUndoesSeal(a) && |nonce| == 12 && e.currentKeyId in e.keys
    requires e.currentKeyId in later.keys && later.keys[e.currentKeyId] == e.keys[e.currentKeyId]
    ensures Decrypt(a, later, Encrypt(a, e, nonce, plain).value) == Ok(plain) <==> ColonFree(e.currentKeyId)
  {
    var id := e.currentKeyId;
    var sealed := nonce + a.seal(e.keys[id], nonce, plain);
    var data := Base64.Encode(sealed);
    if ColonFree(id) {
      SplitReference(id, data);
      Base64.RoundTrip(sealed);
      assert sealed[..NONCE_SIZE] == nonce && sealed[NONCE_SIZE..] == a.seal(e.keys[id], nonce, plain);
    } else {
      var x, y := SplitReferenceWithColon(id, data);
      assert (y + ":" + data)[|y|] == ':';
      Base64.Rejects(y + ":" + data, |y|);
    }
  }

  // Which texts decrypt.

  lemma ColonAt(s: string, j: nat)
    requires j < |s|
    ensures OccursAt(s, ":", j) <==> s[j] == ':'
  {
    assert s[j..j + 1] == [s[j]];
  }

  lemma ColonSplits(s: string)
    ensures var i := Index(s, ":");
            if i < 0 then ColonFree(s) else i < |s| && s[i] == ':' && ColonFree(s[..i])
  {
    IndexFromLeast(s, ":", 0);
    hide OccursAt, IndexFrom;
    var i := Index(s, ":");
    IndexFits(s, ":");
    if i >= 0 {
      ColonAt(s, i);
    }
    forall j: nat | j < |s| && s[j] == ':' ensures i >= 0 && i <= j {
      ColonAt(s, j);
    }
  }

  lemma CutAt(s: string, i: nat)
    requires i < |s| && s[i] == ':'
    ensures s == s[..i] + ":" + s[i + 1..]
  {
  }

  lemma Joined(a: string, b: string, c: string)
    ensures a + ":" + b + ":" + c == a + ":" + (b + ":" + c)
  {
  }

  lemma ThreeParts(ref: string)
    requires |SplitN(ref, 3)| == 3
    ensures var parts := SplitN(ref, 3);
            ColonFree(parts[0]) && ColonFree(parts[1]) && ref == parts[0] + ":" + parts[1] + ":" + parts[2]
  {
    hide Index;
    ColonSplits(ref);
    var i := Index(ref, ":");
    assert 0 <= i < |ref|;
    var rest := ref[i + 1..];
    ColonSplits(rest);
    var j := Index(rest, ":");
    assert SplitN(ref, 3) == [ref[..i], rest[..j], rest[j + 1..]];
    hide *;
    CutAt(ref, i);
    CutAt(rest, j);
    Joined(ref[..i], rest[..j], rest[j + 1..]);
  }

  /** The text is a reference under this key id to these bytes. */
  ghost predicate RefersTo(ref: string, keyId: string, data: string) {
    ColonFree(keyId) && ref == "encrypted:" + keyId + ":" + data
  }

  lemma ReferenceParts(ref: string, keyId: string, data: string)
    ensures RefersTo(ref, keyId, data) <==> ColonFree(keyId) && SplitN(ref, 3) == ["encrypted", keyId, data]
  {
    if RefersTo(ref, keyId, data) {
      SplitReference(keyId, data);
    }
    if ColonFree(keyId) && SplitN(ref, 3) == ["encrypted", keyId, data] {
      ThreeParts(ref);
      assert "encrypted" + ":" + keyId + ":" + data == "encrypted:" + keyId + ":" + data;
    }
  }

  /** A text decrypts to `plain` exactly if it is a reference under a known key whose base64 is a nonce of 12
      bytes and what the cipher opens to `plain`. */
  lemma DecryptIff(a: Aead, e: Encryptor, ref: string, plain: Bytes)
    ensures Decrypt(a, e, ref) == Ok(plain) <==>
              exists keyId, data | RefersTo(ref, keyId, data) ::
                && keyId in e.keys && Base64.Decode(data).Some? && |Base64.Decode(data).value| >= 12
                && var b := Base64.Decode(data).value; a.open(e.keys[keyId], b[..12], b[12..]) == Some(plain)
  {
    var parts := SplitN(ref, 3);
    if |parts| == 3 {
      ThreeParts(ref);
      ReferenceParts(ref, parts[1], parts[2]);
    }
    forall keyId, data | RefersTo(ref, keyId, data) ensures parts == ["encrypted", keyId, data] {
      ReferenceParts(ref, keyId, data);
    }
    hide SplitN;
  }

  /** It is refused for want of the key exactly if it is a reference under an unknown one. */
  lemma UnknownKeyIff(a: Aead, e: Encryptor, ref: string)
    ensures Decrypt(a, e, ref) == Err(NotFound) <==>
              exists keyId, data :: RefersTo(ref, keyId, data) && keyId !in e.keys
  {
    var parts := SplitN(ref, 3);
    if |parts| == 3 {
      ThreeParts(ref);
      ReferenceParts(ref, parts[1], parts[2]);
    }
    forall keyId, data | RefersTo(ref, keyId, data) ensures parts == ["encrypted", keyId, data] {
      ReferenceParts(ref, keyId, data);
    }
    hide SplitN;
  }
}
