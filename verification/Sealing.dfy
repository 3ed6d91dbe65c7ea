/** Making the stored credentials of a cluster from a user, and opening a cluster with them. */
module Sealing {
  import opened Entities
  import opened Encryption
  import Creds

  /** A text whose characters are single bytes, as all text here is in Go. */
  predicate OneByte(s: string) {
    forall c | c in s :: c as int < 256
  }

  function ToBytes(s: string): Bytes {
    seq(|s|, i requires 0 <= i < |s| => s[i] as int % 256)
  }

  function FromBytes(b: Bytes): string {
    seq(|b|, i requires 0 <= i < |b| => b[i] as char)
  }

  lemma BytesRoundTrip(s: string)
    requires OneByte(s)
    ensures FromBytes(ToBytes(s)) == s
  {
    forall i | 0 <= i < |s| ensures FromBytes(ToBytes(s))[i] == s[i] {
      assert s[i] in s;
    }
  }

  /** The encryptor, and how the two text columns of a user row that credentials are made of are
      written: the encoded JWT, and the storage reference of the seed. */
  datatype Vault = Vault(aead: Aead, encryptor: Encryptor, jwtText: Jwt -> string, seedRef: Secret -> string)

  function UserCredentials(v: Vault, u: User): Result<string> {
    match Decrypt(v.aead, v.encryptor, v.seedRef(u.seed))
    case Err(error) => Err(error)
    case Ok(seed) => Ok(Creds.CredsFile(v.jwtText(u.jwt), FromBytes(seed)))
  }

  /** The storage reference of the user's credentials file. */
  function Sealed(v: Vault, nonce: Bytes, u: User): Result<string> {
    match UserCredentials(v, u)
    case Err(error) => Err(error)
    case Ok(file) => Encrypt(v.aead, v.encryptor, nonce, ToBytes(file))
  }

  /** How the NATS client authenticates. */
  datatype Auth = Anonymous | AsUser(jwt: string, seed: string)

  /** The client for these servers and this file; connecting is another matter. */
  function ClientFor(serverUrls: seq<string>, content: string): Result<Auth> {
    if serverUrls == [] then Err(Invalid)
    else if content == "" then Ok(Anonymous)
    else match Creds.Parse(content)
         case Malformed => Err(Invalid)
         case Panic => Err(Panicked)
         case Credentials(jwt, seed) => Ok(AsUser(jwt, seed))
  }

  /** What opening the cluster gives, if the servers can be reached. */
  function OpenWith(v: Vault, c: Cluster): Result<Auth> {
    if c.creds == "" then Err(Invalid)
    else match Decrypt(v.aead, v.encryptor, c.creds)
         case Err(error) => Err(error)
         case Ok(content) => ClientFor(c.serverUrls, FromBytes(content))
  }
}
