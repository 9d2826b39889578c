/** `PasswordHelper`: salted password hashes made with HMAC-SHA-512, where the
    salt is the HMAC key. */
module PasswordHelper {
  import opened DotNet

  /** Size in bytes of an HMAC-SHA-512 digest. */
  const HashSize: nat := 64

  /** Size in bytes of the random key `new HMACSHA512()` generates. */
  const KeySize: nat := 128

  /** The primitives the helper calls, left uninterpreted: HMAC-SHA-512 as a
      deterministic function of (key, message) and the UTF-8 encoder. */
  datatype Crypto = Crypto(hmacSha512: (Bytes, Bytes) -> Bytes, utf8: string -> Bytes)

  /** Every HMAC-SHA-512 digest is 64 bytes long. */
  ghost predicate DigestsAreHashSize(crypto: Crypto) {
    forall key, message :: |crypto.hmacSha512(key, message)| == HashSize
  }

  datatype HashAndSalt = HashAndSalt(hash: Bytes, salt: Bytes)

  /** `CreatePasswordHash`. The key that `new HMACSHA512()` generates at random
      is the parameter `freshKey`: it becomes the salt, and the hash is the
      HMAC of the UTF-8 password under it. */
  function CreatePasswordHash(crypto: Crypto, password: string, freshKey: Bytes): (r: HashAndSalt)
    requires |freshKey| == KeySize
    ensures r.salt == freshKey && |r.salt| == KeySize
    ensures VerifyPassword(crypto, password, r.hash, r.salt)
  {
    var salt := freshKey;
    HashAndSalt(crypto.hmacSha512(salt, crypto.utf8(password)), salt)
  }

  /** `VerifyPassword`: recompute the HMAC under the stored salt and compare it
      with the stored hash element by element. */
  function VerifyPassword(crypto: Crypto, password: string, storedHash: Bytes, storedSalt: Bytes): (ok: bool)
    ensures ok <==> crypto.hmacSha512(storedSalt, crypto.utf8(password)) == storedHash
  {
    SequenceEqual(crypto.hmacSha512(storedSalt, crypto.utf8(password)), storedHash)
  }

  /** `Enumerable.SequenceEqual`: same length and equal at every position. */
  function SequenceEqual(a: Bytes, b: Bytes): (eq: bool)
    ensures eq <==> a == b
  {
    |a| == |b| && forall i :: 0 <= i < |a| ==> a[i] == b[i]
  }

  /** A stored hash of the wrong length never verifies. */
  lemma WrongLengthNeverVerifies(crypto: Crypto, password: string, storedHash: Bytes, storedSalt: Bytes)
    requires DigestsAreHashSize(crypto)
    requires |storedHash| != HashSize
    ensures !VerifyPassword(crypto, password, storedHash, storedSalt)
  {
  }
}
