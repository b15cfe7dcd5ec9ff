/** The two cryptographic libraries the service calls, as abstract models.

    Password hashing (bcrypt) is modelled symbolically: a hash output remembers the
    value that was hashed and the salt it was hashed with, so it is one-to-one and never
    equal to any text a client typed. Comparison does what bcrypt's compare does: take the
    salt embedded in the stored hash, hash the candidate with it, and check for equality.

    Token signing (a JSON Web Token library) is left uninterpreted: a `Jwt` is any pair of
    sign and verify functions; the lemmas that need a working library assume `Sound`. */
module Crypto {
  import opened Wrappers

  type Salt = nat
  type Id = nat

  /** A value held in a password field: text as a client sent it, or a hash output. */
  datatype Credential = Plain(text: string) | Hashed(input: Credential, salt: Salt)

  /** The outcome of one call into the hashing library: the random salt it drew,
      or the error it raised. */
  datatype HashDraw = Salted(salt: Salt) | Faulted(reason: string)

  /** The claims a login token carries: the user's identifier and role. */
  datatype Claims = Claims(id: Id, role: string)

  /** Hash `c` with `salt`. */
  function Hash(c: Credential, salt: Salt): Credential {
    Hashed(c, salt)
  }

  /** Does plaintext `p` match the stored hash `h`? A stored value that is not a hash
      output matches nothing. */
  predicate Compare(p: string, h: Credential) {
    h.Hashed? && Hash(Plain(p), h.salt) == h
  }

  /** Compare accepts a hash exactly when what was hashed is the candidate itself. */
  lemma CompareHash(p: string, c: Credential, salt: Salt)
    ensures Compare(p, Hash(c, salt)) <==> c == Plain(p)
  {
  }

  /** A hash of a hash never matches the original text, whatever the two salts. */
  lemma CompareRejectsDoubleHash(p: string, s1: Salt, s2: Salt)
    ensures !Compare(p, Hash(Hash(Plain(p), s1), s2))
  {
    CompareHash(p, Hash(Plain(p), s1), s2);
  }

  /** A token library: `sign(claims, secret)` issues a token, `verify(token, secret)`
      gives back its claims or None when verification throws (bad signature, expired, malformed). */
  datatype Jwt = Jwt(sign: (Claims, string) -> string, verify: (string, string) -> Option<Claims>)

  /** A token in compact form: non-empty and free of spaces, so it survives a
      `Bearer <token>` header. */
  predicate Compact(token: string) {
    token != [] && ' ' !in token
  }

  /** A working token library: what it signs, it verifies with the same secret, and its
      tokens are compact. */
  ghost predicate Sound(j: Jwt) {
    forall c: Claims, k: string {:trigger j.sign(c, k)} ::
      j.verify(j.sign(c, k), k) == Some(c) && Compact(j.sign(c, k))
  }
}
