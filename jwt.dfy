/** The JSON Web Token library (RFC 7519), seen from outside.
    Signing and verification are foreign code: they enter the model as
    function values, with the few facts the services rely on stated as
    hypotheses that callers may assume about them. */
module Jwt {
  import opened Wrappers

  /** The payload `jwt.sign` produces for `{ username }` with
      `expiresIn: '1h'`: the issued-at time and the expiry time
      (`exp`, section 4.1.4 of RFC 7519), both in seconds. */
  datatype Claims = Claims(username: string, iat: int, exp: int)

  /** `expiresIn: '1h'`, in seconds. */
  const ExpiresIn: int := 3600

  /** The claims signed at login time `now`. */
  function IssueClaims(username: string, now: int): (c: Claims)
    ensures c.username == username && c.iat == now
    ensures c.exp - c.iat == ExpiresIn
  {
    Claims(username, now, now + ExpiresIn)
  }

  /** A verifier that accepts a token it signed exactly while the current
      time is before the expiry time, and then yields the signed claims. */
  ghost predicate HonoursExpiry(sign: Claims -> string, verify: (string, int) -> Option<Claims>)
  {
    forall c: Claims, now: int ::
      verify(sign(c), now) == if now < c.exp then Some(c) else None
  }

  /** Compact serialisation uses only base64url characters and dots, so a
      signed token never contains a space. */
  ghost predicate CompactTokens(sign: Claims -> string)
  {
    forall c: Claims :: ' ' !in sign(c)
  }
}
