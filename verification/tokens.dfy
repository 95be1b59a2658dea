/**
 * The token issuer (`generateTokens` in server.js). Signing and verifying are
 * done by the JWT library, which is not part of this model: a signed token is
 * an opaque string, and verifying one, with the process secret at the current
 * time, is a total function from that string to a `Verified` outcome.
 */
module Tokens {

  type UserId = int

  /** The values of the `type` claim that the issuer writes. */
  const ACCESS_TYPE: string := "access"
  const REFRESH_TYPE: string := "refresh"

  /** `expiresIn: '60m'` and `expiresIn: '7d'`, in seconds. */
  const ACCESS_LIFETIME_SECONDS: nat := 60 * 60
  const REFRESH_LIFETIME_SECONDS: nat := 7 * 24 * 60 * 60

  /** The payload of a signed token: `userId` and `type`, plus the `iat` and `exp` the library adds. */
  datatype Claims = Claims(userId: UserId, tokenType: string, issuedAt: int, expiresAt: int)

  datatype ClaimPair = ClaimPair(access: Claims, refresh: Claims)

  /** What `generateTokens` returns: two signed tokens. */
  datatype TokenPair = TokenPair(accessToken: string, refreshToken: string)

  /**
   * The outcome of verifying a token: a bad signature and an expired token are
   * both `Invalid`; otherwise the decoded `userId` and `type` claims.
   */
  datatype Verified = Invalid | Valid(userId: UserId, tokenType: string)

  /** The claims `generateTokens(userId)` signs when called at time `now` (seconds). */
  function GenerateClaims(userId: UserId, now: int): (c: ClaimPair)
    ensures c.access.userId == userId && c.refresh.userId == userId
    ensures c.access.tokenType == ACCESS_TYPE && c.refresh.tokenType == REFRESH_TYPE
    ensures c.access.issuedAt == now && c.refresh.issuedAt == now
    ensures c.access.expiresAt == now + ACCESS_LIFETIME_SECONDS
    ensures c.refresh.expiresAt == now + REFRESH_LIFETIME_SECONDS
    ensures now < c.access.expiresAt < c.refresh.expiresAt
  {
    ClaimPair(
      Claims(userId, ACCESS_TYPE, now, now + ACCESS_LIFETIME_SECONDS),
      Claims(userId, REFRESH_TYPE, now, now + REFRESH_LIFETIME_SECONDS))
  }

  /**
   * `pair` is a signing of `claims`: verifying either token (before it
   * expires) gives back the `userId` and `type` it was signed with.
   */
  predicate Signs(pair: TokenPair, claims: ClaimPair, verify: string -> Verified)
  {
    && verify(pair.accessToken) == Valid(claims.access.userId, claims.access.tokenType)
    && verify(pair.refreshToken) == Valid(claims.refresh.userId, claims.refresh.tokenType)
  }

  /** The two tokens of one signed pair are never the same string, since they verify to different types. */
  lemma IssuedTokensDiffer(pair: TokenPair, userId: UserId, now: int, verify: string -> Verified)
    requires Signs(pair, GenerateClaims(userId, now), verify)
    ensures pair.accessToken != pair.refreshToken
  {
  }
}
