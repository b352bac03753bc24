/**
 * The token signer (`CustomJwtService`, which is not part of this model):
 * the claims a token carries and an oracle that signs and verifies tokens.
 * Signatures, expiry decoding and `expiresIn` arithmetic are not modelled.
 */
module Jwt {
  import opened Wrappers
  import opened UserEntity

  /** `UserFromToken`: the claims carried by both tokens of a pair. */
  datatype Claims = Claims(id: Id, sessionId: string, role: Role, accountStatus: Option<AccountStatus>)

  /** What `verifyRefreshToken` answers: the claims, or its error message and code. */
  datatype Decoded = Verified(claims: Claims) | Rejected(message: string, code: int)

  /**
   * The signer as an oracle. Signing takes the issue time, which a JWT
   * embeds; `expiryOf` stands for `getExpiryDate`.
   */
  datatype Signer = Signer(
    signAccess: (Claims, int) -> string,
    signRefresh: (Claims, int) -> string,
    expiryOf: string -> int,
    verifyRefresh: string -> Decoded,
    verifyAccess: string -> Option<Claims>)

  /** A signer whose refresh tokens verify to the claims they were signed with. */
  ghost predicate RefreshRoundTrips(s: Signer) {
    forall c: Claims, t: int :: s.verifyRefresh(s.signRefresh(c, t)) == Verified(c)
  }

  /** `AuthToken`: a signed pair and its session. */
  datatype AuthToken = AuthToken(accessToken: string, refreshToken: string, sessionId: string, expiresIn: int)
}
