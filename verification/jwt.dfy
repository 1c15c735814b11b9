/**
 * Signed tokens, idealised. Signing and verification are done by the JWT
 * library; the model replaces the signature with the key it was made
 * with, so a token verifies under the configured secret exactly when it
 * was signed with that secret (a perfect MAC: nobody without the secret
 * can produce such a token). Expiry depends on the clock, which enters
 * as the verdict `expired`.
 */
module Jwt {
  import opened Outcomes

  /** The `jwt` configuration namespace. The TTLs are passed to the library as configured. */
  datatype JwtConfig = JwtConfig(
    secret: string,
    audience: string,
    issuer: string,
    accessTokenTtl: string,
    refreshTokenTtl: string)

  /** The payload spread after `sub`: the access token's email or the refresh token's id. */
  datatype Payload = AccessPayload(email: string) | RefreshPayload(refreshTokenId: string)

  /** The claims a token carries: `{sub: userId, ...payload}`. */
  datatype Claims = Claims(sub: nat, email: Option<string>, refreshTokenId: Option<string>)

  /** A signed token: its claims, its registered options, and the key that signed it. */
  datatype Token = Token(
    claims: Claims,
    audience: string,
    issuer: string,
    expiresIn: string,
    signingKey: string)

  /** The claims `{sub: userId, ...payload}`. */
  function ClaimsOf(userId: nat, payload: Payload): (c: Claims)
    ensures c.sub == userId
    ensures c.email.Some? <==> payload.AccessPayload?
    ensures c.refreshTokenId.Some? <==> payload.RefreshPayload?
    ensures payload.AccessPayload? ==> c == Claims(userId, Some(payload.email), None)
    ensures payload.RefreshPayload? ==> c == Claims(userId, None, Some(payload.refreshTokenId))
  {
    match payload
    case AccessPayload(email) => Claims(userId, Some(email), None)
    case RefreshPayload(id) => Claims(userId, None, Some(id))
  }

  /** signToken: sign `{sub: userId, ...payload}` with the configured audience, issuer and secret. */
  function SignToken(config: JwtConfig, userId: nat, expiresIn: string, payload: Payload): (t: Token)
    ensures t.claims.sub == userId && t.claims == ClaimsOf(userId, payload)
    ensures t.audience == config.audience && t.issuer == config.issuer && t.signingKey == config.secret
    ensures t.expiresIn == expiresIn
  {
    Token(ClaimsOf(userId, payload), config.audience, config.issuer, expiresIn, config.secret)
  }

  /** verifyAsync with the configured secret, audience and issuer: the claims, or a rejection. */
  function Verify(config: JwtConfig, token: Token, expired: bool): (claims: Option<Claims>)
    ensures claims.Some? <==> !expired && token.signingKey == config.secret
                              && token.audience == config.audience && token.issuer == config.issuer
    ensures claims.Some? ==> claims.value == token.claims
  {
    if !expired && token.signingKey == config.secret
       && token.audience == config.audience && token.issuer == config.issuer
    then Some(token.claims)
    else None
  }

  /** A token this configuration signed verifies, until it expires, to the claims it was signed with. */
  lemma SignThenVerify(config: JwtConfig, userId: nat, expiresIn: string, payload: Payload)
    ensures Verify(config, SignToken(config, userId, expiresIn, payload), false) == Some(ClaimsOf(userId, payload))
    ensures Verify(config, SignToken(config, userId, expiresIn, payload), true) == None
  {
  }

  /** Verification fails closed: a wrong key, audience or issuer, or expiry, rejects. */
  lemma VerifyFailsClosed(config: JwtConfig, token: Token, expired: bool)
    requires expired || token.signingKey != config.secret
             || token.audience != config.audience || token.issuer != config.issuer
    ensures Verify(config, token, expired) == None
  {
  }
}
