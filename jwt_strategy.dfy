/** The check run on every request carrying an access token whose signature
    and expiry already passed: reject a revoked jti, then load the principal. */
module JwtStrategy {
  import opened Outcomes
  import opened Decimal
  import opened CredentialStore
  import opened Jwt

  /** True when a token row holds the jti with the blacklist flag set. Only
      the token table is consulted, never the access blacklist table. */
  predicate RevokedInTokenTable(tokens: map<Id, Token>, jti: string) {
    exists k :: k in tokens && tokens[k].content == jti && tokens[k].isBlacklisted
  }

  /** `JwtStrategy.validate`: no principal for a jti revoked in the token
      table; otherwise the user whose id is `parseInt(sub, 10)`, or none.
      It reads the two tables and writes nothing. */
  function Validate(tokens: map<Id, Token>, users: map<Id, User>, payload: Payload): (r: Option<User>)
    ensures r.Some? <==>
      !RevokedInTokenTable(tokens, payload.jti) && ParseInt(payload.sub).Some? && ParseInt(payload.sub).value in users
    ensures r.Some? ==> r.value == users[ParseInt(payload.sub).value]
  {
    if RevokedInTokenTable(tokens, payload.jti) then None
    else
      match ParseInt(payload.sub)
      case None => None
      case Some(id) => if id >= 0 && id in users then Some(users[id]) else None
  }

  /** A token the access service signed for an existing user authenticates
      that user, unless its jti sits flagged in the token table. */
  lemma ValidateAcceptsIssuedToken(tokens: map<Id, Token>, users: map<Id, User>, options: JwtOptions, userId: Id, now: int)
    requires userId in users
    requires !RevokedInTokenTable(tokens, options.jwtid)
    ensures Validate(tokens, users, Sign(options, NatToString(userId), now).payload) == Some(users[userId])
  {
    ParseIntRoundTrip(userId);
  }
}
