/** Signed bearer tokens and the two services that issue and revoke them.
    A token is modelled symbolically: it carries its claims and the secret it
    was signed with, so decoding always succeeds and verifying checks the
    secret and the expiry, with no claim about the strength of the signature. */
module Jwt {
  import opened Outcomes
  import opened Decimal
  import opened CredentialStore

  /** The registered claims the services read: subject, issued-at,
      expiration (both in seconds) and token id. */
  datatype Payload = Payload(sub: string, iat: int, exp: int, jti: string)

  datatype SignedJwt = SignedJwt(payload: Payload, secret: string)

  /** The signing options of one JWT module. `jwtid` is drawn once when the
      module is configured, so every token that module signs carries it. */
  datatype JwtOptions = JwtOptions(secret: string, expiresIn: nat, jwtid: string)

  /** Signing an empty custom payload with a subject at time `now` (ms). */
  function Sign(options: JwtOptions, subject: string, now: int): (t: SignedJwt)
    ensures t.payload.sub == subject && t.payload.jti == options.jwtid
    ensures t.payload.exp - t.payload.iat == options.expiresIn
    ensures t.secret == options.secret
  {
    var iat := now / 1000;
    SignedJwt(Payload(subject, iat, iat + options.expiresIn, options.jwtid), options.secret)
  }

  function Decode(t: SignedJwt): Payload {
    t.payload
  }

  /** Verification fails on a foreign signature, then on expiry (the token is
      expired once the current second reaches `exp`). Neither failure is an
      HTTP exception, so a caller that does not catch it answers 500. */
  function Verify(options: JwtOptions, t: SignedJwt, now: int): (r: Result<Payload>)
    ensures r.Ok? <==> t.secret == options.secret && now / 1000 < t.payload.exp
    ensures r.Ok? ==> r.value == Decode(t)
    ensures r.Err? ==> r.failure.kind == InternalError
  {
    if t.secret != options.secret then Err(Failure(InternalError, "JsonWebTokenError"))
    else if now / 1000 >= t.payload.exp then Err(Failure(InternalError, "TokenExpiredError"))
    else Ok(t.payload)
  }

  /** A freshly signed token verifies at the time it was signed, as long as
      its lifetime is positive, and its subject reads back as the user id. */
  lemma {:induction false} GeneratedTokenVerifies(options: JwtOptions, userId: Id, now: int)
    requires options.expiresIn > 0
    ensures Verify(options, Sign(options, NatToString(userId), now), now) == Ok(Sign(options, NatToString(userId), now).payload)
    ensures ParseInt(Sign(options, NatToString(userId), now).payload.sub) == Some(userId)
  {
    ParseIntRoundTrip(userId);
  }

  /** The token both services issue for a user: the user id, written in
      decimal, is the subject. Its subject reads back as the id, and it
      verifies at the time of signing when its lifetime is positive. */
  function UserToken(options: JwtOptions, userId: Id, now: int): (t: SignedJwt)
    ensures ParseInt(t.payload.sub) == Some(userId)
    ensures t.payload.jti == options.jwtid && t.secret == options.secret
    ensures options.expiresIn > 0 ==> Verify(options, t, now).Ok?
  {
    ParseIntRoundTrip(userId);
    Sign(options, NatToString(userId), now)
  }

  /** Every token a module signs carries the same jti. */
  lemma SharedJti(options: JwtOptions, s1: string, s2: string, now1: int, now2: int)
    ensures Sign(options, s1, now1).payload.jti == Sign(options, s2, now2).payload.jti
  {
  }

  /** The access-token service: revocation rows go to the blacklist table. */
  class JwtAccessService {
    const store: Store
    const options: JwtOptions

    constructor (store: Store, options: JwtOptions)
      ensures this.store == store && this.options == options
    {
      this.store := store;
      this.options := options;
    }

    function GenerateToken(userId: Id, now: int): (t: SignedJwt)
      ensures ParseInt(t.payload.sub) == Some(userId)
      ensures t.payload.jti == options.jwtid
      ensures options.expiresIn > 0 ==> Verify(options, t, now).Ok?
    {
      UserToken(options, userId, now)
    }

    /** True when some blacklist row holds the token's jti. The token is only
        decoded, so an expired token can be asked about too. */
    predicate IsTokenBlacklisted(t: SignedJwt)
      reads store
    {
      exists k :: k in store.blacklist && store.blacklist[k].token == Decode(t).jti
    }

    /** Appends one blacklist row holding the decoded jti; nothing else
        changes. The column is not unique, so blacklisting a jti twice adds a
        second row. */
    method SetTokenBlacklist(t: SignedJwt, now: int)
      requires store.Valid()
      modifies store
      ensures store.Valid()
      ensures store.blacklist == old(store.blacklist)[old(store.nextId) := BlacklistEntry(Decode(t).jti, now)]
      ensures old(store.nextId) !in old(store.blacklist)
      ensures store.nextId == old(store.nextId) + 1
      ensures store.users == old(store.users) && store.tokens == old(store.tokens)
      ensures store.roles == old(store.roles) && store.pictures == old(store.pictures)
      ensures forall t' :: Decode(t').jti == Decode(t).jti ==> IsTokenBlacklisted(t')
      ensures forall t' :: old(IsTokenBlacklisted(t')) ==> IsTokenBlacklisted(t')
    {
      var id := store.nextId;
      store.blacklist := store.blacklist[id := BlacklistEntry(Decode(t).jti, now)];
      store.nextId := id + 1;
      assert store.blacklist[id].token == Decode(t).jti;
      forall t' | old(IsTokenBlacklisted(t')) ensures IsTokenBlacklisted(t') {
        var k :| k in old(store.blacklist) && old(store.blacklist)[k].token == Decode(t').jti;
        assert k != id && store.blacklist[k] == old(store.blacklist)[k];
      }
    }
  }

  /** The refresh-token service: revocation rows go to the token table,
      flagged `isBlacklisted`. */
  class JwtRefreshService {
    const store: Store
    const options: JwtOptions

    constructor (store: Store, options: JwtOptions)
      ensures this.store == store && this.options == options
    {
      this.store := store;
      this.options := options;
    }

    function GenerateToken(userId: Id, now: int): (t: SignedJwt)
      ensures ParseInt(t.payload.sub) == Some(userId)
      ensures t.payload.jti == options.jwtid
      ensures options.expiresIn > 0 ==> Verify(options, t, now).Ok?
    {
      UserToken(options, userId, now)
    }

    /** True when a token row holds the jti and is flagged as blacklisted;
        an ephemeral token with the same content does not count. */
    predicate IsTokenBlacklisted(t: SignedJwt)
      reads store
    {
      exists k :: k in store.tokens && store.tokens[k].content == Decode(t).jti && store.tokens[k].isBlacklisted
    }

    /** Saves one token row with content = jti, expiration = exp seconds in
        milliseconds and the blacklist flag. The content column is unique, so
        when the jti is already stored the save fails and nothing changes. */
    method SetTokenBlacklist(t: SignedJwt, now: int) returns (r: Outcome)
      requires store.Valid()
      modifies store
      ensures store.Valid()
      ensures r.Fail? <==> old(store.ContentInUse(Decode(t).jti))
      ensures r.Fail? ==> r.failure.kind == InternalError && store.tokens == old(store.tokens) && store.nextId == old(store.nextId)
      ensures r.Pass? ==>
        && old(store.nextId) !in old(store.tokens)
        && store.tokens == old(store.tokens)[old(store.nextId) := Token(Decode(t).jti, Some(Decode(t).exp * 1000), true, now)]
        && store.nextId == old(store.nextId) + 1
        && IsTokenBlacklisted(t)
      ensures store.users == old(store.users) && store.blacklist == old(store.blacklist)
      ensures store.roles == old(store.roles) && store.pictures == old(store.pictures)
    {
      var jti := Decode(t).jti;
      if store.ContentInUse(jti) {
        return Fail(Failure(InternalError, "QueryFailedError"));
      }
      var id := store.nextId;
      store.tokens := store.tokens[id := Token(jti, Some(Decode(t).exp * 1000), true, now)];
      store.nextId := id + 1;
      assert store.tokens[id].content == jti;
      r := Pass;
    }
  }
}
