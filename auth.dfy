/** The authentication state machine: credential login, logout, token
    refresh, registration with email verification, the password-reset
    request and its consumption, and the Google login hand-off.
    Password hashing and comparison are opaque functions given to the
    service; the random token contents and the current time (ms) are
    parameters of the operations that use them. */
module Auth {
  import opened Outcomes
  import opened Roles
  import opened Decimal
  import opened CredentialStore
  import opened Jwt
  import opened JwtStrategy

  /** The configured lifetimes (ms) and the post-login redirect. */
  datatype AuthConfig = AuthConfig(emailVerificationExpiration: int, resetPasswordExpiration: int, googleRedirectUrl: string)

  datatype LoginResult = LoginResult(accessToken: SignedJwt, refreshToken: SignedJwt, message: string)

  /** The refreshed pair. The new refresh token is returned under the name
      `newRefreshToken`, which is the name this service gives it. */
  datatype RefreshResult = RefreshResult(accessToken: SignedJwt, newRefreshToken: SignedJwt, message: string)

  datatype GoogleLoginResult = GoogleLoginResult(accessToken: SignedJwt, refreshToken: SignedJwt, redirectUrl: string, message: string)

  /** A notification handed to the mail service; delivery is fire-and-forget. */
  datatype Mail = VerificationMail(to: string, token: string) | ResetPasswordMail(to: string, token: string)

  /** The login query matches a user by username or by email. */
  predicate Identifies(u: User, identifier: string) {
    u.username == Some(identifier) || u.email == identifier
  }

  /** The checks login applies, in order, to the user it found. */
  function LoginChecks(u: User, password: string, compare: (string, string) -> bool): (r: Outcome)
    ensures r.Pass? <==> !Truthy(u.googleId) && Truthy(u.password) && u.isVerified && compare(password, u.password.value)
    ensures r == Fail(Failure(Forbidden, "auth.login.googleAuth")) <==> Truthy(u.googleId) || !Truthy(u.password)
    ensures r == Fail(Failure(Forbidden, "auth.login.emailNotVerified")) <==>
      !Truthy(u.googleId) && Truthy(u.password) && !u.isVerified
    ensures r == Fail(Failure(Forbidden, "auth.login.invalidPassword")) <==>
      !Truthy(u.googleId) && Truthy(u.password) && u.isVerified && !compare(password, u.password.value)
  {
    if Truthy(u.googleId) || !Truthy(u.password) then Fail(Failure(Forbidden, "auth.login.googleAuth"))
    else if !u.isVerified then Fail(Failure(Forbidden, "auth.login.emailNotVerified"))
    else if !compare(password, u.password.value) then Fail(Failure(Forbidden, "auth.login.invalidPassword"))
    else Pass
  }

  /** A Google account never passes the password login, whatever the password. */
  lemma GoogleAccountsCannotUsePasswords(u: User, password: string, compare: (string, string) -> bool)
    requires Truthy(u.googleId)
    ensures LoginChecks(u, password, compare) == Fail(Failure(Forbidden, "auth.login.googleAuth"))
  {
  }

  class AuthService {
    const store: Store
    const access: JwtAccessService
    const refresh: JwtRefreshService
    const config: AuthConfig
    /** bcrypt `hash(password, 10)` and `compare(password, hash)`. */
    const hash: string -> string
    const compare: (string, string) -> bool
    /** The notifications handed to the mail service so far. */
    var outbox: seq<Mail>

    ghost predicate Valid()
      reads store
    {
      access.store == store && refresh.store == store && store.Valid()
    }

    constructor (store: Store, access: JwtAccessService, refresh: JwtRefreshService, config: AuthConfig,
                 hash: string -> string, compare: (string, string) -> bool)
      requires access.store == store && refresh.store == store
      ensures this.store == store && this.access == access && this.refresh == refresh
      ensures this.config == config && this.hash == hash && this.compare == compare && outbox == []
    {
      this.store := store;
      this.access := access;
      this.refresh := refresh;
      this.config := config;
      this.hash := hash;
      this.compare := compare;
      outbox := [];
    }

    function Tokens(userId: Id, now: int): (r: LoginResult) {
      LoginResult(access.GenerateToken(userId, now), refresh.GenerateToken(userId, now), "auth.login.success")
    }

    /** Read-only. NotFound when no user has the identifier as username or
        email; otherwise the outcome of the check chain on one matching
        user, and on success a token pair for that user. */
    method Login(identifier: string, password: string, now: int) returns (r: Result<LoginResult>)
      requires Valid()
      ensures r == Err(Failure(NotFound, "auth.login.userNotFound")) <==>
        !exists k :: k in store.users && Identifies(store.users[k], identifier)
      ensures r.Err? ==> r.failure.kind in {NotFound, Forbidden}
      ensures r.Err? && r.failure.kind == NotFound ==> r.failure.message == "auth.login.userNotFound"
      ensures r.Ok? || r.failure.kind == Forbidden ==>
        exists k :: k in store.users && Identifies(store.users[k], identifier) &&
          LoginChecks(store.users[k], password, compare) == (if r.Ok? then Pass else Fail(r.failure)) &&
          (r.Ok? ==> r.value == Tokens(k, now))
    {
      if !exists k :: k in store.users && Identifies(store.users[k], identifier) {
        return Err(Failure(NotFound, "auth.login.userNotFound"));
      }
      var k :| k in store.users && Identifies(store.users[k], identifier);
      var user := store.users[k];
      if Truthy(user.googleId) || !Truthy(user.password) {
        return Err(Failure(Forbidden, "auth.login.googleAuth"));
      }
      if !user.isVerified {
        return Err(Failure(Forbidden, "auth.login.emailNotVerified"));
      }
      if !compare(password, user.password.value) {
        return Err(Failure(Forbidden, "auth.login.invalidPassword"));
      }
      r := Ok(Tokens(user.id, now));
    }

    /** Both tokens are verified first (a failure is the library's error);
        tokens of different subjects are Unauthorized and blacklist nothing;
        otherwise each token goes to its own blacklist. The refresh
        blacklisting is not awaited: when its save fails (the jti is already
        stored, as on every logout after the first while the flagged row
        stays) the logout still answers success and the token table is
        unchanged. The failed save is then a promise rejection nothing
        handles; its effect on the process is not part of this model. */
    method Logout(accessToken: SignedJwt, refreshToken: SignedJwt, now: int) returns (r: Result<string>)
      requires Valid()
      modifies store
      ensures Valid()
      ensures r.Ok? <==>
        Verify(access.options, accessToken, now).Ok? && Verify(refresh.options, refreshToken, now).Ok? &&
        Decode(accessToken).sub == Decode(refreshToken).sub
      ensures Verify(access.options, accessToken, now).Err? ==>
        r.Err? && r.failure == Verify(access.options, accessToken, now).failure
      ensures Verify(access.options, accessToken, now).Ok? && Verify(refresh.options, refreshToken, now).Err? ==>
        r.Err? && r.failure == Verify(refresh.options, refreshToken, now).failure
      ensures (Verify(access.options, accessToken, now).Ok? && Verify(refresh.options, refreshToken, now).Ok? &&
               Decode(accessToken).sub != Decode(refreshToken).sub) ==>
        r == Err(Failure(Unauthorized, "auth.logout.invalidTokens"))
      ensures r.Err? ==> store.blacklist == old(store.blacklist) && store.tokens == old(store.tokens) && store.nextId == old(store.nextId)
      ensures r.Ok? ==> r.value == "auth.logout.success" && access.IsTokenBlacklisted(accessToken)
      ensures r.Ok? ==>
        var bid, tid := old(store.nextId), old(store.nextId) + 1;
        && bid !in old(store.blacklist)
        && store.blacklist == old(store.blacklist)[bid := BlacklistEntry(Decode(accessToken).jti, now)]
        && (old(store.ContentInUse(Decode(refreshToken).jti)) ==> store.tokens == old(store.tokens))
        && (old(!store.ContentInUse(Decode(refreshToken).jti)) ==>
              tid !in old(store.tokens) &&
              store.tokens == old(store.tokens)[tid := Token(Decode(refreshToken).jti, Some(Decode(refreshToken).exp * 1000), true, now)])
      ensures r.Ok? ==> (refresh.IsTokenBlacklisted(refreshToken) <==>
        old(!store.ContentInUse(Decode(refreshToken).jti) || refresh.IsTokenBlacklisted(refreshToken)))
      ensures r.Ok? && Decode(accessToken).jti != Decode(refreshToken).jti ==>
        Validate(store.tokens, store.users, Decode(accessToken)) == old(Validate(store.tokens, store.users, Decode(accessToken)))
      ensures store.users == old(store.users) && store.roles == old(store.roles) && store.pictures == old(store.pictures)
    {
      var accessPayload := Verify(access.options, accessToken, now);
      if accessPayload.Err? {
        return Err(accessPayload.failure);
      }
      var refreshPayload := Verify(refresh.options, refreshToken, now);
      if refreshPayload.Err? {
        return Err(refreshPayload.failure);
      }
      if accessPayload.value.sub != refreshPayload.value.sub {
        return Err(Failure(Unauthorized, "auth.logout.invalidTokens"));
      }
      ghost var tokensBefore := store.tokens;
      ghost var revokedBefore := refresh.IsTokenBlacklisted(refreshToken);
      ghost var inUseBefore := store.ContentInUse(Decode(refreshToken).jti);
      access.SetTokenBlacklist(accessToken, now);
      assert store.tokens == tokensBefore;
      assert refresh.IsTokenBlacklisted(refreshToken) == revokedBefore;
      assert store.ContentInUse(Decode(refreshToken).jti) == inUseBefore;
      var saved := refresh.SetTokenBlacklist(refreshToken, now);
      if Decode(accessToken).jti != Decode(refreshToken).jti {
        RevocationUnaffected(tokensBefore, store.tokens, Decode(accessToken).jti, Decode(refreshToken).jti);
      }
      r := Ok("auth.logout.success");
    }

    /** Read-only. The token is verified, then checked against the refresh
        blacklist (Unauthorized), then its subject must name an existing
        user (NotFound); a new pair is minted for that user. The presented
        refresh token is not revoked. */
    method RefreshTokens(refreshToken: SignedJwt, now: int) returns (r: Result<RefreshResult>)
      requires Valid()
      ensures Verify(refresh.options, refreshToken, now).Err? ==> r.Err? && r.failure == Verify(refresh.options, refreshToken, now).failure
      ensures r == Err(Failure(Unauthorized, "auth.refreshTokens.blacklisted")) <==>
        Verify(refresh.options, refreshToken, now).Ok? && refresh.IsTokenBlacklisted(refreshToken)
      ensures r == Err(Failure(NotFound, "auth.refreshTokens.userNotFound")) <==>
        Verify(refresh.options, refreshToken, now).Ok? && !refresh.IsTokenBlacklisted(refreshToken) &&
        !(ParseInt(Decode(refreshToken).sub).Some? && ParseInt(Decode(refreshToken).sub).value in store.users)
      ensures r.Ok? <==>
        Verify(refresh.options, refreshToken, now).Ok? && !refresh.IsTokenBlacklisted(refreshToken) &&
        ParseInt(Decode(refreshToken).sub).Some? && ParseInt(Decode(refreshToken).sub).value in store.users
      ensures r.Ok? ==>
        var id := ParseInt(Decode(refreshToken).sub).value;
        && id in store.users
        && r.value == RefreshResult(access.GenerateToken(id, now), refresh.GenerateToken(id, now), "auth.refreshTokens.success")
        && ParseInt(r.value.accessToken.payload.sub) == ParseInt(Decode(refreshToken).sub)
        && ParseInt(r.value.newRefreshToken.payload.sub) == ParseInt(Decode(refreshToken).sub)
    {
      var payload := Verify(refresh.options, refreshToken, now);
      if payload.Err? {
        return Err(payload.failure);
      }
      if refresh.IsTokenBlacklisted(refreshToken) {
        return Err(Failure(Unauthorized, "auth.refreshTokens.blacklisted"));
      }
      var id := ParseInt(payload.value.sub);
      if id.None? || id.value !in store.users {
        return Err(Failure(NotFound, "auth.refreshTokens.userNotFound"));
      }
      var user := store.users[id.value];
      r := Ok(RefreshResult(access.GenerateToken(user.id, now), refresh.GenerateToken(user.id, now), "auth.refreshTokens.success"));
    }

    /** An email already in use is a Conflict and a missing USER role a plain
        error, both with nothing saved. Otherwise exactly one unverified user
        with the USER role and the hashed password is added, linked to
        exactly one new token that expires after the verification window,
        and the verification mail is handed over. A token content already
        stored makes the cascaded insert fail and nothing is saved. */
    method Register(email: string, password: string, content: string, now: int) returns (r: Result<string>)
      requires Valid()
      modifies this, store
      ensures Valid()
      ensures r == Err(Failure(Conflict, "auth.register.emailInUse")) <==> old(store.EmailInUse(email))
      ensures r == Err(Failure(InternalError, "auth.register.userRoleNotFound")) <==>
        old(!store.EmailInUse(email) && !store.HasRole(USER))
      ensures r == Err(Failure(InternalError, "QueryFailedError")) <==>
        old(!store.EmailInUse(email) && store.HasRole(USER) && store.ContentInUse(content))
      ensures r.Ok? <==> old(!store.EmailInUse(email) && store.HasRole(USER) && !store.ContentInUse(content))
      ensures r.Err? ==> store.users == old(store.users) && store.tokens == old(store.tokens) && outbox == old(outbox)
      ensures r.Ok? ==>
        var tid, uid := old(store.nextId), old(store.nextId) + 1;
        && r.value == "auth.register.success"
        && tid !in old(store.tokens) && uid !in old(store.users)
        && store.tokens == old(store.tokens)[tid := Token(content, Some(now + config.emailVerificationExpiration), false, now)]
        && (exists role :: role in old(store.roles).Values && role.name == USER &&
             store.users == old(store.users)[uid := User(uid, None, None, None, email, Some(hash(password)), None, false, [role], Some(tid), None, None, now)])
        && outbox == old(outbox) + [VerificationMail(email, content)]
      ensures store.roles == old(store.roles) && store.blacklist == old(store.blacklist) && store.pictures == old(store.pictures)
    {
      if store.EmailInUse(email) {
        return Err(Failure(Conflict, "auth.register.emailInUse"));
      }
      if !store.HasRole(USER) {
        return Err(Failure(InternalError, "auth.register.userRoleNotFound"));
      }
      var rk :| rk in store.roles && store.roles[rk].name == USER;
      var userRole := store.roles[rk];
      var hashedPassword := hash(password);
      var expirationDate := now + config.emailVerificationExpiration;
      if store.ContentInUse(content) {
        return Err(Failure(InternalError, "QueryFailedError"));
      }
      var tid := store.AddToken(Token(content, Some(expirationDate), false, now));
      var uid := store.nextId;
      var user := User(uid, None, None, None, email, Some(hashedPassword), None, false, [userRole], Some(tid), None, None, now);
      store.AddUser(user);
      assert userRole in old(store.roles).Values && store.users == old(store.users)[uid := user];
      outbox := outbox + [VerificationMail(email, content)];
      r := Ok("auth.register.success");
    }

    /** Unknown token, token without expiry, or no user linked to it:
        NotFound. An expired token removes the linked user and is
        Unauthorized; the token row stays, since removal is taken not to
        cascade. Otherwise the user becomes verified and the token is
        removed, so the same content is unknown afterwards. */
    method VerifyEmail(content: string, now: int) returns (r: Result<string>)
      requires Valid()
      modifies store
      ensures Valid()
      ensures r == Err(Failure(NotFound, "auth.verifyEmail.invalidToken")) <==>
        old(!store.ContentInUse(content) || store.tokens[store.TokenWithContent(content)].expirationDate.None? ||
            !store.HasUserLinkedByEmailToken(store.TokenWithContent(content)))
      ensures r == Err(Failure(Unauthorized, "auth.verifyEmail.expiredToken")) <==>
        old(store.ContentInUse(content) && store.tokens[store.TokenWithContent(content)].expirationDate.Some? &&
            store.HasUserLinkedByEmailToken(store.TokenWithContent(content)) &&
            store.tokens[store.TokenWithContent(content)].expirationDate.value < now)
      ensures r.Ok? <==>
        old(store.ContentInUse(content) && store.tokens[store.TokenWithContent(content)].expirationDate.Some? &&
            store.HasUserLinkedByEmailToken(store.TokenWithContent(content)) &&
            now <= store.tokens[store.TokenWithContent(content)].expirationDate.value)
      ensures r.Err? && r.failure.kind == NotFound ==> store.users == old(store.users) && store.tokens == old(store.tokens)
      ensures r == Err(Failure(Unauthorized, "auth.verifyEmail.expiredToken")) ==>
        var tk := old(store.TokenWithContent(content));
        && old(store.tokens[tk].expirationDate.value) < now
        && store.tokens == old(store.tokens)
        && exists uk :: uk in old(store.users) && old(store.users[uk].emailVerificationToken) == Some(tk) &&
             store.users == old(store.users) - {uk}
      ensures r.Ok? ==>
        var tk := old(store.TokenWithContent(content));
        && r.value == "auth.verifyEmail.success"
        && now <= old(store.tokens[tk].expirationDate.value)
        && store.tokens == old(store.tokens) - {tk}
        && !store.ContentInUse(content)
        && exists uk :: uk in old(store.users) && old(store.users[uk].emailVerificationToken) == Some(tk) &&
             store.users == old(store.users)[uk := old(store.users[uk]).(isVerified := true)]
      ensures r.Err? ==> r.failure.kind in {NotFound, Unauthorized}
      ensures store.roles == old(store.roles) && store.blacklist == old(store.blacklist) && store.pictures == old(store.pictures)
      ensures store.nextId == old(store.nextId)
    {
      if !store.ContentInUse(content) {
        return Err(Failure(NotFound, "auth.verifyEmail.invalidToken"));
      }
      var tk :| tk in store.tokens && store.tokens[tk].content == content;
      var token := store.tokens[tk];
      if token.expirationDate.None? {
        return Err(Failure(NotFound, "auth.verifyEmail.invalidToken"));
      }
      if !exists uk :: uk in store.users && store.users[uk].emailVerificationToken == Some(tk) {
        return Err(Failure(NotFound, "auth.verifyEmail.invalidToken"));
      }
      var uk :| uk in store.users && store.users[uk].emailVerificationToken == Some(tk);
      var user := store.users[uk];
      if token.expirationDate.value < now {
        store.RemoveUser(uk);
        return Err(Failure(Unauthorized, "auth.verifyEmail.expiredToken"));
      }
      user := user.(isVerified := true);
      store.RemoveToken(tk);
      store.PutUser(user);
      r := Ok("auth.verifyEmail.success");
    }

    /** Checks in order: no user with the email (NotFound), unverified,
        Google account, reset already pending (each Forbidden). Otherwise
        one new token expiring after the reset window is linked to the user
        and the reset mail is handed over, so a second request before the
        token is consumed or swept is Forbidden. A token content already
        stored makes the cascaded insert fail and nothing is saved. */
    method ForgotPassword(email: string, content: string, now: int) returns (r: Result<string>)
      requires Valid()
      modifies this, store
      ensures Valid()
      ensures r == Err(Failure(NotFound, "auth.forgotPassword.userNotFound")) <==> old(!store.EmailInUse(email))
      ensures r == Err(Failure(Forbidden, "auth.forgotPassword.emailNotVerified")) <==>
        old(store.EmailInUse(email) && !store.users[store.UserWithEmail(email)].isVerified)
      ensures r == Err(Failure(Forbidden, "auth.forgotPassword.googleAuth")) <==>
        old(store.EmailInUse(email) && store.users[store.UserWithEmail(email)].isVerified &&
            Truthy(store.users[store.UserWithEmail(email)].googleId))
      ensures r == Err(Failure(Forbidden, "auth.forgotPassword.pendingRequest")) <==>
        old(store.EmailInUse(email) && store.users[store.UserWithEmail(email)].isVerified &&
            !Truthy(store.users[store.UserWithEmail(email)].googleId) &&
            store.Linked(store.users[store.UserWithEmail(email)].resetPasswordToken))
      ensures r == Err(Failure(InternalError, "QueryFailedError")) <==>
        old(store.EmailInUse(email) && store.users[store.UserWithEmail(email)].isVerified &&
            !Truthy(store.users[store.UserWithEmail(email)].googleId) &&
            !store.Linked(store.users[store.UserWithEmail(email)].resetPasswordToken) && store.ContentInUse(content))
      ensures r.Ok? <==>
        old(store.EmailInUse(email) && store.users[store.UserWithEmail(email)].isVerified &&
            !Truthy(store.users[store.UserWithEmail(email)].googleId) &&
            !store.Linked(store.users[store.UserWithEmail(email)].resetPasswordToken) && !store.ContentInUse(content))
      ensures r.Err? ==> store.users == old(store.users) && store.tokens == old(store.tokens) && outbox == old(outbox)
      ensures r.Ok? ==>
        var uk, tid := old(store.UserWithEmail(email)), old(store.nextId);
        && r.value == "auth.forgotPassword.success"
        && tid !in old(store.tokens)
        && store.tokens == old(store.tokens)[tid := Token(content, Some(now + config.resetPasswordExpiration), false, now)]
        && store.users == old(store.users)[uk := old(store.users[uk]).(resetPasswordToken := Some(tid))]
        && store.Linked(store.users[uk].resetPasswordToken)
        && outbox == old(outbox) + [ResetPasswordMail(email, content)]
      ensures store.roles == old(store.roles) && store.blacklist == old(store.blacklist) && store.pictures == old(store.pictures)
    {
      if !store.EmailInUse(email) {
        return Err(Failure(NotFound, "auth.forgotPassword.userNotFound"));
      }
      var uk :| uk in store.users && store.users[uk].email == email;
      assert uk == store.UserWithEmail(email);
      var user := store.users[uk];
      if !user.isVerified {
        return Err(Failure(Forbidden, "auth.forgotPassword.emailNotVerified"));
      }
      if Truthy(user.googleId) {
        return Err(Failure(Forbidden, "auth.forgotPassword.googleAuth"));
      }
      if store.Linked(user.resetPasswordToken) {
        return Err(Failure(Forbidden, "auth.forgotPassword.pendingRequest"));
      }
      if store.ContentInUse(content) {
        return Err(Failure(InternalError, "QueryFailedError"));
      }
      var tid := store.AddToken(Token(content, Some(now + config.resetPasswordExpiration), false, now));
      user := user.(resetPasswordToken := Some(tid));
      store.PutUser(user);
      outbox := outbox + [ResetPasswordMail(email, content)];
      r := Ok("auth.forgotPassword.success");
    }

    /** Unknown token or token without expiry, then no user linked to it:
        NotFound. An expired token clears the user's reset link, is removed
        and is Unauthorized, the password untouched. Otherwise the password
        becomes the hash of the new one and the token is removed. Either
        way past the lookups the token is gone. */
    method ResetPassword(content: string, newPassword: string, now: int) returns (r: Result<string>)
      requires Valid()
      modifies store
      ensures Valid()
      ensures r == Err(Failure(NotFound, "auth.resetPassword.invalidToken")) <==>
        old(!store.ContentInUse(content) || store.tokens[store.TokenWithContent(content)].expirationDate.None?)
      ensures r == Err(Failure(NotFound, "auth.resetPassword.noRequestFound")) <==>
        old(store.ContentInUse(content) && store.tokens[store.TokenWithContent(content)].expirationDate.Some? &&
            !store.HasUserLinkedByResetToken(store.TokenWithContent(content)))
      ensures r == Err(Failure(Unauthorized, "auth.resetPassword.expiredToken")) <==>
        old(store.ContentInUse(content) && store.tokens[store.TokenWithContent(content)].expirationDate.Some? &&
            store.HasUserLinkedByResetToken(store.TokenWithContent(content)) &&
            store.tokens[store.TokenWithContent(content)].expirationDate.value < now)
      ensures r.Ok? <==>
        old(store.ContentInUse(content) && store.tokens[store.TokenWithContent(content)].expirationDate.Some? &&
            store.HasUserLinkedByResetToken(store.TokenWithContent(content)) &&
            now <= store.tokens[store.TokenWithContent(content)].expirationDate.value)
      ensures r.Err? && r.failure.kind == NotFound ==> store.users == old(store.users) && store.tokens == old(store.tokens)
      ensures r.Ok? || r == Err(Failure(Unauthorized, "auth.resetPassword.expiredToken")) ==>
        var tk := old(store.TokenWithContent(content));
        && store.tokens == old(store.tokens) - {tk}
        && !store.ContentInUse(content)
        && (r.Ok? <==> now <= old(store.tokens[tk].expirationDate.value))
        && exists uk :: uk in old(store.users) && old(store.users[uk].resetPasswordToken) == Some(tk) &&
             store.users == old(store.users)[uk := if r.Ok? then old(store.users[uk]).(password := Some(hash(newPassword)))
                                                   else old(store.users[uk]).(resetPasswordToken := None)]
      ensures r.Err? ==> r.failure.kind in {NotFound, Unauthorized}
      ensures store.roles == old(store.roles) && store.blacklist == old(store.blacklist) && store.pictures == old(store.pictures)
      ensures store.nextId == old(store.nextId)
    {
      if !store.ContentInUse(content) {
        return Err(Failure(NotFound, "auth.resetPassword.invalidToken"));
      }
      var tk :| tk in store.tokens && store.tokens[tk].content == content;
      var token := store.tokens[tk];
      if token.expirationDate.None? {
        return Err(Failure(NotFound, "auth.resetPassword.invalidToken"));
      }
      if !exists uk :: uk in store.users && store.users[uk].resetPasswordToken == Some(tk) {
        return Err(Failure(NotFound, "auth.resetPassword.noRequestFound"));
      }
      var uk :| uk in store.users && store.users[uk].resetPasswordToken == Some(tk);
      var user := store.users[uk];
      if token.expirationDate.value < now {
        user := user.(resetPasswordToken := None);
        store.PutUser(user);
        store.RemoveToken(tk);
        return Err(Failure(Unauthorized, "auth.resetPassword.expiredToken"));
      }
      user := user.(password := Some(hash(newPassword)));
      store.RemoveToken(tk);
      store.PutUser(user);
      r := Ok("auth.resetPassword.success");
    }

    /** Unauthorized for a user without a Google id; otherwise a token pair
        for the user and the configured redirect. Nothing is read or
        written in the store. */
    function GoogleLogin(user: User, now: int): (r: Result<GoogleLoginResult>)
      ensures r.Err? <==> !Truthy(user.googleId)
      ensures r.Err? ==> r.failure == Failure(Unauthorized, "auth.googleLogin.notGoogleAuth")
      ensures r.Ok? ==>
        && ParseInt(r.value.accessToken.payload.sub) == Some(user.id)
        && ParseInt(r.value.refreshToken.payload.sub) == Some(user.id)
        && r.value.redirectUrl == config.googleRedirectUrl
    {
      if !Truthy(user.googleId) then Err(Failure(Unauthorized, "auth.googleLogin.notGoogleAuth"))
      else Ok(GoogleLoginResult(access.GenerateToken(user.id, now), refresh.GenerateToken(user.id, now),
                                config.googleRedirectUrl, "auth.googleLogin.success"))
    }
  }

  /** Adding a row whose content is another jti leaves the revocation test
      of a jti unchanged. */
  lemma RevocationUnaffected(before: map<Id, Token>, after: map<Id, Token>, jti: string, other: string)
    requires jti != other
    requires forall k :: k in after && k !in before ==> after[k].content == other
    requires forall k :: k in before ==> k in after && after[k] == before[k]
    ensures RevokedInTokenTable(after, jti) == RevokedInTokenTable(before, jti)
  {
    if RevokedInTokenTable(after, jti) {
      var k :| k in after && after[k].content == jti && after[k].isBlacklisted;
      assert k in before;
    }
  }
}
