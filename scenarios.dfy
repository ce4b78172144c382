/** Sequences of calls whose combined effect the services promise: a
    verification or reset token is consumed by its first successful use, a
    pending reset request blocks the next one, and role seeding a second
    time saves nothing. */
module Scenarios {
  import opened Outcomes
  import opened Roles
  import opened CredentialStore
  import opened Auth
  import SharedTasks

  /** A verification token works once: the same content is unknown to a
      second call, at any later time. */
  method VerifyEmailTwice(auth: AuthService, content: string, now: int, later: int)
    returns (first: Result<string>, second: Result<string>)
    requires auth.Valid()
    modifies auth.store
    ensures auth.Valid()
    ensures first.Ok? ==> second == Err(Failure(NotFound, "auth.verifyEmail.invalidToken"))
  {
    first := auth.VerifyEmail(content, now);
    second := auth.VerifyEmail(content, later);
  }

  /** After a successful request the user has a pending reset, so a second
      request for the same email is refused whatever its token content. */
  method ForgotPasswordTwice(auth: AuthService, email: string, content: string, content': string, now: int, later: int)
    returns (first: Result<string>, second: Result<string>)
    requires auth.Valid()
    modifies auth, auth.store
    ensures auth.Valid()
    ensures first.Ok? ==> second == Err(Failure(Forbidden, "auth.forgotPassword.pendingRequest"))
  {
    first := auth.ForgotPassword(email, content, now);
    if first.Ok? {
      var uk :| uk in auth.store.users && auth.store.users[uk].email == email &&
                auth.store.Linked(auth.store.users[uk].resetPasswordToken) &&
                auth.store.users[uk].isVerified && !Truthy(auth.store.users[uk].googleId);
      auth.store.UserWithEmailIs(email, uk);
    }
    second := auth.ForgotPassword(email, content', later);
  }

  /** A reset token works once: after a successful reset the same content
      is unknown. */
  method ResetPasswordTwice(auth: AuthService, content: string, password: string, password': string, now: int, later: int)
    returns (first: Result<string>, second: Result<string>)
    requires auth.Valid()
    modifies auth.store
    ensures auth.Valid()
    ensures first.Ok? ==> second == Err(Failure(NotFound, "auth.resetPassword.invalidToken"))
  {
    first := auth.ResetPassword(content, password, now);
    second := auth.ResetPassword(content, password', later);
  }

  /** Seeding roles twice: the second run finds every enum role and leaves
      the role table as the first run left it. */
  method CreateRolesTwice(tasks: SharedTasks.TasksService)
    requires tasks.store.Valid()
    modifies tasks.store
    ensures tasks.store.Valid()
    ensures Elements(AllRoles) <= tasks.store.RoleNames()
  {
    tasks.CreateRoles();
    ghost var seeded := tasks.store.roles;
    tasks.CreateRoles();
    assert tasks.store.roles == seeded;
  }

  /** Every refresh token the module signs carries the module's one jti, so
      one successful logout (with that jti not stored before) makes the
      refresh of any other user's token, signed at any time, Unauthorized. */
  method LogoutBlocksEveryRefresh(auth: AuthService, accessToken: Jwt.SignedJwt, refreshToken: Jwt.SignedJwt,
                                  other: Id, now: int, issued: int, later: int)
    returns (out: Result<string>, refreshed: Result<RefreshResult>)
    requires auth.Valid()
    requires Jwt.Decode(refreshToken).jti == auth.refresh.options.jwtid
    modifies auth.store
    ensures auth.Valid()
    ensures out.Ok? && old(!auth.store.ContentInUse(auth.refresh.options.jwtid)) &&
            Jwt.Verify(auth.refresh.options, auth.refresh.GenerateToken(other, issued), later).Ok? ==>
      refreshed == Err(Failure(Unauthorized, "auth.refreshTokens.blacklisted"))
  {
    out := auth.Logout(accessToken, refreshToken, now);
    refreshed := auth.RefreshTokens(auth.refresh.GenerateToken(other, issued), later);
  }
}
