# Account and session lifecycle of a NestJS authentication backend, in Dafny

This project models the core of a NestJS user-account service:
- registration with email verification, credential login and Google sign-in;
- access and refresh tokens, their two revocation stores, and the per-request check;
- password reset;
- the role gate;
- the scheduled sweepers;
- the user-profile operations;
- the start-up check of the configured length limits.

Each operation of the services is modelled with its checks in the source's order. The model keeps the same error kinds and i18n message keys, and the same rows created, changed or removed. The contracts are proved over all inputs.

Modules, one per file:

- `Outcomes` (outcomes.dfy): `Option`, the error kinds (NotFound, Forbidden, Unauthorized, Conflict, BadRequest, InternalError), `Result` and `Outcome`. A failure carries its kind and its i18n key, so the order of the checks can be observed.
- `CredentialStore` (store.dfy): the persistent store, a class `Store` with one map per table (users, tokens, blacklist, roles, pictures), keyed by generated ids, plus the id counter.
  - `Valid()` holds the table invariants:
    - the unique columns: token content, user email, username, googleId, role name;
    - every key and foreign-key link is below the counter.
  - Small methods perform the single-row inserts, updates and deletes the services issue.
  - A relation whose row is gone reads as null.
- `Decimal` (decimal.dfy): `userId.toString()` and `parseInt(sub, 10)`, with their round trip.
- `Jwt` (jwt.dfy): symbolic signed tokens (`sub`, `iat`, `exp`, `jti`, as in sections 4.1.2, 4.1.6, 4.1.4 and 4.1.7 of RFC 7519), and the two services:
  - `JwtAccessService` writes revocations to the blacklist table;
  - `JwtRefreshService` writes them to the token table, flagged `isBlacklisted`.
- `JwtStrategy` (jwt_strategy.dfy): the per-request principal lookup.
- `Roles` (roles.dfy): `matchRoles` and `RolesGuard.canActivate`.
- `Auth` (auth.dfy): `AuthService`.
- `SharedTasks` and `Tasks` (tasks.dfy): the two `TasksService` classes.
- `Users` (users.dfy): `UsersService`.
- `Google` (google.dfy): `GoogleStrategy`.
- `DisplayName` (display_name.dfy): `parseDisplayName`.
- `Limits` (limits.dfy): the limits validation chain.
- `Scenarios` (scenarios.dfy): sequences of calls whose combined effect the services promise.

Inputs the model takes as parameters:
- time is an integer `now` in milliseconds;
- the random token contents are parameters;
- bcrypt's `hash` and `compare` are function-valued constants of `AuthService`;
- the `!isNaN(Number(s))` test of `findOne` is a function-valued constant of `UsersService`;
- cloud uploads are parameters;
- blob deletions and outgoing mails are recorded in logs (`deletedBlobs`, `outbox`).

Where the code departs from what such a service usually does, the model follows the code:
- **One jti per module, not per signing call.** The jwtid is drawn once when each JWT module is configured (src/modules/shared/jwt-access/jwt-access.module.ts:17), so every token a module signs carries the same jti (`Jwt.SharedJti`). One logout therefore blocks the refresh of every refresh token (`Scenarios.LogoutBlocksEveryRefresh`).
- **A failed signature or expiry check is not Unauthorized.** The verification error is not an HTTP exception and is not caught, so it is modelled as InternalError carrying the library's error name.
- **An expired email-verification token removes only the user.** The code removes the user and never the token. The token row stays because of the insert-only cascade taken under "## Left out" (Foreign keys), not because the code says so.
- **An expired reset token also clears the user's reset link** before the token is removed.
- **The access blacklist does not stop the access token.** Logout writes the access token's jti to the blacklist table, which the per-request check never reads. The access token keeps authenticating after logout whenever the two modules' jtis differ (`Auth.AuthService.Logout`).
- **`refreshTokens` does not revoke the refresh token it was given.** A refresh token can be refreshed again until logout.
- **An update with non-empty values never saves.** The fields are copied onto the user before the no-changes test runs, so the test compares the user with itself. Any update whose values are non-empty, as the update DTO demands, ends in BadRequest `users.update.noChanges` (src/modules/users/users.service.ts:99-110, `Users.CopiedAlwaysUnchanged`).

## Model

| member | source | states |
|---|---|---|
| Limits.CheckLimits | src/config/limits.config.ts:13-33 | The first failing test of the else-if chain is reported, each test exactly when the earlier ones pass; otherwise the parsed record is exported unchanged |
| Limits.AcceptedIffConsistent | src/config/limits.config.ts:13-22 | A record is accepted exactly when every min is at most its max, 12 lies in the username range and the file size is at least 1 |
| Limits.DefaultsAccepted | src/config/limits.config.ts:3-10 | The defaults are 3..36, 6..36, 3..50 and 4, and they pass the check |
| DisplayName.ParseDisplayName | src/utils/parse-display-name.ts:5-15 | Shorter than the minimum gives null; longer than the maximum gives the slice to the maximum; otherwise the name is unchanged |
| DisplayName.ParsedIsBoundedPrefix | src/utils/parse-display-name.ts:5-15 | With min <= max, the result is null exactly when the name is too short; a kept name is a prefix of the input with its length within the bounds |
| DisplayName.ParseIdempotent | src/utils/parse-display-name.ts:8-14 | Normalising a normalised name returns it unchanged |
| Roles.MatchRoles | src/utils/match-roles.ts:4-8 | An absent or empty requirement is true; otherwise true exactly when some required role is the name of one of the user's roles |
| Roles.MatchIsIntersection | src/utils/match-roles.ts:6-7 | For a non-empty requirement, the answer is whether the required set and the user's role-name set intersect |
| Roles.MatchOrderIndependent | src/utils/match-roles.ts:6-7 | The answer does not depend on the order (or repetition) of either list |
| Roles.MatchMonotone | src/utils/match-roles.ts:7 | More user roles, or more accepted roles on a non-empty requirement, never turn an allow into a deny |
| Roles.NoRolesOnlyUnrestricted | src/utils/match-roles.ts:5-7 | A user without roles passes exactly the unrestricted operations |
| Roles.CanActivate | src/guards/roles.guard.ts:14-27 | Allows exactly when the roles match; never answers false, it fails Forbidden with the translated message naming the roles joined by ", ", or 'Forbidden' without a translation context |
| Roles.UnrestrictedIgnoresUser | src/guards/roles.guard.ts:14-15 | An operation without roles, or with an empty list, is allowed whatever roles the user holds |
| Roles.AdminExamples | src/guards/roles.guard.ts:14-27 | USER alone is refused an ADMIN operation; USER with ADMIN is allowed |
| Decimal.NatToString | src/modules/shared/jwt-access/jwt-access.service.ts:17-18 | The subject written for a user id is a non-empty string of decimal digits |
| Decimal.ParseInt | src/strategies/jwt.strategy.ts:36 | NaN exactly when the string does not start with a digit; otherwise a non-negative value |
| Decimal.ValueOfNatToString | src/modules/shared/jwt-access/jwt-access.service.ts:17-18 | The digits written for n have the value n |
| Decimal.LeadingDigitsOfDigits | src/strategies/jwt.strategy.ts:36 | On a string of digits, parsing reads the whole string |
| Decimal.ParseIntRoundTrip | src/strategies/jwt.strategy.ts:36 | The subject written for user n parses back to n |
| Jwt.Sign | src/modules/shared/jwt-access/jwt-access.service.ts:17-18 | A signed token carries the subject, the module's jti and secret, and expires the configured lifetime after it was issued |
| Jwt.Verify | src/modules/shared/jwt-access/jwt-access.service.ts:21-23 | Succeeds exactly for the module's secret before the expiry second, returning the claims; failures are plain errors, not HTTP errors |
| Jwt.GeneratedTokenVerifies | src/modules/shared/jwt-access/jwt-access.service.ts:17-23 | A freshly signed token with a positive lifetime verifies when signed, and its subject reads back as the user id |
| Jwt.SharedJti | src/modules/shared/jwt-access/jwt-access.module.ts:17 | Every token a module signs has the same jti, whatever the subject and time |
| Jwt.UserToken | src/modules/shared/jwt-refresh/jwt-refresh.service.ts:17-19 | The token both services sign for a user: its subject parses back to the user id, it carries the module's jti and secret, and it verifies when signed with a positive lifetime |
| Jwt.JwtAccessService.GenerateToken | src/modules/shared/jwt-access/jwt-access.service.ts:17-19 | The access token's subject parses to the user id and its jti is the module's |
| Jwt.JwtAccessService.SetTokenBlacklist | src/modules/shared/jwt-access/jwt-access.service.ts:29-39 | Appends exactly one blacklist row holding the decoded jti, with nothing else changed and duplicates allowed; afterwards `IsTokenBlacklisted` holds for every token with that jti and for every token it held for before |
| Jwt.JwtRefreshService.GenerateToken | src/modules/shared/jwt-refresh/jwt-refresh.service.ts:17-19 | The refresh token's subject parses to the user id and its jti is the module's |
| Jwt.JwtRefreshService.SetTokenBlacklist | src/modules/shared/jwt-refresh/jwt-refresh.service.ts:29-39 | Saves one flagged token row with content jti and expiry exp*1000, after which `IsTokenBlacklisted` holds; when the jti is already a stored content the save fails and nothing changes |
| JwtStrategy.Validate | src/strategies/jwt.strategy.ts:32-39 | No principal when the jti is flagged in the token table; otherwise the user whose id is parseInt(sub), or none; the blacklist table is not an input |
| JwtStrategy.ValidateAcceptsIssuedToken | src/strategies/jwt.strategy.ts:32-39 | A token signed for an existing user authenticates that user unless its jti is flagged in the token table |
| Auth.LoginChecks | src/modules/auth/auth.service.ts:45-57 | Google account or no password, then unverified, then password mismatch, each Forbidden, and passing exactly when none applies |
| Auth.GoogleAccountsCannotUsePasswords | src/modules/auth/auth.service.ts:45-47 | A user with a Google id never passes the password login |
| Auth.AuthService.Login | src/modules/auth/auth.service.ts:38-64 | Read-only; NotFound, with the message auth.login.userNotFound, exactly when no user has the identifier as username or email; otherwise the check chain's verdict on a matching user, and on success the token pair for that user |
| Auth.AuthService.Logout | src/modules/auth/auth.service.ts:66-79 | Verification errors propagate in order; different subjects are Unauthorized with nothing written; on success the blacklist gains exactly one new row (the access jti, now) and the token table gains exactly one flagged row for the refresh jti, none when its content was already stored; per-request authentication of the access token is unchanged when the jtis differ |
| Auth.AuthService.RefreshTokens | src/modules/auth/auth.service.ts:81-99 | Read-only; verification error, then blacklisted refresh token (Unauthorized), then unknown subject (NotFound); succeeds exactly when none applies and mints a new pair for that user |
| Auth.AuthService.Register | src/modules/auth/auth.service.ts:101-126 | Email in use is a Conflict and a missing USER role an error, both with nothing saved; succeeds exactly when neither applies and the token content is free; success adds exactly one unverified user with [USER] and the hashed password, linked to exactly one new token expiring at now plus the window, and hands over the mail |
| Auth.AuthService.VerifyEmail | src/modules/auth/auth.service.ts:128-156 | NotFound exactly for an unknown token, one without expiry, or one with no linked user; Unauthorized (expired) exactly when the linked token's expiry is before now, removing the linked user; succeeds exactly otherwise, verifying that user and removing the token, so its content is unknown afterwards |
| Auth.AuthService.ForgotPassword | src/modules/auth/auth.service.ts:158-188 | NotFound, then unverified, Google account, pending reset (each Forbidden), each exactly under its condition; succeeds exactly when none applies and the content is free, linking one new token expiring at now plus the window and handing over the mail |
| Auth.AuthService.ResetPassword | src/modules/auth/auth.service.ts:190-223 | Unknown token then no linked user are NotFound with nothing changed; Unauthorized (expired) exactly when the linked token's expiry is before now, and success exactly when it is not; past the NotFound checks the token is removed, and the user either gets the hash of the new password (in time) or loses the reset link (expired) |
| Auth.AuthService.GoogleLogin | src/modules/auth/auth.service.ts:225-235 | Unauthorized exactly for a user without a Google id; otherwise a token pair for that user and the configured redirect |
| Auth.RevocationUnaffected | src/strategies/jwt.strategy.ts:33-34 | Adding token rows with another content does not change whether a jti is flagged in the token table |
| SharedTasks.MissingRoles | src/modules/shared/tasks/tasks.service.ts:33-36 | Exactly the enum names not already present; no repetition when the enum lists each name once; never longer than the enum |
| SharedTasks.NothingMissingOnceSeeded | src/modules/shared/tasks/tasks.service.ts:36-43 | Once every enum role exists nothing is missing |
| SharedTasks.NewRoleRows | src/modules/shared/tasks/tasks.service.ts:39-40 | One new row per name under fresh ids: old rows kept, names still unique, the names added exactly |
| SharedTasks.TasksService.CreateRoles | src/modules/shared/tasks/tasks.service.ts:31-48 | Afterwards every enum role exists, existing roles are untouched, exactly one row per missing name is added, and nothing is saved when none is missing |
| SharedTasks.TasksService.SaveRoles | src/modules/shared/tasks/tasks.service.ts:39-40 | Saving the new role rows adds exactly their names and keeps the old rows |
| SharedTasks.TasksService.ClearExpiredTokensTask | src/modules/shared/tasks/tasks.service.ts:50-62 | Deletes exactly the token rows, flagged or not, whose expiry lies strictly before now; the rest are unchanged |
| SharedTasks.TasksService.ClearUserWithoutVerificationTask | src/modules/shared/tasks/tasks.service.ts:64-76 | Deletes exactly the unverified users created before now minus the verification window; verified users stay |
| Tasks.ResetCleared | src/modules/tasks/tasks.service.ts:54-57 | Both reset fields become null and no other field changes |
| Tasks.TasksService.ClearTokenBlacklistTask | src/modules/tasks/tasks.service.ts:20-32 | Deletes exactly the blacklist rows created more than eight days before now |
| Tasks.TasksService.ClearUserWithoutVerificationTask | src/modules/tasks/tasks.service.ts:34-46 | Deletes exactly the unverified users created more than a day before now; verified users stay |
| Tasks.TasksService.RemoveResetPasswordTask | src/modules/tasks/tasks.service.ts:48-63 | Nulls both reset fields on exactly the users whose reset expiry is set and lies more than an hour before now; no user is deleted and nothing else changes |
| Users.FindAll | src/modules/users/users.service.ts:25-40 | Echoes page and limit, counts every row, and returns the at most `limit` rows starting at (page - 1) * limit, which is non-negative |
| Users.EachRowOnExactlyOnePage | src/modules/users/users.service.ts:28-37 | Row i lies in the window of exactly one page, i / limit + 1, at position i % limit |
| Users.CopiedAlwaysUnchanged | src/modules/users/users.service.ts:99-111 | With non-empty values the no-changes test runs on the copied user and always holds, so such an update never saves |
| SharedTasks.MissingRolesKeepsOrder | src/modules/shared/tasks/tasks.service.ts:33-36 | The missing names keep the enum order: those of a concatenation are those of its first part followed by those of the second |
| Users.EmptyUsernameLetsDisplayNameThrough | src/modules/users/users.service.ts:99-111 | For any user and any non-empty display name different from the user's, an empty username beside it defeats the no-changes test, and the copy takes the display name and keeps everything else, the username included |
| Users.UsersService.WhereSelects | src/modules/users/users.service.ts:43-44 | A number matches the user with that id; a numeric text matches the user whose id parseInt reads from it; any other text matches the user with that username |
| Users.UsersService.NumberAndNumericTextAgree | src/modules/users/users.service.ts:43-44 | A number and a numeric text that parseInt reads as that number select the same user |
| Users.UsersService.OneMatch | src/modules/users/users.service.ts:44-47 | At most one user matches the where-clause |
| Users.UsersService.FindOne | src/modules/users/users.service.ts:42-54 | Read-only; NotFound exactly when no user matches, otherwise the one matching user |
| Users.UsersService.DeletePictureIfExists | src/modules/users/users.service.ts:118-123 | With a public id, the blob is deleted and a stored row removed; otherwise nothing happens |
| Users.UsersService.Delete | src/modules/users/users.service.ts:56-63 | NotFound with nothing changed; otherwise the picture's blob and row are deleted only when it has a public id, and the user row is removed |
| Users.UsersService.UpdatePicture | src/modules/users/users.service.ts:65-75 | The blob deleted is the new upload's; the new row is saved and linked; the old row and blob stay |
| Users.UsersService.DeletePicture | src/modules/users/users.service.ts:77-89 | NotFound for an unknown user or one without a picture, and success exactly otherwise; on success nothing in the store changes and only the returned user shows no picture |
| Users.UsersService.Update | src/modules/users/users.service.ts:91-116 | NotFound, no keys (BadRequest), taken new username (Conflict), no changes after the copy (BadRequest), each exactly under its condition and without saving; succeeds exactly when none applies, saving the copied user |
| Google.GoogleStrategy.GenerateDisplayName | src/strategies/google.strategy.ts:71-83 | Too short gives null, too long the first max characters, otherwise unchanged |
| Google.GoogleStrategy.Validate | src/strategies/google.strategy.ts:38-69 | No email is BadRequest; a known Google id returns its user with no write; an empty photo list, an email in use (Conflict), a missing USER role, each with nothing saved; succeeds exactly when none of the failures applies; a new user is verified, with [USER], the profile's Google id and first email, and its first photo as picture |
| Scenarios.VerifyEmailTwice | src/modules/auth/auth.service.ts:128-156 | After a successful verification the same token content is NotFound |
| Scenarios.ForgotPasswordTwice | src/modules/auth/auth.service.ts:158-188 | After a successful reset request a second request for the same email is Forbidden (pending request) |
| Scenarios.ResetPasswordTwice | src/modules/auth/auth.service.ts:190-223 | After a successful reset the same token content is NotFound |
| Scenarios.CreateRolesTwice | src/modules/shared/tasks/tasks.service.ts:31-48 | After seeding every enum role exists, and a second seeding leaves the role table as it was |
| Scenarios.LogoutBlocksEveryRefresh | src/modules/auth/auth.service.ts:66-99 | After one logout the refresh of any other user's token from the same module is Unauthorized (blacklisted) |

## Left out

- Cryptography:
  - bcrypt is a pair of uninterpreted functions;
  - `randomBytes` contents are parameters, with no claim about their uniqueness beyond what the store's unique column enforces;
  - JWT signatures are symbolic (a token carries its secret), and nothing is claimed about their strength.
- I/O and foreign services are not modelled beyond their effect on the logs:
  - mail delivery is an append to `outbox`;
  - cloud storage is an upload given as a parameter plus an append to `deletedBlobs`, neither failing;
  - i18n lookup is the message key itself (the guard's translator is a parameter);
  - logging is not modelled.
- Error catching in the tasks: each task catches its own failure and reports nothing. In the model no task fails, because every row operation the tasks issue succeeds.
- Un-awaited calls are treated as completed in program order. These are:
  - the two blacklist writes in logout (src/modules/auth/auth.service.ts:74-75);
  - the token removal of an expired reset (line 211);
  - the two mail sends (lines 122 and 184).
- The HTTP answer of logout is success even when the refresh blacklisting fails, as the model states. That save fails whenever the jti is already stored, which, with one jti per module, is every logout after the first until the flagged row is swept. In the source the failed save is then a promise rejection that nothing handles. What that rejection does to the process is not modelled.
- `findAll` ordering: the rows are given already in the requested order, with the relation loading left out. The page and limit bounds of the query DTO are preconditions.
- The DTO's username normalisation (trim, lower case, alphanumeric) and length bounds are not modelled. The update data carries only the two DTO fields, username and displayName.
- JavaScript number parsing is not modelled:
  - `parseInt` is the leading-digits reading without whitespace or sign handling;
  - `!isNaN(Number(s))` is an abstract predicate;
  - the limits are the already-parsed integers.
- src/enums/roles.enum.ts is not part of this model; its values are taken to be USER and ADMIN, in that order.
- Foreign keys:
  - a deleted row leaves dangling ids in the users that referenced it, and these read as null (the behaviour of ON DELETE SET NULL), since the entity files do not state the delete rule;
  - saving a user with a new related entity inserts that entity first (cascade insert);
  - removing a user removes no related row, because the cascade is taken to cover insert only (src/modules/auth/auth.service.ts:145, src/modules/users/users.service.ts:60). The entity files carry no relation options that would settle this. A cascade that also removes would take the loaded email-verification token with the expired user in VerifyEmail, and the loaded picture row with the user in UsersService.Delete.
- Removing an entity that was never saved (updatePicture's new picture) is taken to change no row.
- src/entities/user.entity.ts does not match the services (no roles relation, string token columns). The user record is built from the fields the services read and write.
- The controller's reading of `refreshToken` from the result of `refreshTokens`, which names it `newRefreshToken`, is not modelled: controllers are not part of this model.
- Throttling, cookies, cron scheduling and concurrency between requests and the sweepers are not modelled; each operation runs to completion on its own.
- String lengths and `slice` count characters (Unicode scalar values), not UTF-16 code units: a name with emoji or other characters outside the Basic Multilingual Plane has a different length in the source, which affects ParseDisplayName and GoogleStrategy.GenerateDisplayName.
- `forgotPassword` looks the user up by email without loading relations (src/modules/auth/auth.service.ts:159) and then reads its reset token (line 173). The model takes the link to be visible there, so the pending-request check and Scenarios.ForgotPasswordTwice assume the relation is loaded.
- `save(user)` after `tokenRepository.remove(token)` (src/modules/auth/auth.service.ts:151-152 and 218-219) is taken not to insert the removed token again through the cascade.
- Scenarios.CreateRolesTwice: its contract states only that every enum role exists afterwards; that the second run leaves the role table unchanged is asserted in its body, because a contract cannot name the state between the two calls.
