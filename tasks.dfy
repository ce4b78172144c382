/** The shared scheduled tasks: role seeding at start-up and the daily
    sweeps of expired tokens and of users who never verified their email.
    Each task catches its own failure, so none of them reports an error. */
module SharedTasks {
  import opened Outcomes
  import opened Roles
  import opened CredentialStore

  predicate Distinct(names: seq<RoleName>) {
    forall i, j :: 0 <= i < j < |names| ==> names[i] != names[j]
  }

  /** The enum role names not among the existing ones, in enum order. */
  function MissingRoles(all: seq<RoleName>, existing: set<RoleName>): (r: seq<RoleName>)
    ensures forall x :: x in r <==> x in all && x !in existing
    ensures Distinct(all) ==> Distinct(r)
    ensures |r| <= |all|
  {
    if all == [] then []
    else if all[0] in existing then MissingRoles(all[1..], existing)
    else [all[0]] + MissingRoles(all[1..], existing)
  }

  /** Filtering keeps the enum order: the missing names of a concatenation
      are the missing names of its first part followed by those of the
      second, so a name listed before another in the enum is also saved
      before it. */
  lemma {:induction false} MissingRolesKeepsOrder(a: seq<RoleName>, b: seq<RoleName>, existing: set<RoleName>)
    ensures MissingRoles(a + b, existing) == MissingRoles(a, existing) + MissingRoles(b, existing)
  {
    if a == [] {
      assert a + b == b;
    } else {
      var tail := a[1..] + b;
      assert a + b == [a[0]] + tail;
      MissingRolesKeepsOrder(a[1..], b, existing);
      assert MissingRoles(a + b, existing) == (if a[0] in existing then [] else [a[0]]) + MissingRoles(tail, existing);
    }
  }

  /** Once every enum role exists nothing is missing, so seeding again
      saves nothing. */
  lemma NothingMissingOnceSeeded(existing: set<RoleName>)
    requires Elements(AllRoles) <= existing
    ensures MissingRoles(AllRoles, existing) == []
  {
    if MissingRoles(AllRoles, existing) != [] {
      assert MissingRoles(AllRoles, existing)[0] in MissingRoles(AllRoles, existing);
    }
  }

  /** The loop state of `NewRoleRows` after the first `i` names. */
  ghost predicate RowsSoFar(roles: map<Id, Role>, start: Id, names: seq<RoleName>, rows: map<Id, Role>, next: Id, i: nat)
    requires i <= |names|
  {
    && next == start + i
    && Extends(roles, rows) && KeysBelow(rows, next) && UniqueRoleNames(rows)
    && NamesOf(rows) == NamesOf(roles) + Elements(names[..i])
  }

  lemma {:induction false} RowsStep(roles: map<Id, Role>, start: Id, names: seq<RoleName>, rows: map<Id, Role>, next: Id, i: nat)
    requires i < |names| && Distinct(names)
    requires forall n :: n in names ==> n !in NamesOf(roles)
    requires KeysBelow(roles, start)
    requires RowsSoFar(roles, start, names, rows, next, i)
    ensures RowsSoFar(roles, start, names, rows[next := Role(next, names[i])], next + 1, i + 1)
  {
    var row := Role(next, names[i]);
    assert next !in rows;
    assert names[i] !in NamesOf(rows) by {
      assert names[i] !in names[..i];
    }
    assert NamesOf(rows[next := row]) == NamesOf(rows) + {names[i]} by {
      NamesOfInsert(rows, next, row);
    }
    assert UniqueRoleNames(rows[next := row]) by {
      UniqueRoleNamesInsert(rows, next, row);
    }
    assert Elements(names[..i + 1]) == Elements(names[..i]) + {names[i]} by {
      assert names[..i + 1] == names[..i] + [names[i]];
    }
  }

  /** The role table after one row per name is created, in order, under
      the ids from `start` up. */
  method NewRoleRows(roles: map<Id, Role>, start: Id, names: seq<RoleName>) returns (rows: map<Id, Role>, next: Id)
    requires KeysBelow(roles, start) && UniqueRoleNames(roles) && Distinct(names)
    requires forall n :: n in names ==> n !in NamesOf(roles)
    ensures next == start + |names|
    ensures Extends(roles, rows) && KeysBelow(rows, next) && UniqueRoleNames(rows)
    ensures NamesOf(rows) == NamesOf(roles) + Elements(names)
    ensures |rows| == |roles| + |names|
  {
    rows, next := roles, start;
    var i := 0;
    assert names[..0] == [];
    while i < |names|
      invariant 0 <= i <= |names|
      invariant RowsSoFar(roles, start, names, rows, next, i)
      invariant |rows| == |roles| + i
    {
      RowsStep(roles, start, names, rows, next, i);
      assert rows[next := Role(next, names[i])].Keys == rows.Keys + {next};
      rows := rows[next := Role(next, names[i])];
      next := next + 1;
      i := i + 1;
    }
    assert names[..i] == names;
  }

  /** A token row the expiry sweep deletes: its expiration date lies
      strictly before the cut-off. A row without a date never matches. */
  predicate TokenExpired(t: Token, cutoff: int) {
    t.expirationDate.Some? && t.expirationDate.value < cutoff
  }

  class TasksService {
    const store: Store
    /** The email-verification window (ms). */
    const emailVerificationExpiration: int

    constructor (store: Store, emailVerificationExpiration: int)
      ensures this.store == store && this.emailVerificationExpiration == emailVerificationExpiration
    {
      this.store := store;
      this.emailVerificationExpiration := emailVerificationExpiration;
    }

    /** Saves one row per enum role name not yet present, leaving existing
        roles untouched; afterwards every enum role exists. When none is
        missing nothing is saved. */
    method CreateRoles()
      requires store.Valid()
      modifies store
      ensures store.Valid()
      ensures store.RoleNames() == old(store.RoleNames()) + Elements(AllRoles)
      ensures Extends(old(store.roles), store.roles)
      ensures |store.roles| == |old(store.roles)| + |MissingRoles(AllRoles, old(store.RoleNames()))|
      ensures Elements(AllRoles) <= old(store.RoleNames()) ==> store.roles == old(store.roles)
      ensures store.users == old(store.users) && store.tokens == old(store.tokens)
      ensures store.blacklist == old(store.blacklist) && store.pictures == old(store.pictures)
    {
      var existing := store.RoleNames();
      var missing := MissingRoles(AllRoles, existing);
      assert Distinct(AllRoles);
      if |missing| > 0 {
        SaveRoles(missing);
      } else {
        NothingMissingOnceSeeded(existing);
      }
      assert existing + Elements(missing) == existing + Elements(AllRoles);
      if Elements(AllRoles) <= existing {
        NothingMissingOnceSeeded(existing);
      }
    }

    /** Saves one new role row per name, in order. */
    method SaveRoles(names: seq<RoleName>)
      requires store.Valid() && Distinct(names)
      requires forall n :: n in names ==> n !in store.RoleNames()
      modifies store
      ensures store.Valid()
      ensures store.RoleNames() == old(store.RoleNames()) + Elements(names)
      ensures Extends(old(store.roles), store.roles)
      ensures |store.roles| == |old(store.roles)| + |names|
      ensures store.users == old(store.users) && store.tokens == old(store.tokens)
      ensures store.blacklist == old(store.blacklist) && store.pictures == old(store.pictures)
    {
      var roles, next := NewRoleRows(store.roles, store.nextId, names);
      store.SaveRoles(roles, next);
    }

    /** Deletes exactly the token rows, blacklisted or not, whose expiration
        date lies strictly before now. */
    method ClearExpiredTokensTask(now: int)
      requires store.Valid()
      modifies store
      ensures store.Valid()
      ensures forall k :: k in store.tokens <==> k in old(store.tokens) && !TokenExpired(old(store.tokens[k]), now)
      ensures forall k :: k in store.tokens ==> store.tokens[k] == old(store.tokens[k])
      ensures store.users == old(store.users) && store.roles == old(store.roles)
      ensures store.blacklist == old(store.blacklist) && store.pictures == old(store.pictures)
    {
      var tokens := store.tokens;
      var kept := tokens;
      var pending := tokens.Keys;
      while pending != {}
        invariant pending <= kept.Keys
        invariant forall k :: k in kept <==> k in tokens && (k in pending || !TokenExpired(tokens[k], now))
        invariant Extends(kept, tokens)
        decreases pending
      {
        var k :| k in pending;
        if TokenExpired(kept[k], now) {
          kept := kept - {k};
        }
        pending := pending - {k};
      }
      store.RetainTokens(kept);
    }

    /** Deletes exactly the unverified users created before now minus the
        verification window; verified users always stay. */
    method ClearUserWithoutVerificationTask(now: int)
      requires store.Valid()
      modifies store
      ensures store.Valid()
      ensures forall k :: k in store.users <==>
        k in old(store.users) && !StaleUnverified(old(store.users[k]), now - emailVerificationExpiration)
      ensures forall k :: k in store.users ==> store.users[k] == old(store.users[k])
      ensures forall k :: k in old(store.users) && old(store.users[k].isVerified) ==> k in store.users
      ensures store.tokens == old(store.tokens) && store.roles == old(store.roles)
      ensures store.blacklist == old(store.blacklist) && store.pictures == old(store.pictures)
    {
      var cutoff := now - emailVerificationExpiration;
      var users := store.users;
      var kept := users;
      var pending := users.Keys;
      while pending != {}
        invariant pending <= kept.Keys
        invariant forall k :: k in kept <==> k in users && (k in pending || !StaleUnverified(users[k], cutoff))
        invariant Extends(kept, users)
        decreases pending
      {
        var k :| k in pending;
        if StaleUnverified(kept[k], cutoff) {
          kept := kept - {k};
        }
        pending := pending - {k};
      }
      store.RetainUsers(kept);
    }
  }
}

/** The second set of scheduled tasks, with fixed windows: the access-token
    blacklist sweep, the hourly unverified-user sweep and the hourly reset of
    stale password-reset fields. Each task catches its own failure. */
module Tasks {
  import opened Outcomes
  import opened CredentialStore

  /** Eight days, one day and one hour, in milliseconds. */
  const BlacklistRetention := 8 * 24 * 60 * 60 * 1000
  const VerificationWindow := 24 * 60 * 60 * 1000
  const ResetRetention := 60 * 60 * 1000

  /** A user whose reset fields the hourly task clears. A null expiry is not
      matched by the comparison. */
  predicate ResetStale(u: User, cutoff: int) {
    u.resetPasswordExpires.Some? && u.resetPasswordExpires.value < cutoff
  }

  /** The user with both reset fields nulled and everything else kept. */
  function ResetCleared(u: User): (v: User)
    ensures v.resetPasswordToken.None? && v.resetPasswordExpires.None?
    ensures v.(resetPasswordToken := u.resetPasswordToken, resetPasswordExpires := u.resetPasswordExpires) == u
  {
    u.(resetPasswordToken := None, resetPasswordExpires := None)
  }

  class TasksService {
    const store: Store

    constructor (store: Store)
      ensures this.store == store
    {
      this.store := store;
    }

    /** Deletes exactly the blacklist rows created more than eight days
        before now. */
    method ClearTokenBlacklistTask(now: int)
      requires store.Valid()
      modifies store
      ensures store.Valid()
      ensures forall k :: k in store.blacklist <==>
        k in old(store.blacklist) && !(old(store.blacklist[k].createdAt) < now - BlacklistRetention)
      ensures forall k :: k in store.blacklist ==> store.blacklist[k] == old(store.blacklist[k])
      ensures store.users == old(store.users) && store.tokens == old(store.tokens)
      ensures store.roles == old(store.roles) && store.pictures == old(store.pictures)
    {
      var cutoff := now - BlacklistRetention;
      var blacklist := store.blacklist;
      var kept := blacklist;
      var pending := blacklist.Keys;
      while pending != {}
        invariant pending <= kept.Keys
        invariant forall k :: k in kept <==> k in blacklist && (k in pending || !(blacklist[k].createdAt < cutoff))
        invariant Extends(kept, blacklist)
        decreases pending
      {
        var k :| k in pending;
        if kept[k].createdAt < cutoff {
          kept := kept - {k};
        }
        pending := pending - {k};
      }
      store.RetainBlacklist(kept);
    }

    /** Deletes exactly the unverified users created more than a day before
        now; verified users always stay. */
    method ClearUserWithoutVerificationTask(now: int)
      requires store.Valid()
      modifies store
      ensures store.Valid()
      ensures forall k :: k in store.users <==>
        k in old(store.users) && !StaleUnverified(old(store.users[k]), now - VerificationWindow)
      ensures forall k :: k in store.users ==> store.users[k] == old(store.users[k])
      ensures forall k :: k in old(store.users) && old(store.users[k].isVerified) ==> k in store.users
      ensures store.tokens == old(store.tokens) && store.roles == old(store.roles)
      ensures store.blacklist == old(store.blacklist) && store.pictures == old(store.pictures)
    {
      var cutoff := now - VerificationWindow;
      var users := store.users;
      var kept := users;
      var pending := users.Keys;
      while pending != {}
        invariant pending <= kept.Keys
        invariant forall k :: k in kept <==> k in users && (k in pending || !StaleUnverified(users[k], cutoff))
        invariant Extends(kept, users)
        decreases pending
      {
        var k :| k in pending;
        if StaleUnverified(kept[k], cutoff) {
          kept := kept - {k};
        }
        pending := pending - {k};
      }
      store.RetainUsers(kept);
    }

    /** Nulls both reset fields on exactly the users whose reset expiry lies
        more than an hour before now. No user is deleted, no other field
        changes, and the token rows themselves stay. */
    method RemoveResetPasswordTask(now: int)
      requires store.Valid()
      modifies store
      ensures store.Valid()
      ensures store.users.Keys == old(store.users).Keys
      ensures forall k :: k in store.users ==>
        store.users[k] == if ResetStale(old(store.users[k]), now - ResetRetention) then ResetCleared(old(store.users[k]))
                          else old(store.users[k])
      ensures store.tokens == old(store.tokens) && store.roles == old(store.roles)
      ensures store.blacklist == old(store.blacklist) && store.pictures == old(store.pictures)
    {
      var cutoff := now - ResetRetention;
      var users := store.users;
      var updated := users;
      var pending := users.Keys;
      while pending != {}
        invariant pending <= updated.Keys == users.Keys
        invariant forall k :: k in updated ==>
          updated[k] == if k !in pending && ResetStale(users[k], cutoff) then ResetCleared(users[k]) else users[k]
        decreases pending
      {
        var k :| k in pending;
        if ResetStale(updated[k], cutoff) {
          updated := updated[k := ResetCleared(updated[k])];
        }
        pending := pending - {k};
      }
      store.UpdateUsers(updated);
    }
  }
}
