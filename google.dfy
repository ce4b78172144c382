/** Google sign-in: find the user by Google id, or create a verified user
    from the Google profile. */
module Google {
  import opened Outcomes
  import opened Roles
  import opened CredentialStore
  import opened DisplayName
  import opened Limits

  /** The profile fields the strategy reads. A missing list is None. */
  datatype Profile = Profile(id: string, displayName: string, emails: Option<seq<string>>, photos: Option<seq<string>>)

  predicate HasEmail(p: Profile) {
    p.emails.Some? && |p.emails.value| > 0
  }

  class GoogleStrategy {
    const store: Store
    const limits: LimitsRecord

    constructor (store: Store, limits: LimitsRecord)
      ensures this.store == store && this.limits == limits
    {
      this.store := store;
      this.limits := limits;
    }

    /** The display name for a new user: null when shorter than the
        minimum, cut to the maximum when longer, otherwise unchanged. */
    function GenerateDisplayName(displayName: string): (r: Option<string>)
      ensures |displayName| < limits.minDisplayNameLength ==> r == None
      ensures |displayName| >= limits.minDisplayNameLength && |displayName| > limits.maxDisplayNameLength ==>
        r.Some? && r.value <= displayName && (limits.maxDisplayNameLength >= 0 ==> |r.value| == limits.maxDisplayNameLength)
      ensures limits.minDisplayNameLength <= |displayName| <= limits.maxDisplayNameLength ==> r == Some(displayName)
    {
      ParseDisplayName(displayName, limits.minDisplayNameLength, limits.maxDisplayNameLength)
    }

    predicate GoogleIdInUse(id: string)
      reads store
    {
      exists k :: k in store.users && store.users[k].googleId == Some(id)
    }

    /** Checks in order: no email in the profile (BadRequest); a user with
        the Google id is returned with no write. For a new profile: an empty
        photo list fails on its first element, an email already in use is a
        Conflict, a missing USER role a plain error, all with nothing saved.
        Otherwise one verified user with the USER role is saved, with its
        picture (first photo, no public id) when the profile has photos. */
    method Validate(profile: Profile, now: int) returns (r: Result<User>)
      requires store.Valid()
      modifies store
      ensures store.Valid()
      ensures r == Err(Failure(BadRequest, "auth.register.emailRequired")) <==> !HasEmail(profile)
      ensures r.Ok? <==>
        HasEmail(profile) &&
        (old(GoogleIdInUse(profile.id)) ||
         (profile.photos != Some([]) && old(!store.EmailInUse(profile.emails.value[0]) && store.HasRole(USER))))
      ensures HasEmail(profile) && old(GoogleIdInUse(profile.id)) ==>
        r.Ok? && r.value in old(store.users).Values && r.value.googleId == Some(profile.id)
      ensures r == Err(Failure(InternalError, "TypeError")) <==>
        HasEmail(profile) && old(!GoogleIdInUse(profile.id)) && profile.photos == Some([])
      ensures r == Err(Failure(Conflict, "auth.register.emailInUse")) <==>
        HasEmail(profile) && old(!GoogleIdInUse(profile.id)) && profile.photos != Some([]) &&
        old(store.EmailInUse(profile.emails.value[0]))
      ensures r == Err(Failure(InternalError, "auth.register.userRoleNotFound")) <==>
        HasEmail(profile) && old(!GoogleIdInUse(profile.id)) && profile.photos != Some([]) &&
        old(!store.EmailInUse(profile.emails.value[0]) && !store.HasRole(USER))
      ensures r.Err? || old(GoogleIdInUse(profile.id)) ==>
        store.users == old(store.users) && store.pictures == old(store.pictures)
      ensures r.Ok? && old(!GoogleIdInUse(profile.id)) ==>
        var u := r.value;
        && u.id !in old(store.users)
        && store.users == old(store.users)[u.id := u]
        && u.googleId == Some(profile.id) && u.email == profile.emails.value[0]
        && u.isVerified && |u.roles| == 1 && u.roles[0].name == USER
        && u.password.None? && u.username.None? && u.createdAt == now
        && u.displayName == GenerateDisplayName(profile.displayName)
        && (profile.photos.None? ==> u.picture.None? && store.pictures == old(store.pictures))
        && (profile.photos.Some? ==>
              u.picture.Some? && u.picture.value !in old(store.pictures) &&
              store.pictures == old(store.pictures)[u.picture.value := Picture(profile.photos.value[0], None)])
      ensures store.tokens == old(store.tokens) && store.blacklist == old(store.blacklist) && store.roles == old(store.roles)
    {
      if profile.emails.None? || |profile.emails.value| == 0 {
        return Err(Failure(BadRequest, "auth.register.emailRequired"));
      }
      if GoogleIdInUse(profile.id) {
        var k :| k in store.users && store.users[k].googleId == Some(profile.id);
        return Ok(store.users[k]);
      }
      var googleId := profile.id;
      var email := profile.emails.value[0];
      if profile.photos.Some? && |profile.photos.value| == 0 {
        return Err(Failure(InternalError, "TypeError"));
      }
      var picture := if profile.photos.Some? then Some(Picture(profile.photos.value[0], None)) else None;
      var name := GenerateDisplayName(profile.displayName);
      if store.EmailInUse(email) {
        return Err(Failure(Conflict, "auth.register.emailInUse"));
      }
      if !store.HasRole(USER) {
        return Err(Failure(InternalError, "auth.register.userRoleNotFound"));
      }
      var rk :| rk in store.roles && store.roles[rk].name == USER;
      var pictureId: Option<Id> := None;
      if picture.Some? {
        var pid := store.AddPicture(picture.value);
        pictureId := Some(pid);
      }
      var user := User(store.nextId, Some(googleId), None, name, email, None, pictureId, true, [store.roles[rk]], None, None, None, now);
      store.AddUser(user);
      r := Ok(user);
    }
  }
}
