/** The user profile operations: paging through users, finding one by id or
    username, deleting a user, and changing or removing a profile picture or
    the username and display name. Uploads to cloud storage are parameters;
    blob deletions are recorded in a log. */
module Users {
  import opened Outcomes
  import opened Decimal
  import opened CredentialStore

  /** The offset of a page of a given size, pages counted from 1. */
  function Skip(page: int, limit: int): int {
    (page - 1) * limit
  }

  function Min(a: int, b: int): int {
    if a <= b then a else b
  }

  /** One page of the listing: the total row count, the echoed paging
      parameters and the rows of the page. */
  datatype UserPage = UserPage(total: nat, page: int, limit: int, users: seq<User>)

  /** `findAll` over the rows in the requested order: skip (page - 1) * limit
      rows and take at most limit. The bounds are those the query DTO
      enforces. */
  function FindAll(rows: seq<User>, page: int, limit: int): (r: UserPage)
    requires page >= 1 && 1 <= limit <= 1000
    ensures r.total == |rows| && r.page == page && r.limit == limit
    ensures Skip(page, limit) >= 0
    ensures |r.users| == if Skip(page, limit) >= |rows| then 0 else Min(limit, |rows| - Skip(page, limit))
    ensures forall j :: 0 <= j < |r.users| ==> r.users[j] == rows[Skip(page, limit) + j]
  {
    var skip := Skip(page, limit);
    UserPage(|rows|, page, limit, rows[Min(skip, |rows|)..Min(skip + limit, |rows|)])
  }

  /** Row `i` of the listing appears on exactly one page: page i / limit + 1,
      at position i % limit. */
  lemma {:induction false} EachRowOnExactlyOnePage(rows: seq<User>, limit: int, i: int, page: int)
    requires 1 <= limit <= 1000 && page >= 1 && 0 <= i < |rows|
    ensures Skip(page, limit) <= i < Skip(page, limit) + limit <==> page == i / limit + 1
    ensures page == i / limit + 1 ==> FindAll(rows, page, limit).users[i % limit] == rows[i]
  {
    var q, r := i / limit, i % limit;
    assert i == q * limit + r && 0 <= r < limit;
    if page - 1 < q {
      assert page * limit <= q * limit;
      assert Skip(page, limit) + limit == page * limit;
    } else if page - 1 > q {
      assert (q + 1) * limit <= (page - 1) * limit;
    } else {
      assert Skip(page, limit) == q * limit;
    }
  }

  /** The identifier of a user in a route: a number, or text. */
  datatype Identifier = Numeric(n: int) | Text(s: string)

  /** The where-clause `findOne` builds: by id, or by username. An id of
      None stands for NaN and matches no row. */
  datatype Criterion = ById(id: Option<int>) | ByUsername(username: string)

  predicate Matches(u: User, c: Criterion) {
    match c
    case ById(id) => id == Some(u.id)
    case ByUsername(name) => u.username == Some(name)
  }

  /** A picture as the service holds it in memory: a loaded row, or a new
      entity not yet saved. */
  datatype HeldPicture = Stored(id: Id, picture: Picture) | Unsaved(picture: Picture)

  datatype UserResult = UserResult(user: User, message: string)

  /** The fields an update may carry: Some means the key is present. */
  datatype UpdateData = UpdateData(username: Option<string>, displayName: Option<string>)

  predicate HasKeys(data: UpdateData) {
    data.username.Some? || data.displayName.Some?
  }

  /** The user after username and display name were copied from the data:
      each is copied when present, non-empty and different. */
  function Copied(u: User, data: UpdateData): User {
    var u1 := if Truthy(data.username) && data.username != u.username then u.(username := data.username) else u;
    if Truthy(data.displayName) && data.displayName != u1.displayName then u1.(displayName := data.displayName) else u1
  }

  /** The no-changes test: every key present in the data equals the user's
      field. */
  predicate EveryKeyEqual(data: UpdateData, u: User) {
    && (data.username.Some? ==> data.username == u.username)
    && (data.displayName.Some? ==> data.displayName == u.displayName)
  }

  /** The no-changes test runs after the copy, so with non-empty values (as
      the update DTO demands) it always holds: such an update always ends
      in BadRequest and never saves. */
  lemma {:induction false} CopiedAlwaysUnchanged(u: User, data: UpdateData)
    requires data.username.Some? ==> data.username.value != ""
    requires data.displayName.Some? ==> data.displayName.value != ""
    ensures EveryKeyEqual(data, Copied(u, data))
  {
    var u1 := if Truthy(data.username) && data.username != u.username then u.(username := data.username) else u;
    assert data.username.Some? ==> u1.username == data.username;
    assert u1.displayName == u.displayName;
  }

  /** An empty username next to a new display name defeats the no-changes
      test: the empty username is not copied and differs from the user's, so
      the update saves the new display name and keeps the username. */
  lemma EmptyUsernameLetsDisplayNameThrough(u: User, d: string)
    requires d != "" && u.displayName != Some(d) && u.username != Some("")
    ensures !EveryKeyEqual(UpdateData(Some(""), Some(d)), Copied(u, UpdateData(Some(""), Some(d))))
    ensures Copied(u, UpdateData(Some(""), Some(d))) == u.(displayName := Some(d))
  {
  }

  class UsersService {
    const store: Store
    /** `!isNaN(Number(s))` for a textual identifier. */
    const isNumeric: string -> bool
    /** The cloud blobs deleted so far, by public id. */
    var deletedBlobs: seq<string>

    constructor (store: Store, isNumeric: string -> bool)
      ensures this.store == store && this.isNumeric == isNumeric && deletedBlobs == []
    {
      this.store := store;
      this.isNumeric := isNumeric;
      deletedBlobs := [];
    }

    /** A number is looked up by id; text by `parseInt(s, 10)` as id when it
        reads as a number, otherwise by username. */
    function Where(identifier: Identifier): (c: Criterion)
      ensures identifier.Numeric? ==> c == ById(Some(identifier.n))
      ensures identifier.Text? ==> (c.ById? <==> isNumeric(identifier.s))
      ensures identifier.Text? && c.ById? ==> c.id == ParseInt(identifier.s)
      ensures identifier.Text? && c.ByUsername? ==> c.username == identifier.s
    {
      match identifier
      case Numeric(n) => ById(Some(n))
      case Text(s) => if isNumeric(s) then ById(ParseInt(s)) else ByUsername(s)
    }

    /** What the where-clause selects: a number selects the user with that
        id; a numeric text the user whose id its leading digits spell (none
        when it has none); any other text the user with that username. */
    lemma WhereSelects(identifier: Identifier, u: User)
      ensures identifier.Numeric? ==> (Matches(u, Where(identifier)) <==> u.id == identifier.n)
      ensures identifier.Text? && isNumeric(identifier.s) ==>
        (Matches(u, Where(identifier)) <==> ParseInt(identifier.s) == Some(u.id))
      ensures identifier.Text? && !isNumeric(identifier.s) ==>
        (Matches(u, Where(identifier)) <==> u.username == Some(identifier.s))
    {
    }

    /** A number and a numeric text spelling it name the same user. */
    lemma NumberAndNumericTextAgree(n: nat, s: string)
      requires isNumeric(s) && ParseInt(s) == Some(n)
      ensures Where(Numeric(n)) == Where(Text(s))
    {
    }

    predicate Exists(identifier: Identifier)
      reads store
    {
      exists k :: k in store.users && Matches(store.users[k], Where(identifier))
    }

    /** The id of the user an identifier names, when there is one. */
    ghost function Target(identifier: Identifier): (k: Id)
      requires Exists(identifier)
      reads store
      ensures k in store.users && Matches(store.users[k], Where(identifier))
    {
      var k :| k in store.users && Matches(store.users[k], Where(identifier)); k
    }

    /** At most one user matches a where-clause: ids are keys, usernames
        are unique. */
    lemma OneMatch(identifier: Identifier, a: Id, b: Id)
      requires store.Valid()
      requires a in store.users && Matches(store.users[a], Where(identifier))
      requires b in store.users && Matches(store.users[b], Where(identifier))
      ensures a == b
    {
      if Where(identifier).ByUsername? {
        assert store.users[a].username == store.users[b].username;
      }
    }

    /** Read-only. The one user the identifier names, or NotFound. */
    method FindOne(identifier: Identifier) returns (r: Result<User>)
      requires store.Valid()
      ensures r.Err? <==> !Exists(identifier)
      ensures r.Err? ==> r.failure == Failure(NotFound, "users.findOne.notFound")
      ensures r.Ok? ==> r.value == store.users[Target(identifier)] && r.value.id == Target(identifier)
    {
      var where := Where(identifier);
      if !exists k :: k in store.users && Matches(store.users[k], where) {
        return Err(Failure(NotFound, "users.findOne.notFound"));
      }
      var k :| k in store.users && Matches(store.users[k], where);
      OneMatch(identifier, k, Target(identifier));
      r := Ok(store.users[k]);
    }

    /** The user's picture as loaded with the user: the row its link names,
        or null when unset or gone. */
    function Loaded(u: User): (p: Option<HeldPicture>)
      reads store
      ensures p.Some? <==> store.PictureLinked(u.picture)
      ensures p.Some? ==> p.value == Stored(u.picture.value, store.pictures[u.picture.value])
    {
      if store.PictureLinked(u.picture) then Some(Stored(u.picture.value, store.pictures[u.picture.value])) else None
    }

    /** When the held picture has a non-empty public id its blob is deleted
        and, for a stored row, the row is removed; removing an entity never
        saved changes no row. */
    method DeletePictureIfExists(held: Option<HeldPicture>)
      requires store.Valid()
      modifies this, store
      ensures store.Valid()
      ensures held.Some? && Truthy(held.value.picture.publicId) ==>
        && deletedBlobs == old(deletedBlobs) + [held.value.picture.publicId.value]
        && store.pictures == if held.value.Stored? then old(store.pictures) - {held.value.id} else old(store.pictures)
      ensures !(held.Some? && Truthy(held.value.picture.publicId)) ==>
        deletedBlobs == old(deletedBlobs) && store.pictures == old(store.pictures)
      ensures store.users == old(store.users) && store.tokens == old(store.tokens) && store.nextId == old(store.nextId)
      ensures store.blacklist == old(store.blacklist) && store.roles == old(store.roles)
    {
      if held.Some? && Truthy(held.value.picture.publicId) {
        deletedBlobs := deletedBlobs + [held.value.picture.publicId.value];
        if held.value.Stored? {
          store.RemovePicture(held.value.id);
        }
      }
    }

    /** NotFound for an unknown identifier. Otherwise the user's picture is
        deleted when it has a public id, and the user row is removed; removal
        is taken not to cascade to the user's roles or picture row. */
    method Delete(identifier: Identifier) returns (r: Result<UserResult>)
      requires store.Valid()
      modifies this, store
      ensures store.Valid()
      ensures r.Err? <==> old(!Exists(identifier))
      ensures r.Err? ==>
        r.failure == Failure(NotFound, "users.findOne.notFound") &&
        store.users == old(store.users) && store.pictures == old(store.pictures) && deletedBlobs == old(deletedBlobs)
      ensures r.Ok? ==>
        var u := old(store.users[Target(identifier)]);
        && r.value == UserResult(u, "users.delete.success")
        && store.users == old(store.users) - {u.id}
        && (if old(store.PictureLinked(u.picture)) && Truthy(old(store.pictures[u.picture.value].publicId))
            then store.pictures == old(store.pictures) - {u.picture.value} &&
                 deletedBlobs == old(deletedBlobs) + [old(store.pictures[u.picture.value].publicId.value)]
            else store.pictures == old(store.pictures) && deletedBlobs == old(deletedBlobs))
      ensures store.tokens == old(store.tokens) && store.blacklist == old(store.blacklist) && store.roles == old(store.roles)
    {
      var found := FindOne(identifier);
      if found.Err? {
        return Err(found.failure);
      }
      var user := found.value;
      DeletePictureIfExists(Loaded(user));
      store.RemoveUser(user.id);
      r := Ok(UserResult(user, "users.delete.success"));
    }

    /** NotFound for an unknown identifier. Otherwise the uploaded picture
        becomes the user's picture before the old one is looked at, so the
        blob deleted is the new upload's, the old row and blob stay, and the
        new row is saved and linked. */
    method UpdatePicture(identifier: Identifier, uploaded: Picture) returns (r: Result<UserResult>)
      requires store.Valid()
      modifies this, store
      ensures store.Valid()
      ensures r.Err? <==> old(!Exists(identifier))
      ensures r.Err? ==>
        r.failure == Failure(NotFound, "users.findOne.notFound") &&
        store.users == old(store.users) && store.pictures == old(store.pictures) && deletedBlobs == old(deletedBlobs)
      ensures r.Ok? ==>
        var k, pid := old(Target(identifier)), old(store.nextId);
        && pid !in old(store.pictures)
        && store.pictures == old(store.pictures)[pid := uploaded]
        && store.users == old(store.users)[k := old(store.users[k]).(picture := Some(pid))]
        && r.value == UserResult(store.users[k], "users.updatePicture.success")
        && deletedBlobs == old(deletedBlobs) + (if Truthy(uploaded.publicId) then [uploaded.publicId.value] else [])
      ensures store.tokens == old(store.tokens) && store.blacklist == old(store.blacklist) && store.roles == old(store.roles)
    {
      var found := FindOne(identifier);
      if found.Err? {
        return Err(found.failure);
      }
      var user := found.value;
      DeletePictureIfExists(Some(Unsaved(uploaded)));
      var pid := store.AddPicture(uploaded);
      user := user.(picture := Some(pid));
      store.PutUser(user);
      r := Ok(UserResult(user, "users.updatePicture.success"));
    }

    /** NotFound for an unknown identifier or a user without a picture.
        Otherwise the link is cleared in memory before the picture is looked
        at, so no blob or row is deleted and nothing is saved: the store
        is unchanged and only the returned user shows no picture. */
    method DeletePicture(identifier: Identifier) returns (r: Result<UserResult>)
      requires store.Valid()
      modifies this, store
      ensures store.Valid()
      ensures r == Err(Failure(NotFound, "users.findOne.notFound")) <==> old(!Exists(identifier))
      ensures r == Err(Failure(NotFound, "users.deletePicture.notFound")) <==>
        old(Exists(identifier) && !store.PictureLinked(store.users[Target(identifier)].picture))
      ensures r.Ok? <==> old(Exists(identifier) && store.PictureLinked(store.users[Target(identifier)].picture))
      ensures r.Ok? ==> r.value == UserResult(old(store.users[Target(identifier)]).(picture := None), "users.deletePicture.success")
      ensures store.users == old(store.users) && store.pictures == old(store.pictures) && deletedBlobs == old(deletedBlobs)
      ensures store.tokens == old(store.tokens) && store.blacklist == old(store.blacklist) && store.roles == old(store.roles)
    {
      var found := FindOne(identifier);
      if found.Err? {
        return Err(found.failure);
      }
      var user := found.value;
      if !store.PictureLinked(user.picture) {
        return Err(Failure(NotFound, "users.deletePicture.notFound"));
      }
      user := user.(picture := None);
      DeletePictureIfExists(Loaded(user));
      r := Ok(UserResult(user, "users.deletePicture.success"));
    }

    /** Checks in order: unknown identifier (NotFound), no keys (BadRequest),
        a new username already taken (Conflict). Then the username and
        display name are copied, and when every key equals the copied user
        the call is a BadRequest without saving; otherwise the copied user
        is saved. */
    method Update(identifier: Identifier, data: UpdateData) returns (r: Result<UserResult>)
      requires store.Valid()
      modifies store
      ensures store.Valid()
      ensures r == Err(Failure(NotFound, "users.findOne.notFound")) <==> old(!Exists(identifier))
      ensures r == Err(Failure(BadRequest, "users.update.noData")) <==> old(Exists(identifier)) && !HasKeys(data)
      ensures r == Err(Failure(Conflict, "users.update.usernameInUse")) <==>
        old(Exists(identifier) && HasKeys(data) && Truthy(data.username) &&
            data.username != store.users[Target(identifier)].username && store.UsernameInUse(data.username.value))
      ensures r == Err(Failure(BadRequest, "users.update.noChanges")) <==>
        old(Exists(identifier) && HasKeys(data) &&
            !(Truthy(data.username) && data.username != store.users[Target(identifier)].username &&
              store.UsernameInUse(data.username.value)) &&
            EveryKeyEqual(data, Copied(store.users[Target(identifier)], data)))
      ensures r.Ok? <==>
        old(Exists(identifier) && HasKeys(data) &&
            !(Truthy(data.username) && data.username != store.users[Target(identifier)].username &&
              store.UsernameInUse(data.username.value)) &&
            !EveryKeyEqual(data, Copied(store.users[Target(identifier)], data)))
      ensures r.Err? ==> store.users == old(store.users)
      ensures r.Ok? ==>
        var k := old(Target(identifier));
        && !EveryKeyEqual(data, Copied(old(store.users[k]), data))
        && store.users == old(store.users)[k := Copied(old(store.users[k]), data)]
        && r.value == UserResult(store.users[k], "users.update.success")
      ensures store.tokens == old(store.tokens) && store.pictures == old(store.pictures)
      ensures store.blacklist == old(store.blacklist) && store.roles == old(store.roles)
    {
      var found := FindOne(identifier);
      if found.Err? {
        return Err(found.failure);
      }
      var user := found.value;
      if !HasKeys(data) {
        return Err(Failure(BadRequest, "users.update.noData"));
      }
      if Truthy(data.username) && data.username != user.username {
        if store.UsernameInUse(data.username.value) {
          return Err(Failure(Conflict, "users.update.usernameInUse"));
        }
        user := user.(username := data.username);
      }
      if Truthy(data.displayName) && data.displayName != user.displayName {
        user := user.(displayName := data.displayName);
      }
      if EveryKeyEqual(data, user) {
        return Err(Failure(BadRequest, "users.update.noChanges"));
      }
      store.PutUser(user);
      r := Ok(UserResult(user, "users.update.success"));
    }
  }
}
