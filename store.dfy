/** The persistent store shared by every service: the user, token, token
    blacklist, role and picture tables, keyed by their generated ids.
    Relations are held as foreign-key ids; a relation whose row is gone reads
    as null, as with an ON DELETE SET NULL foreign key. */
module CredentialStore {
  import opened Outcomes
  import opened Roles

  type Id = nat

  /** A row of the picture table; `publicId` names the blob in cloud storage. */
  datatype Picture = Picture(url: string, publicId: Option<string>)

  /** A row of the token table: an email-verification or password-reset token
      (`isBlacklisted` false), or a revoked refresh token's jti (true). */
  datatype Token = Token(content: string, expirationDate: Option<int>, isBlacklisted: bool, createdAt: int)

  /** A row of the access-token blacklist table. */
  datatype BlacklistEntry = BlacklistEntry(token: string, createdAt: int)

  /** A user as the services read and write it. Times are milliseconds. */
  datatype User = User(
    id: Id,
    googleId: Option<string>,
    username: Option<string>,
    displayName: Option<string>,
    email: string,
    password: Option<string>,
    picture: Option<Id>,
    isVerified: bool,
    roles: seq<Role>,
    emailVerificationToken: Option<Id>,
    resetPasswordToken: Option<Id>,
    resetPasswordExpires: Option<int>,
    createdAt: int)

  /** Unique constraints of the token content column. */
  ghost predicate UniqueContents(tokens: map<Id, Token>) {
    forall a, b :: a in tokens && b in tokens && tokens[a].content == tokens[b].content ==> a == b
  }

  /** Unique constraints of the user email, username and googleId columns
      (null does not collide with null). */
  ghost predicate UniqueUserColumns(users: map<Id, User>) {
    && (forall a, b :: a in users && b in users && users[a].email == users[b].email ==> a == b)
    && (forall a, b :: a in users && b in users && users[a].username.Some? && users[a].username == users[b].username ==> a == b)
    && (forall a, b :: a in users && b in users && users[a].googleId.Some? && users[a].googleId == users[b].googleId ==> a == b)
  }

  /** Every row of `before` is still in `after`, unchanged. */
  ghost predicate Extends<V>(before: map<Id, V>, after: map<Id, V>) {
    forall k :: k in before ==> k in after && after[k] == before[k]
  }

  /** Every relation the user holds names an id already handed out. */
  ghost predicate LinksBelow(u: User, bound: Id) {
    && (u.picture.Some? ==> u.picture.value < bound)
    && (u.emailVerificationToken.Some? ==> u.emailVerificationToken.value < bound)
    && (u.resetPasswordToken.Some? ==> u.resetPasswordToken.value < bound)
  }

  /** Every key of the table is an id already handed out. */
  ghost predicate KeysBelow<V>(m: map<Id, V>, bound: Id) {
    forall k :: k in m ==> k < bound
  }

  /** Every user sits under its own id, below the bound, with its relations
      below the bound too. */
  ghost predicate UsersBelow(users: map<Id, User>, bound: Id) {
    forall k :: k in users ==> users[k].id == k && k < bound && LinksBelow(users[k], bound)
  }

  /** Same id and same unique columns. */
  predicate SameIdentity(u: User, v: User) {
    u.id == v.id && u.email == v.email && u.username == v.username && u.googleId == v.googleId
  }

  /** A user both verification sweeps delete: never verified and created
      before the cutoff. */
  predicate StaleUnverified(u: User, cutoff: int) {
    !u.isVerified && u.createdAt < cutoff
  }


  /** A new user whose unique columns nobody holds keeps them unique. */
  lemma UniqueUserColumnsInsert(users: map<Id, User>, u: User)
    requires UniqueUserColumns(users) && u.id !in users
    requires forall k :: k in users ==> users[k].email != u.email
    requires u.username.Some? ==> forall k :: k in users ==> users[k].username != u.username
    requires u.googleId.Some? ==> forall k :: k in users ==> users[k].googleId != u.googleId
    ensures UniqueUserColumns(users[u.id := u])
  {
  }

  /** The names in a role table. */
  function NamesOf(roles: map<Id, Role>): set<RoleName> {
    set k | k in roles :: roles[k].name
  }

  /** Inserting a row under a new id adds exactly its name. */
  lemma NamesOfInsert(roles: map<Id, Role>, id: Id, r: Role)
    requires id !in roles
    ensures NamesOf(roles[id := r]) == NamesOf(roles) + {r.name}
  {
    var after := roles[id := r];
    assert after[id].name == r.name;
    forall n | n in NamesOf(after) ensures n in NamesOf(roles) + {r.name} {
      var k :| k in after && after[k].name == n;
      if k != id {
        assert k in roles;
      }
    }
    forall n | n in NamesOf(roles) ensures n in NamesOf(after) {
      var k :| k in roles && roles[k].name == n;
      assert after[k] == roles[k];
    }
  }

  /** Unique constraint of the role name column. */
  ghost predicate UniqueRoleNames(roles: map<Id, Role>) {
    forall a, b :: a in roles && b in roles && roles[a].name == roles[b].name ==> a == b
  }

  /** A row under a new id with a new name keeps the names unique. */
  lemma UniqueRoleNamesInsert(roles: map<Id, Role>, id: Id, r: Role)
    requires UniqueRoleNames(roles) && id !in roles && r.name !in NamesOf(roles)
    ensures UniqueRoleNames(roles[id := r])
  {
  }

  class Store {
    var users: map<Id, User>
    var tokens: map<Id, Token>
    var blacklist: map<Id, BlacklistEntry>
    var roles: map<Id, Role>
    var pictures: map<Id, Picture>
    /** The next value of the id sequence; every id handed out is below it. */
    var nextId: Id

    ghost predicate Valid()
      reads this
    {
      && UsersBelow(users, nextId)
      && KeysBelow(tokens, nextId)
      && KeysBelow(blacklist, nextId)
      && KeysBelow(roles, nextId)
      && KeysBelow(pictures, nextId)
      && UniqueContents(tokens)
      && UniqueUserColumns(users)
      && UniqueRoleNames(roles)
    }

    constructor ()
      ensures Valid()
      ensures users == map[] && tokens == map[] && blacklist == map[] && roles == map[] && pictures == map[]
    {
      users, tokens, blacklist, roles, pictures := map[], map[], map[], map[], map[];
      nextId := 1;
    }

    predicate EmailInUse(email: string)
      reads this
    {
      exists k :: k in users && users[k].email == email
    }

    predicate UsernameInUse(username: string)
      reads this
    {
      exists k :: k in users && users[k].username == Some(username)
    }

    predicate ContentInUse(content: string)
      reads this
    {
      exists k :: k in tokens && tokens[k].content == content
    }

    function RoleNames(): set<RoleName>
      reads this
    {
      NamesOf(roles)
    }

    predicate HasRole(name: RoleName)
      reads this
    {
      name in RoleNames()
    }

    /** A relation column as loaded: null when unset or when its row is gone. */
    predicate Linked(link: Option<Id>)
      reads this
    {
      link.Some? && link.value in tokens
    }

    predicate PictureLinked(link: Option<Id>)
      reads this
    {
      link.Some? && link.value in pictures
    }

    /** The row holding a token content; unique while the store is valid. */
    ghost function TokenWithContent(content: string): (k: Id)
      requires ContentInUse(content)
      reads this
      ensures k in tokens && tokens[k].content == content
    {
      var k :| k in tokens && tokens[k].content == content; k
    }

    /** The user owning an email; unique while the store is valid. */
    ghost function UserWithEmail(email: string): (k: Id)
      requires EmailInUse(email)
      reads this
      ensures k in users && users[k].email == email
    {
      var k :| k in users && users[k].email == email; k
    }

    predicate HasUserLinkedByEmailToken(tk: Id)
      reads this
    {
      exists k :: k in users && users[k].emailVerificationToken == Some(tk)
    }

    predicate HasUserLinkedByResetToken(tk: Id)
      reads this
    {
      exists k :: k in users && users[k].resetPasswordToken == Some(tk)
    }

    /** Inserts a token row under the next id. */
    method AddToken(t: Token) returns (id: Id)
      requires Valid() && !ContentInUse(t.content)
      modifies this
      ensures Valid()
      ensures id == old(nextId) && id !in old(tokens) && nextId == id + 1
      ensures tokens == old(tokens)[id := t]
      ensures users == old(users) && blacklist == old(blacklist) && roles == old(roles) && pictures == old(pictures)
    {
      id := nextId;
      tokens := tokens[id := t];
      nextId := id + 1;
    }

    method RemoveToken(k: Id)
      requires Valid()
      modifies this
      ensures Valid()
      ensures tokens == old(tokens) - {k} && nextId == old(nextId)
      ensures users == old(users) && blacklist == old(blacklist) && roles == old(roles) && pictures == old(pictures)
    {
      tokens := tokens - {k};
    }

    /** Inserts a user row under the next id; the unique columns must be free. */
    method AddUser(u: User)
      requires Valid() && u.id == nextId && !EmailInUse(u.email)
      requires u.username.Some? ==> !UsernameInUse(u.username.value)
      requires u.googleId.Some? ==> !exists k :: k in users && users[k].googleId == u.googleId
      requires LinksBelow(u, nextId)
      modifies this
      ensures Valid()
      ensures u.id !in old(users) && users == old(users)[u.id := u] && nextId == old(nextId) + 1
      ensures tokens == old(tokens) && blacklist == old(blacklist) && roles == old(roles) && pictures == old(pictures)
    {
      assert UniqueUserColumns(users[u.id := u]) by {
        UniqueUserColumnsInsert(users, u);
      }
      users := users[u.id := u];
      nextId := nextId + 1;
    }

    /** Saves a changed user that keeps its id, email and Google id, and
        keeps its username or takes one nobody has. */
    method PutUser(u: User)
      requires Valid() && u.id in users
      requires u.email == users[u.id].email && u.googleId == users[u.id].googleId
      requires u.username == users[u.id].username || (u.username.Some? && !UsernameInUse(u.username.value))
      requires LinksBelow(u, nextId)
      modifies this
      ensures Valid()
      ensures users == old(users)[u.id := u] && nextId == old(nextId)
      ensures tokens == old(tokens) && blacklist == old(blacklist) && roles == old(roles) && pictures == old(pictures)
    {
      users := users[u.id := u];
    }

    method RemoveUser(k: Id)
      requires Valid()
      modifies this
      ensures Valid()
      ensures users == old(users) - {k} && nextId == old(nextId)
      ensures tokens == old(tokens) && blacklist == old(blacklist) && roles == old(roles) && pictures == old(pictures)
    {
      users := users - {k};
    }

    /** Bulk delete: keeps only the given rows of the token table. */
    method RetainTokens(kept: map<Id, Token>)
      requires Valid() && Extends(kept, tokens)
      modifies this
      ensures Valid()
      ensures tokens == kept && nextId == old(nextId)
      ensures users == old(users) && blacklist == old(blacklist) && roles == old(roles) && pictures == old(pictures)
    {
      tokens := kept;
    }

    /** Bulk delete: keeps only the given rows of the user table. */
    method RetainUsers(kept: map<Id, User>)
      requires Valid() && Extends(kept, users)
      modifies this
      ensures Valid()
      ensures users == kept && nextId == old(nextId)
      ensures tokens == old(tokens) && blacklist == old(blacklist) && roles == old(roles) && pictures == old(pictures)
    {
      users := kept;
    }

    /** Bulk delete: keeps only the given rows of the blacklist table. */
    method RetainBlacklist(kept: map<Id, BlacklistEntry>)
      requires Valid() && Extends(kept, blacklist)
      modifies this
      ensures Valid()
      ensures blacklist == kept && nextId == old(nextId)
      ensures users == old(users) && tokens == old(tokens) && roles == old(roles) && pictures == old(pictures)
    {
      blacklist := kept;
    }

    /** Bulk update: every user row is replaced by one with the same id and
        unique columns and relations below the next id. */
    method UpdateUsers(updated: map<Id, User>)
      requires Valid() && updated.Keys == users.Keys
      requires forall k :: k in updated ==> SameIdentity(updated[k], users[k]) && LinksBelow(updated[k], nextId)
      modifies this
      ensures Valid()
      ensures users == updated && nextId == old(nextId)
      ensures tokens == old(tokens) && blacklist == old(blacklist) && roles == old(roles) && pictures == old(pictures)
    {
      users := updated;
    }

    /** Saves a batch of new role rows, all under ids from the next id up
        to `next`; the role names stay unique. */
    method SaveRoles(updated: map<Id, Role>, next: Id)
      requires Valid() && Extends(roles, updated) && nextId <= next
      requires KeysBelow(updated, next) && UniqueRoleNames(updated)
      modifies this
      ensures Valid()
      ensures roles == updated && nextId == next
      ensures users == old(users) && tokens == old(tokens) && blacklist == old(blacklist) && pictures == old(pictures)
    {
      roles := updated;
      nextId := next;
    }

    /** Inserts a picture row under the next id. */
    method AddPicture(p: Picture) returns (id: Id)
      requires Valid()
      modifies this
      ensures Valid()
      ensures id == old(nextId) && id !in old(pictures) && nextId == id + 1
      ensures pictures == old(pictures)[id := p]
      ensures users == old(users) && tokens == old(tokens) && blacklist == old(blacklist) && roles == old(roles)
    {
      id := nextId;
      pictures := pictures[id := p];
      nextId := id + 1;
    }

    method RemovePicture(k: Id)
      requires Valid()
      modifies this
      ensures Valid()
      ensures pictures == old(pictures) - {k} && nextId == old(nextId)
      ensures users == old(users) && tokens == old(tokens) && blacklist == old(blacklist) && roles == old(roles)
    {
      pictures := pictures - {k};
    }

    lemma TokenWithContentIs(content: string, k: Id)
      requires Valid() && k in tokens && tokens[k].content == content
      ensures ContentInUse(content) && TokenWithContent(content) == k
    {
    }

    lemma UserWithEmailIs(email: string, k: Id)
      requires Valid() && k in users && users[k].email == email
      ensures EmailInUse(email) && UserWithEmail(email) == k
    {
    }
  }
}
