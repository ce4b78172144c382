/** Roles and the role gate: `matchRoles` and the guard that turns its answer
    into an allow or a Forbidden exception. Both are OR checks: holding any one
    of the required roles suffices. */
module Roles {
  import opened Outcomes

  /** A value of the roles enumeration, stored as its string. */
  type RoleName = string

  const USER: RoleName := "USER"
  const ADMIN: RoleName := "ADMIN"

  /** Every value of the enumeration, in declaration order. */
  const AllRoles: seq<RoleName> := [USER, ADMIN]

  /** A row of the role table. */
  datatype Role = Role(id: nat, name: RoleName)

  /** `userRoles.map(role => role.name)` */
  function Names(roles: seq<Role>): (r: seq<RoleName>)
    ensures |r| == |roles|
    ensures forall i :: 0 <= i < |roles| ==> r[i] == roles[i].name
  {
    if roles == [] then [] else [roles[0].name] + Names(roles[1..])
  }

  /** `names.includes(x)` */
  function Includes(names: seq<RoleName>, x: RoleName): (r: bool)
    ensures r <==> x in names
  {
    if names == [] then false else names[0] == x || Includes(names[1..], x)
  }

  /** `required.some(role => names.includes(role))` */
  function SomeIncluded(required: seq<RoleName>, names: seq<RoleName>): (r: bool)
    ensures r <==> exists i :: 0 <= i < |required| && required[i] in names
  {
    if required == [] then false
    else Includes(names, required[0]) || SomeIncluded(required[1..], names)
  }

  /** An absent or empty requirement lets everybody through; otherwise some
      required role must be the name of one of the user's roles. */
  function MatchRoles(required: Option<seq<RoleName>>, userRoles: seq<Role>): (r: bool)
    ensures required.None? || required.value == [] ==> r
    ensures required.Some? && required.value != [] ==>
      (r <==> exists i, j :: 0 <= i < |required.value| && 0 <= j < |userRoles| && required.value[i] == userRoles[j].name)
  {
    if required.None? || |required.value| == 0 then true
    else SomeIncluded(required.value, Names(userRoles))
  }

  function Elements(names: seq<RoleName>): set<RoleName> {
    set x | x in names
  }

  function NameSet(roles: seq<Role>): set<RoleName> {
    set j | 0 <= j < |roles| :: roles[j].name
  }

  /** The answer depends on the two lists only as sets: it is true exactly
      when they share a role name. */
  lemma MatchIsIntersection(required: seq<RoleName>, userRoles: seq<Role>)
    requires required != []
    ensures MatchRoles(Some(required), userRoles) <==> Elements(required) * NameSet(userRoles) != {}
  {
    if MatchRoles(Some(required), userRoles) {
      var i, j :| 0 <= i < |required| && 0 <= j < |userRoles| && required[i] == userRoles[j].name;
      assert required[i] in Elements(required) * NameSet(userRoles);
    }
    if Elements(required) * NameSet(userRoles) != {} {
      var x :| x in Elements(required) * NameSet(userRoles);
      var i :| 0 <= i < |required| && required[i] == x;
      var j :| 0 <= j < |userRoles| && userRoles[j].name == x;
      assert required[i] == userRoles[j].name;
    }
  }

  /** Reordering (or repeating) the entries of either list does not change the answer. */
  lemma MatchOrderIndependent(required: seq<RoleName>, required': seq<RoleName>, userRoles: seq<Role>, userRoles': seq<Role>)
    requires Elements(required) == Elements(required')
    requires NameSet(userRoles) == NameSet(userRoles')
    ensures MatchRoles(Some(required), userRoles) == MatchRoles(Some(required'), userRoles')
  {
    if required != [] { MatchIsIntersection(required, userRoles); }
    if required' != [] { MatchIsIntersection(required', userRoles'); }
    assert required == [] <==> Elements(required) == {} by {
      if required != [] { assert required[0] in Elements(required); }
    }
    assert required' == [] <==> Elements(required') == {} by {
      if required' != [] { assert required'[0] in Elements(required'); }
    }
  }

  /** Granting the user more roles, or accepting more roles for an operation
      that already required some, never turns an allow into a deny. (Adding a
      role to an EMPTY requirement can: the empty list allows everybody.) */
  lemma MatchMonotone(required: seq<RoleName>, required': seq<RoleName>, userRoles: seq<Role>, userRoles': seq<Role>)
    requires required != []
    requires Elements(required) <= Elements(required')
    requires NameSet(userRoles) <= NameSet(userRoles')
    requires MatchRoles(Some(required), userRoles)
    ensures MatchRoles(Some(required'), userRoles')
  {
    MatchIsIntersection(required, userRoles);
    assert required[0] in Elements(required');
    MatchIsIntersection(required', userRoles');
  }

  /** A user with no roles passes only an unrestricted operation. */
  lemma NoRolesOnlyUnrestricted(required: Option<seq<RoleName>>)
    ensures MatchRoles(required, []) <==> required.None? || required.value == []
  {
  }

  /** `requiredRoles.join(', ')` */
  function Join(names: seq<RoleName>, separator: string): (r: string)
    ensures names == [] ==> r == ""
    ensures |names| == 1 ==> r == names[0]
    ensures |names| > 1 ==> r == names[0] + separator + Join(names[1..], separator)
  {
    if names == [] then ""
    else if |names| == 1 then names[0]
    else names[0] + separator + Join(names[1..], separator)
  }

  /** The message translator of the current request, when there is one:
      it formats the given key with the given `roles` argument. */
  type Translator = (string, string) -> string

  /** `RolesGuard.canActivate`: either allows (the source returns true; it
      never returns false) or raises Forbidden with the translated message
      naming the required roles, or the literal 'Forbidden' when no
      translation context exists. The user is looked at only when the
      operation carries a non-empty requirement. */
  function CanActivate(required: Option<seq<RoleName>>, userRoles: seq<Role>, i18n: Option<Translator>): (r: Outcome)
    ensures r.Pass? <==> MatchRoles(required, userRoles)
    ensures r.Fail? ==> r.failure.kind == Forbidden
    ensures r.Fail? && i18n.None? ==> r.failure.message == "Forbidden"
    ensures r.Fail? && i18n.Some? ==>
      r.failure.message == i18n.value("guards.roles.forbidden", Join(required.value, ", "))
  {
    if required.None? || |required.value| == 0 then Pass
    else if MatchRoles(required, userRoles) then Pass
    else
      var message := if i18n.Some? then i18n.value("guards.roles.forbidden", Join(required.value, ", ")) else "Forbidden";
      Fail(Failure(Forbidden, message))
  }

  /** An unrestricted operation is allowed whatever the user holds. */
  lemma UnrestrictedIgnoresUser(required: Option<seq<RoleName>>, a: seq<Role>, b: seq<Role>, i18n: Option<Translator>)
    requires required.None? || required.value == []
    ensures CanActivate(required, a, i18n) == CanActivate(required, b, i18n) == Pass
  {
  }

  /** USER alone is refused an ADMIN operation; USER and ADMIN together
      are let through. */
  lemma AdminExamples(i18n: Option<Translator>)
    ensures CanActivate(Some([ADMIN]), [Role(1, USER)], i18n).Fail?
    ensures CanActivate(Some([ADMIN]), [Role(1, USER), Role(2, ADMIN)], i18n) == Pass
  {
    assert [Role(1, USER), Role(2, ADMIN)][1].name == ADMIN;
  }
}
