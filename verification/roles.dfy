/**
 * The role guard: whether a request may reach a route, from the roles the
 * route's handler or controller class declares and the role of the request's
 * authenticated user.
 */
module Roles {
  import opened Common

  /** The authenticated user of a request; `role` is None when the token carries none. */
  datatype JwtPayload = JwtPayload(sub: string, username: string, role: Option<string>)

  /** The reflector's lookup: the handler's roles when declared, else the class's. */
  function RequiredRoles(handlerRoles: Option<seq<string>>, classRoles: Option<seq<string>>): (r: Option<seq<string>>)
    ensures handlerRoles.Some? ==> r == handlerRoles
    ensures handlerRoles.None? ==> r == classRoles
  {
    if handlerRoles.Some? then handlerRoles else classRoles
  }

  /** `roles.some(role => userRole === role)`. */
  function AnyMatches(roles: seq<string>, userRole: string): (r: bool)
    ensures r <==> userRole in roles
    decreases |roles|
  {
    if roles == [] then false
    else roles[0] == userRole || AnyMatches(roles[1..], userRole)
  }

  /** A present, non-empty role (`user.role` is truthy). */
  predicate HasRole(user: Option<JwtPayload>) {
    user.Some? && user.value.role.Some? && user.value.role.value != ""
  }

  /** `canActivate`. */
  function CanActivate(handlerRoles: Option<seq<string>>, classRoles: Option<seq<string>>, user: Option<JwtPayload>): (allowed: bool)
    ensures RequiredRoles(handlerRoles, classRoles).None? ==> allowed
    ensures RequiredRoles(handlerRoles, classRoles).Some? ==>
      (allowed <==> HasRole(user) && user.value.role.value in RequiredRoles(handlerRoles, classRoles).value)
  {
    var required := RequiredRoles(handlerRoles, classRoles);
    if required.None? then true
    else if !HasRole(user) then false
    else AnyMatches(required.value, user.value.role.value)
  }

  /** A route without role metadata admits every request, even an anonymous one. */
  lemma NoMetadataAllowsAll(user: Option<JwtPayload>)
    ensures CanActivate(None, None, user)
  {
  }

  /** A route that requires roles denies a request without a user or without a role. */
  lemma MissingRoleDenied(handlerRoles: Option<seq<string>>, classRoles: Option<seq<string>>, user: Option<JwtPayload>)
    requires handlerRoles.Some? || classRoles.Some?
    requires !HasRole(user)
    ensures !CanActivate(handlerRoles, classRoles, user)
  {
  }

  /** An empty role list is metadata all the same, and no role is in it: it denies everyone. */
  lemma EmptyRoleListDeniesAll(classRoles: Option<seq<string>>, user: Option<JwtPayload>)
    ensures !CanActivate(Some([]), classRoles, user)
  {
  }

  /** Roles on the handler override roles on the class, whatever the class declares. */
  lemma HandlerRolesOverrideClass(handlerRoles: seq<string>, classRoles: Option<seq<string>>, user: Option<JwtPayload>)
    ensures CanActivate(Some(handlerRoles), classRoles, user) == CanActivate(Some(handlerRoles), None, user)
  {
  }

  /** The decision depends on the user only through the role. */
  lemma OnlyTheRoleMatters(handlerRoles: Option<seq<string>>, classRoles: Option<seq<string>>, a: JwtPayload, b: JwtPayload)
    requires a.role == b.role
    ensures CanActivate(handlerRoles, classRoles, Some(a)) == CanActivate(handlerRoles, classRoles, Some(b))
  {
  }

  /** An ADMIN-only route admits an ADMIN and refuses a CLIENT. */
  lemma AdminOnlyRoute(sub: string, username: string)
    ensures CanActivate(Some(["ADMIN"]), None, Some(JwtPayload(sub, username, Some("ADMIN"))))
    ensures !CanActivate(Some(["ADMIN"]), None, Some(JwtPayload(sub, username, Some("CLIENT"))))
  {
  }
}
