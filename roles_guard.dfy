/** The role gate of the auth library (roles.guard.js): a membership test
    of the caller's role in the route's required roles, failing closed when
    there is no caller or the caller carries no role. */
module RolesGuard {
  import opened Common

  /** Reflector.getAllAndOverride over [handler, class]: the handler's
      metadata when it declares any, else the class's. */
  function RequiredRoles(handlerRoles: Option<seq<Role>>, classRoles: Option<seq<Role>>): (r: Option<seq<Role>>)
    ensures handlerRoles.Some? ==> r == handlerRoles
    ensures handlerRoles.None? ==> r == classRoles
  {
    if handlerRoles.Some? then handlerRoles else classRoles
  }

  /** The role the guard reads off the request: `request.user?.role`. A
      request without a user and a user whose token carried no role both
      give None. */
  function RoleOf(user: Option<RequestUser>): (role: Option<Role>)
    ensures role.Some? <==> user.Some?
    ensures user.Some? ==> role.value == user.value.role
  {
    match user
    case None => None
    case Some(u) => Some(u.role)
  }

  /** The decision of canActivate once the metadata and the caller's role are known. */
  function Decide(requiredRoles: Option<seq<Role>>, userRole: Option<Role>): (allow: bool)
    ensures requiredRoles == None || requiredRoles == Some([]) ==> allow
    ensures requiredRoles.Some? && requiredRoles.value != [] && userRole == None ==> !allow
    ensures requiredRoles.Some? && requiredRoles.value != [] && userRole.Some? ==>
              (allow <==> userRole.value in requiredRoles.value)
  {
    match requiredRoles
    case None => true
    case Some(roles) =>
      if |roles| == 0 then true
      else match userRole
        case None => false
        case Some(r) => r in roles
  }

  /** canActivate: handler metadata before class metadata, then the decision. */
  function CanActivate(handlerRoles: Option<seq<Role>>, classRoles: Option<seq<Role>>,
                       user: Option<RequestUser>): (allow: bool)
    ensures handlerRoles.Some? && handlerRoles.value != [] ==>
              (allow <==> user.Some? && user.value.role in handlerRoles.value)
    ensures handlerRoles == Some([]) ==> allow
    ensures handlerRoles.None? ==> allow == Decide(classRoles, RoleOf(user))
  {
    Decide(RequiredRoles(handlerRoles, classRoles), RoleOf(user))
  }
}
