/** The role gate `withRole`: a flat, closed-world membership test on the user's role name. */
module Rbac {
  import opened Wrappers
  import opened Schema
  import opened Http
  import opened Middleware

  /** `Array.prototype.includes` on a list of role names. */
  function Includes(names: seq<string>, name: string): (found: bool)
    ensures found <==> name in names
  {
    if names == [] then false
    else
      assert names == [names[0]] + names[1..];
      names[0] == name || Includes(names[1..], name)
  }

  /**
   * The decision `!userRole || !requiredRoles.includes(userRole)` negated: allow exactly
   * when the user has a role whose name is non-empty and listed. No role implies another.
   */
  function Authorize(requiredRoles: seq<string>, roleName: Option<string>): (allow: bool)
    ensures allow <==> roleName.Some? && roleName.value != "" && roleName.value in requiredRoles
    ensures requiredRoles == [] ==> !allow
  {
    match roleName
    case None => false
    case Some(name) => name != "" && Includes(requiredRoles, name)
  }

  /** Authentication followed by the role decision. */
  function RoleGate(requiredRoles: seq<string>, t: Tables, session: Option<Session>): (g: Gate)
    ensures g.Admit? <==> Authenticate(t, session).Admit?
                          && Authorize(requiredRoles, RoleNameOf(t, Authenticate(t, session).user))
    // on admission the handler gets exactly the row found for the session email
    ensures g.Admit? ==> g == Authenticate(t, session)
    ensures Authenticate(t, session).Refuse? ==> g == Authenticate(t, session)
    ensures Authenticate(t, session).Admit? && g.Refuse? ==> g.out == Answer(Forbidden)
  {
    match Authenticate(t, session)
    case Refuse(out) => Refuse(out)
    case Admit(user) =>
      if Authorize(requiredRoles, RoleNameOf(t, user)) then Admit(user) else Refuse(Answer(Forbidden))
  }

  /** What `withRole` can wrap: an audit-wrapped handler, or a bare one that receives the user. */
  datatype Inner = Audited(handler: Handler, entityType: string) | Plain(handler: Handler)

  function RunInner(inner: Inner, t: Tables, req: Request, session: Option<Session>, user: User, env: Env): (r: Served)
    // a bare handler runs as the user `withRole` fetched, and never writes an audit row
    ensures inner.Plain? ==> r.handledAs == Some(user) && r.store.audit == t.audit
    // an audit-wrapped one repeats the lookup itself: it runs as the row found for the session email, if any
    ensures inner.Audited? ==>
              (r.handledAs.Some? <==> Authenticate(t, session).Admit?)
              && (r.handledAs.Some? ==> r.handledAs == Some(Authenticate(t, session).user))
  {
    match inner
    case Audited(h, entityType) => WithAuditLogging(h, entityType, t, req, session, env)
    case Plain(h) =>
      var s := Handle(h, t, req, user, env.createAccepted);
      Served(s.store, s.out, Some(user))
  }

  /**
   * `withRole(requiredRoles, inner)`: a refused request is answered without running
   * the inner handler and without writing; an admitted one is exactly the inner run.
   */
  function WithRole(requiredRoles: seq<string>, inner: Inner, t: Tables, req: Request,
                    session: Option<Session>, env: Env): (r: Served)
    ensures RoleGate(requiredRoles, t, session).Refuse? ==>
              r == Served(t, RoleGate(requiredRoles, t, session).out, None)
    ensures RoleGate(requiredRoles, t, session).Admit? ==>
              r == RunInner(inner, t, req, session, RoleGate(requiredRoles, t, session).user, env)
  {
    match RoleGate(requiredRoles, t, session)
    case Refuse(out) => Served(t, out, None)
    case Admit(user) => RunInner(inner, t, req, session, user, env)
  }
}
