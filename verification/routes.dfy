/**
 * The concrete endpoints as their modules export them: each business handler
 * composed with the role gate and/or the audit wrapper.
 */
module Routes {
  import opened Wrappers
  import opened JsonValues
  import opened Schema
  import opened Http
  import opened AuditLogRead
  import opened Crud
  import opened Middleware
  import opened Rbac

  datatype Route =
    | RoleGated(requiredRoles: seq<string>, inner: Inner)
    | AuditedOnly(handler: Handler, entityType: string)

  /** `withRole(["Admin", "Scientific Officer"], withAuditLogging(handler, "Report"))` */
  const ReportsRoute: Route := RoleGated(["Admin", "Scientific Officer"], Audited(ListOrCreate(Reports), "Report"))
  /** `withRole(["Admin"], withAuditLogging(handler, "Storage Location"))` */
  const StorageRoute: Route := RoleGated(["Admin"], Audited(ListOrCreate(StorageLocations), "Storage Location"))
  /** `withAuditLogging(handler, "DNA Sample")`, with no role gate */
  const SamplesRoute: Route := AuditedOnly(ListOrCreate(DnaSamples), "DNA Sample")
  /** `withRole(["Admin"], handler)`, not audit-wrapped */
  const AuditLogRoute: Route := RoleGated(["Admin"], Plain(ReadAuditLog))

  function Serve(route: Route, t: Tables, req: Request, session: Option<Session>, env: Env): (r: Served)
    // whoever the handler runs as, it is the row found for the session email
    ensures r.handledAs.Some? ==> Authenticate(t, session).Admit? && r.handledAs == Some(Authenticate(t, session).user)
    // a request the handler never saw leaves the store as it was and does not throw
    ensures r.handledAs.None? ==> r.store == t && !r.out.threw
  {
    match route
    case RoleGated(roles, inner) => WithRole(roles, inner, t, req, session, env)
    case AuditedOnly(h, entityType) => WithAuditLogging(h, entityType, t, req, session, env)
  }

  /** Whether a request gets through every gate of the route. */
  predicate Admits(route: Route, t: Tables, session: Option<Session>) {
    && Authenticate(t, session).Admit?
    && (route.RoleGated? ==> Authorize(route.requiredRoles, RoleNameOf(t, Authenticate(t, session).user)))
  }

  predicate IsCrudRoute(route: Route) {
    route == ReportsRoute || route == StorageRoute || route == SamplesRoute
  }

  function CrudTable(route: Route): Table
    requires IsCrudRoute(route)
  {
    if route == ReportsRoute then Reports else if route == StorageRoute then StorageLocations else DnaSamples
  }

  function CrudEntity(route: Route): string
    requires IsCrudRoute(route)
  {
    if route == ReportsRoute then "Report" else if route == StorageRoute then "Storage Location" else "DNA Sample"
  }

  /**
   * On every route, the business handler runs exactly when the request is admitted,
   * and then with the row found for the session email (both wrappers look it up in
   * the same store). A refused request writes nothing and is answered by the gate
   * that refused it: 401 without a session or for an unknown email, no response for
   * a session without an email, 403 for a role outside the route's list.
   */
  lemma ServeRunsHandlerIffAdmitted(route: Route, t: Tables, req: Request, session: Option<Session>, env: Env)
    ensures var r := Serve(route, t, req, session, env);
            && (r.handledAs.Some? <==> Admits(route, t, session))
            && (r.handledAs.Some? ==> r.handledAs == Some(Authenticate(t, session).user))
            && (!Admits(route, t, session) ==> r.store == t && !r.out.threw)
            && (Authenticate(t, session).Refuse? ==> r.out == Authenticate(t, session).out)
            && (Authenticate(t, session).Admit? && !Admits(route, t, session) ==> r.out == Answer(Forbidden))
  {
    match route
    case RoleGated(roles, inner) =>
      if RoleGate(roles, t, session).Admit? {
        match inner
        case Audited(h, entityType) =>
          assert Authenticate(t, session).Admit?;
        case Plain(h) =>
      }
    case AuditedOnly(h, entityType) =>
  }

  /** The side effects of each method on the three list/create endpoints, for an admitted request. */
  lemma CrudRouteEffects(route: Route, t: Tables, req: Request, session: Option<Session>, env: Env)
    requires IsCrudRoute(route) && Admits(route, t, session)
    ensures var r := Serve(route, t, req, session, env);
            var user := Authenticate(t, session).user;
            var table := CrudTable(route);
            var logged := if env.auditAccepted && IsWrite(req.verb) then [WriteEntry(CrudEntity(route), req, user, env.now)] else [];
            // GET lists every row and writes nothing, not even an audit row
            && (req.verb == Some("GET") ==>
                  r.store == t && r.out == Answer(Reply(200, RowsBody(Rows(t, table)))))
            // a successful POST adds the body as one row, answers 201 and is audited once
            && (req.verb == Some("POST") && Insertable(req.body, env.createAccepted) ==>
                  && r.store == WithRows(t, table, Rows(t, table) + [req.body.value]).(audit := t.audit + logged)
                  && r.out == Outcome(Some(Reply(201, RowBody(req.body.value))), !env.auditAccepted))
            // a POST whose insert throws leaves neither a row nor an audit row
            && (req.verb == Some("POST") && !Insertable(req.body, env.createAccepted) ==>
                  r.store == t && r.out == Thrown)
            // PUT and DELETE answer 405 and change no row, yet are audited
            && ((req.verb == Some("PUT") || req.verb == Some("DELETE")) ==>
                  r.store == t.(audit := t.audit + logged)
                  && r.out == Outcome(Some(MethodNotAllowed), !env.auditAccepted))
            // anything else answers 405 and writes nothing
            && (!IsWrite(req.verb) && req.verb != Some("GET") ==>
                  r.store == t && r.out == Answer(MethodNotAllowed))
  {
    assert Authenticate(t, session).Admit?;
    if route.RoleGated? {
      assert RoleGate(route.requiredRoles, t, session).Admit?;
    }
  }

  /** Only "Admin" and "Scientific Officer" reach the report handler. */
  lemma ReportsAccess(t: Tables, req: Request, session: Option<Session>, env: Env)
    ensures Serve(ReportsRoute, t, req, session, env).handledAs.Some? <==>
              Authenticate(t, session).Admit?
              && RoleNameOf(t, Authenticate(t, session).user) in {Some("Admin"), Some("Scientific Officer")}
  {
    ServeRunsHandlerIffAdmitted(ReportsRoute, t, req, session, env);
  }

  /** Only "Admin" reaches the storage-location handler. */
  lemma StorageAccess(t: Tables, req: Request, session: Option<Session>, env: Env)
    ensures Serve(StorageRoute, t, req, session, env).handledAs.Some? <==>
              Authenticate(t, session).Admit? && RoleNameOf(t, Authenticate(t, session).user) == Some("Admin")
  {
    ServeRunsHandlerIffAdmitted(StorageRoute, t, req, session, env);
  }

  /** The sample endpoint has no role check: every known user reaches its handler, whatever the role. */
  lemma SamplesAccess(t: Tables, req: Request, session: Option<Session>, env: Env)
    ensures Serve(SamplesRoute, t, req, session, env).handledAs.Some? <==> Authenticate(t, session).Admit?
  {
    ServeRunsHandlerIffAdmitted(SamplesRoute, t, req, session, env);
  }

  /**
   * Only "Admin" reads the audit log; the read returns the newest 100 rows newest
   * first, and the route, having no audit wrapper, never writes anything.
   */
  lemma AuditLogRouteReads(t: Tables, req: Request, session: Option<Session>, env: Env)
    ensures var r := Serve(AuditLogRoute, t, req, session, env);
            && r.store == t
            && (r.handledAs.Some? <==>
                  Authenticate(t, session).Admit? && RoleNameOf(t, Authenticate(t, session).user) == Some("Admin"))
            && (r.handledAs.Some? && req.verb == Some("GET") ==> r.out == Answer(Reply(200, AuditBody(Newest(t.audit)))))
            && (r.handledAs.Some? && req.verb != Some("GET") ==> r.out == Answer(MethodNotAllowed))
  {
    ServeRunsHandlerIffAdmitted(AuditLogRoute, t, req, session, env);
  }

  /** A known "Archive In-Charge" user is refused by the report endpoint with 403 and nothing is written. */
  lemma ArchiveInChargeRefusedReports(t: Tables, req: Request, session: Option<Session>, env: Env)
    requires Authenticate(t, session).Admit?
    requires RoleNameOf(t, Authenticate(t, session).user) == Some("Archive In-Charge")
    ensures Serve(ReportsRoute, t, req, session, env) == Served(t, Answer(Forbidden), None)
  {
  }

  /** A known "Scientific Officer" is refused by the storage endpoint with 403 and nothing is written. */
  lemma ScientificOfficerRefusedStorage(t: Tables, req: Request, session: Option<Session>, env: Env)
    requires Authenticate(t, session).Admit?
    requires RoleNameOf(t, Authenticate(t, session).user) == Some("Scientific Officer")
    ensures Serve(StorageRoute, t, req, session, env) == Served(t, Answer(Forbidden), None)
  {
  }

  /** A PUT to the report endpoint answers 405 and changes no report, but is logged as "PUT Report". */
  lemma ReportPutStillAudited(t: Tables, body: Option<Json>, session: Option<Session>, env: Env)
    requires Admits(ReportsRoute, t, session) && env.auditAccepted
    ensures var r := Serve(ReportsRoute, t, Request(Some("PUT"), body), session, env);
            && r.out.reply == Some(MethodNotAllowed)
            && r.store.reports == t.reports
            && |r.store.audit| == |t.audit| + 1
            && r.store.audit[|t.audit|].action == "PUT Report"
            && r.store.audit[|t.audit|].entity_type == "Report"
  {
    CrudRouteEffects(ReportsRoute, t, Request(Some("PUT"), body), session, env);
  }

  /**
   * A POST of `{ sample_type: "Blood" }` to the report endpoint by an admitted user
   * leaves one audit row: "Report", "POST Report", that user's id, entity id 0 and
   * the body as details.
   */
  lemma ReportPostBloodSample(t: Tables, session: Option<Session>, env: Env)
    requires Admits(ReportsRoute, t, session) && env.createAccepted && env.auditAccepted
    ensures var body := JObj(map["sample_type" := JStr("Blood")]);
            var r := Serve(ReportsRoute, t, Request(Some("POST"), Some(body)), session, env);
            && r.store.reports == t.reports + [body]
            && r.store.audit == t.audit + [AuditRow("Report", JNum(0), "POST Report",
                                                    Authenticate(t, session).user.user_id, body, env.now)]
            && r.out == Answer(Reply(201, RowBody(body)))
  {
    var body := JObj(map["sample_type" := JStr("Blood")]);
    var req := Request(Some("POST"), Some(body));
    CrudRouteEffects(ReportsRoute, t, req, session, env);
    assert Member(req.body, "id") == None;
    assert ActionText("POST", "Report") == "POST Report";
  }
}
