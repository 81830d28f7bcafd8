/** The audit wrapper `withAuditLogging` and the business handlers it can wrap. */
module Middleware {
  import opened Wrappers
  import opened JsonValues
  import opened Schema
  import opened Http
  import opened Audit
  import Crud
  import AuditLogHandler

  /** The business handlers of the wrapped endpoints. */
  datatype Handler = ListOrCreate(table: Table) | ReadAuditLog

  /** Inputs that stand for the outside world: the server clock and the database's verdicts on inserts. */
  datatype Env = Env(now: int, createAccepted: bool, auditAccepted: bool)

  function Handle(h: Handler, t: Tables, req: Request, user: User, createAccepted: bool): (s: Step)
    ensures s.store.audit == t.audit
  {
    match h
    case ListOrCreate(table) => Crud.ListOrCreate(table, t, req, user, createAccepted)
    case ReadAuditLog => AuditLogHandler.ReadAuditLog(t, req, user)
  }

  /** `["POST", "PUT", "DELETE"].includes(req.method || "")` */
  predicate IsWrite(verb: Option<string>)
    // a write always has a method name; a missing method (`|| ""`) and GET are never writes
    ensures IsWrite(verb) ==> verb.Some?
    ensures verb.None? || verb == Some("GET") ==> !IsWrite(verb)
  {
    verb == Some("POST") || verb == Some("PUT") || verb == Some("DELETE")
  }

  /** The `entityId` the wrapper passes: `req.body?.id || 0`. */
  function BodyEntityId(body: Option<Json>): (id: Option<Json>)
    ensures id.Some?
    // the body's `id` when truthy, else 0; no body, a non-object body or a missing `id` give 0
    ensures Truthy(Member(body, "id")) ==> id.value == Member(body, "id").value
    ensures !Truthy(Member(body, "id")) ==> id.value == JNum(0)
    // so the `|| 0` that `logAudit` applies again changes nothing
    ensures DefaultEntityId(id) == id.value
  {
    Some(DefaultEntityId(Member(body, "id")))
  }

  /** The action text: `${req.method} ${entityType}`. */
  function ActionText(verb: string, entityType: string): (a: string)
    ensures |a| == |verb| + 1 + |entityType|
    ensures a[..|verb|] == verb && a[|verb|] == ' ' && a[|verb| + 1..] == entityType
  {
    verb + " " + entityType
  }

  /** The row the wrapper records after a write request. */
  function WriteEntry(entityType: string, req: Request, user: User, now: int): (row: AuditRow)
    requires IsWrite(req.verb)
    // verbatim type, user and timestamp, the action "<method> <entityType>"
    ensures row.entity_type == entityType && row.performed_by == user.user_id && row.timestamp == now
    ensures row.action == req.verb.value + " " + entityType
    // the body's `id` when truthy, else 0
    ensures Truthy(Member(req.body, "id")) ==> row.entity_id == Member(req.body, "id").value
    ensures !Truthy(Member(req.body, "id")) ==> row.entity_id == JNum(0)
    // an object body is the details, verbatim
    ensures req.body.Some? && req.body.value.JObj? ==> row.details == req.body.value
  {
    Entry(entityType, BodyEntityId(req.body), ActionText(req.verb.value, entityType), user.user_id, req.body, now)
  }

  /**
   * `withAuditLogging(handler, entityType)`: authenticate, run the handler, and only
   * after it returns normally, for POST, PUT and DELETE, record one audit row,
   * whatever status the handler set.
   */
  function WithAuditLogging(h: Handler, entityType: string, t: Tables, req: Request,
                            session: Option<Session>, env: Env): (r: Served)
    // no session, no email or an unknown email: the handler is not run and nothing is written
    ensures Authenticate(t, session).Refuse? ==> r == Served(t, Authenticate(t, session).out, None)
    ensures Authenticate(t, session).Admit? ==>
              var user := Authenticate(t, session).user;
              var s := Handle(h, t, req, user, env.createAccepted);
              && r.handledAs == Some(user)
              && r.out.reply == s.out.reply
              // a throwing handler or a read: nothing beyond the handler's own effect
              && (s.out.threw || !IsWrite(req.verb) ==> r.store == s.store && r.out == s.out)
              // a write that returned: exactly one audit row more, unless the insert is rejected
              && (!s.out.threw && IsWrite(req.verb) ==>
                    && r.store == s.store.(audit := r.store.audit)
                    && r.store.audit == s.store.audit + (if env.auditAccepted then [WriteEntry(entityType, req, user, env.now)] else [])
                    && r.out.threw == !env.auditAccepted)
  {
    match Authenticate(t, session)
    case Refuse(out) => Served(t, out, None)
    case Admit(user) =>
      var s := Handle(h, t, req, user, env.createAccepted);
      if s.out.threw || !IsWrite(req.verb) then
        Served(s.store, s.out, Some(user))
      else
        var (store, threw) := LogAudit(s.store, entityType, BodyEntityId(req.body), ActionText(req.verb.value, entityType),
                                       user.user_id, req.body, env.now, env.auditAccepted);
        Served(store, Outcome(s.out.reply, threw), Some(user))
  }
}
