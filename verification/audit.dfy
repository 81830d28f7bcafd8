/** The audit recorder: `logAudit` appends one row to the audit table. */
module Audit {
  import opened Wrappers
  import opened JsonValues
  import opened Schema

  /** `entityId || 0` */
  function DefaultEntityId(entityId: Option<Json>): (id: Json)
    // a truthy id is kept; every falsy one, `undefined` included, becomes the number 0
    ensures Truthy(entityId) ==> id == entityId.value
    ensures !Truthy(entityId) ==> id == JNum(0)
    ensures Truthy(Some(id)) <==> Truthy(entityId)
  {
    if Truthy(entityId) then entityId.value else JNum(0)
  }

  /** `details || {}` */
  function DefaultDetails(details: Option<Json>): (d: Json)
    // a truthy payload is kept; every falsy one becomes the empty object, so the result is never falsy
    ensures Truthy(details) ==> d == details.value
    ensures !Truthy(details) ==> d == EmptyObject
    ensures Truthy(Some(d))
  {
    if Truthy(details) then details.value else EmptyObject
  }

  /** The row `logAudit` asks the database to insert; `now` is the server's timestamp. */
  function Entry(entityType: string, entityId: Option<Json>, action: string, userId: nat,
                 details: Option<Json>, now: int): (row: AuditRow)
    ensures row.entity_type == entityType && row.action == action && row.performed_by == userId
    ensures row.timestamp == now
    ensures Truthy(entityId) ==> row.entity_id == entityId.value
    ensures !Truthy(entityId) ==> row.entity_id == JNum(0)
    ensures Truthy(details) ==> row.details == details.value
    ensures !Truthy(details) ==> row.details == EmptyObject
    // whatever was passed, the stored payload is never falsy
    ensures Truthy(Some(row.details))
  {
    AuditRow(entityType, DefaultEntityId(entityId), action, userId, DefaultDetails(details), now)
  }

  /**
   * `logAudit`: one insert into the audit table. `accepted` is the database's
   * verdict on the insert; a rejected insert is not caught, so the error
   * propagates (the second component is true) and nothing is written.
   */
  function LogAudit(t: Tables, entityType: string, entityId: Option<Json>, action: string, userId: nat,
                    details: Option<Json>, now: int, accepted: bool): (r: (Tables, bool))
    ensures r.1 <==> !accepted
    ensures |r.0.audit| == |t.audit| + (if accepted then 1 else 0)
    ensures r.0.audit[..|t.audit|] == t.audit
    ensures accepted ==> r.0.audit[|t.audit|] == Entry(entityType, entityId, action, userId, details, now)
    ensures r.0 == t.(audit := r.0.audit)
  {
    if accepted then (t.(audit := t.audit + [Entry(entityType, entityId, action, userId, details, now)]), false)
    else (t, true)
  }

  /** Defaulting twice, as the audit wrapper and `logAudit` do in turn, is the same as defaulting once. */
  lemma DefaultEntityIdIdempotent(entityId: Option<Json>)
    ensures DefaultEntityId(Some(DefaultEntityId(entityId))) == DefaultEntityId(entityId)
  {
  }
}
