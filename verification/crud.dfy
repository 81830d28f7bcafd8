/**
 * The business handler shared by the report, storage-location and DNA-sample
 * endpoints: GET lists the table, POST creates one row from the body, any other
 * method answers 405.
 */
module Crud {
  import opened Wrappers
  import opened JsonValues
  import opened Schema
  import opened Http

  /**
   * Whether `prisma.<table>.create({ data: req.body })` succeeds: the data must be an
   * object, and `accepted` is the database's verdict on the row (column types,
   * constraints, connectivity).
   */
  predicate Insertable(body: Option<Json>, accepted: bool) {
    accepted && body.Some? && body.value.JObj?
  }

  function ListOrCreate(table: Table, t: Tables, req: Request, user: User, accepted: bool): (s: Step)
    // reading lists every row and changes nothing
    ensures req.verb == Some("GET") ==> s == Step(t, Answer(Reply(200, RowsBody(Rows(t, table)))))
    // a successful create adds exactly the body as one row of this table and nothing else
    ensures req.verb == Some("POST") && Insertable(req.body, accepted) ==>
              s.store == WithRows(t, table, Rows(t, table) + [req.body.value])
              && s.out == Answer(Reply(201, RowBody(req.body.value)))
    // a failed create throws before any response and leaves the store as it was
    ensures req.verb == Some("POST") && !Insertable(req.body, accepted) ==> s == Step(t, Thrown)
    ensures req.verb != Some("GET") && req.verb != Some("POST") ==> s == Step(t, Answer(MethodNotAllowed))
    // the handler never touches the audit table
    ensures s.store.audit == t.audit
  {
    if req.verb == Some("GET") then
      Step(t, Answer(Reply(200, RowsBody(Rows(t, table)))))
    else if req.verb == Some("POST") then
      if Insertable(req.body, accepted) then
        Step(WithRows(t, table, Rows(t, table) + [req.body.value]), Answer(Reply(201, RowBody(req.body.value))))
      else
        Step(t, Thrown)
    else
      Step(t, Answer(MethodNotAllowed))
  }
}
