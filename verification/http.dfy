/**
 * Requests, sessions and responses, and the session/user preamble that every
 * authenticated handler starts with.
 */
module Http {
  import opened Wrappers
  import opened JsonValues
  import opened Schema

  /** What the session provider returns: `session.user.email` may be missing. */
  datatype SessionUser = SessionUser(email: Option<string>)
  datatype Session = Session(user: Option<SessionUser>)

  /** `req.method` as `verb` and `req.body`; either may be undefined. */
  datatype Request = Request(verb: Option<string>, body: Option<Json>)

  /** A user row without `password_hash`, with its role included. */
  datatype PublicUser = PublicUser(
    user_id: nat,
    name: Option<string>,
    email: string,
    role_id: int,
    role: Option<Role>,
    two_factor_enabled: bool)

  /** base64("<user_id>:<now>"), kept symbolic. */
  datatype SessionToken = SessionToken(user_id: nat, issuedAt: int)

  /** The payload of the signed JWT; signature and expiry are not modelled. */
  datatype JwtPayload = JwtPayload(user_id: nat, role: string)

  datatype Body =
    | NoBody                                          // res.status(..).end()
    | ErrorBody(error: string)                        // { error }
    | MessageBody(message: string)                    // { message }
    | RowBody(row: Json)                              // a created row
    | RowsBody(rows: seq<Json>)                       // findMany
    | AuditBody(entries: seq<AuditRow>)
    | QrBody(qrCode: string)                          // { qrCode }
    | SessionBody(publicUser: PublicUser, sessionToken: SessionToken)
    | JwtBody(jwt: JwtPayload, user: User, role: Role)
    | UserBody(message: string, user: User)

  datatype Reply = Reply(status: nat, body: Body)

  /**
   * What a handler leaves behind: the response it set, if any, and whether an
   * exception escaped it (a response may already have been sent when that happens).
   */
  datatype Outcome = Outcome(reply: Option<Reply>, threw: bool)

  /** A handler's effect on the store together with its outcome. */
  datatype Step = Step(store: Tables, out: Outcome)

  /**
   * A wrapped route's effect: the store, the outcome and, when the business
   * handler was invoked, the user row it was invoked with.
   */
  datatype Served = Served(store: Tables, out: Outcome, handledAs: Option<User>)

  function Answer(r: Reply): Outcome {
    Outcome(Some(r), false)
  }

  const NoAnswer: Outcome := Outcome(None, false)
  const Thrown: Outcome := Outcome(None, true)

  const Unauthorized: Reply := Reply(401, ErrorBody("Unauthorized"))
  const UserNotFound: Reply := Reply(401, ErrorBody("User not found"))
  const Forbidden: Reply := Reply(403, ErrorBody("Forbidden: Insufficient permissions"))
  const MethodNotAllowed: Reply := Reply(405, NoBody)

  /** How far a session gets: none at all, no email on it, or a usable email. */
  datatype Identity = Anonymous | NoEmail | Known(email: string)

  /**
   * `requireAuth` followed by `!session || !session.user || !session.user.email`.
   * `requireAuth` itself answers 401 when there is no session or no session user;
   * a missing or empty email stops the request without any response.
   */
  function Identify(session: Option<Session>): (id: Identity)
    ensures id.Anonymous? <==> session.None? || session.value.user.None?
    ensures id.NoEmail? <==> session.Some? && session.value.user.Some?
                             && (session.value.user.value.email.None? || session.value.user.value.email.value == "")
    ensures id.Known? ==> session == Some(Session(Some(SessionUser(Some(id.email))))) && id.email != ""
  {
    match session
    case None => Anonymous
    case Some(Session(None)) => Anonymous
    case Some(Session(Some(SessionUser(email)))) =>
      if email.None? || email.value == "" then NoEmail else Known(email.value)
  }

  /** Either the request goes on with this user row, or it has already been answered. */
  datatype Gate = Admit(user: User) | Refuse(out: Outcome)

  /**
   * The preamble shared by `withRole`, `withAuditLogging` and the 2FA handlers:
   * resolve the session, then `prisma.user.findUnique({ where: { email } })`.
   */
  function Authenticate(t: Tables, session: Option<Session>): (g: Gate)
    ensures g.Admit? <==> Identify(session).Known? && Identify(session).email in t.users
    ensures g.Admit? ==> g.user == t.users[Identify(session).email]
    ensures Identify(session).Anonymous? ==> g == Refuse(Answer(Unauthorized))
    ensures Identify(session).NoEmail? ==> g == Refuse(NoAnswer)
    ensures Identify(session).Known? && Identify(session).email !in t.users ==> g == Refuse(Answer(UserNotFound))
    ensures g.Refuse? ==> !g.out.threw && g.out.reply != Some(Forbidden)
  {
    match Identify(session)
    case Anonymous => Refuse(Answer(Unauthorized))
    case NoEmail => Refuse(NoAnswer)
    case Known(email) =>
      if email in t.users then Admit(t.users[email]) else Refuse(Answer(UserNotFound))
  }
}
