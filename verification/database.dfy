/**
 * The database the handlers write to, as one object with a field per table. Each
 * method performs the handler's steps in order (lookups, early returns, inserts and
 * updates) and its contract ties the new state and the response to the functions
 * of the specification modules, whose properties are proved there.
 */
module Db {
  import opened Wrappers
  import opened JsonValues
  import opened Schema
  import opened Http
  import Audit
  import Crud
  import AuditLogRead
  import AuditLogHandler
  import Middleware
  import Rbac
  import Routes
  import Accounts
  import TwoFactor

  class Database {
    var roles: seq<Role>
    var users: map<string, User>
    var nextUserId: nat
    var reports: seq<Json>
    var locations: seq<Json>
    var samples: seq<Json>
    var audit: seq<AuditRow>
    var twoFA: map<nat, TwoFactorAuth>
    var links: map<LinkKey, nat>

    /** The whole store as a value. */
    function State(): Tables
      reads this
    {
      Tables(roles, users, nextUserId, reports, locations, samples, audit, twoFA, links)
    }

    /** A fresh database holding only the seeded role rows. */
    constructor (seededRoles: seq<Role>)
      ensures State() == EmptyStore(seededRoles)
    {
      roles := seededRoles;
      users := map[];
      nextUserId := 1;
      reports := [];
      locations := [];
      samples := [];
      audit := [];
      twoFA := map[];
      links := map[];
    }

    /** `prisma.user.create`: takes the next auto-increment id and files the row under its email. */
    method CreateUser(name: Option<string>, email: string, roleId: int, hash: Option<Credential>) returns (u: User)
      modifies this
      ensures State() == InsertUser(old(State()), name, email, roleId, hash)
      ensures u == State().users[email]
    {
      u := User(nextUserId, name, email, roleId, hash, false);
      users := users[email := u];
      nextUserId := nextUserId + 1;
    }

    /** `logAudit`: append one row; a rejected insert throws and writes nothing. */
    method LogAudit(entityType: string, entityId: Option<Json>, action: string, userId: nat,
                    details: Option<Json>, now: int, accepted: bool) returns (threw: bool)
      modifies this
      ensures (State(), threw) == Audit.LogAudit(old(State()), entityType, entityId, action, userId, details, now, accepted)
    {
      if !accepted {
        return true;
      }
      audit := audit + [Audit.Entry(entityType, entityId, action, userId, details, now)];
      threw := false;
    }

    /** The list-or-create handler of the report, storage-location and sample endpoints. */
    method ListOrCreate(table: Table, req: Request, user: User, accepted: bool) returns (out: Outcome)
      modifies this
      ensures Step(State(), out) == Crud.ListOrCreate(table, old(State()), req, user, accepted)
    {
      if req.verb == Some("GET") {
        out := Answer(Reply(200, RowsBody(Rows(State(), table))));
      } else if req.verb == Some("POST") {
        if !Crud.Insertable(req.body, accepted) {
          return Thrown;
        }
        var row := req.body.value;
        match table {
          case Reports => reports := reports + [row];
          case StorageLocations => locations := locations + [row];
          case DnaSamples => samples := samples + [row];
        }
        out := Answer(Reply(201, RowBody(row)));
      } else {
        out := Answer(MethodNotAllowed);
      }
    }

    /** The audit-log handler: a read, so nothing is modified. */
    method ReadAuditLog(req: Request, user: User) returns (out: Outcome)
      ensures Step(State(), out) == AuditLogHandler.ReadAuditLog(State(), req, user)
      ensures !out.threw && out.reply.Some?
    {
      if req.verb == Some("GET") {
        out := Answer(Reply(200, AuditBody(AuditLogRead.Newest(audit))));
      } else {
        out := Answer(MethodNotAllowed);
      }
    }

    method Handle(h: Middleware.Handler, req: Request, user: User, createAccepted: bool) returns (out: Outcome)
      modifies this
      ensures Step(State(), out) == Middleware.Handle(h, old(State()), req, user, createAccepted)
    {
      match h
      case ListOrCreate(table) => out := ListOrCreate(table, req, user, createAccepted);
      case ReadAuditLog => out := ReadAuditLog(req, user);
    }

    /** `withAuditLogging`: look the user up, run the handler, then record writes that returned. */
    method WithAuditLogging(h: Middleware.Handler, entityType: string, req: Request, session: Option<Session>,
                            env: Middleware.Env) returns (out: Outcome, handledAs: Option<User>)
      modifies this
      ensures Served(State(), out, handledAs) == Middleware.WithAuditLogging(h, entityType, old(State()), req, session, env)
    {
      var gate := Authenticate(State(), session);
      if gate.Refuse? {
        return gate.out, None;
      }
      var user := gate.user;
      out := Handle(h, req, user, env.createAccepted);
      handledAs := Some(user);
      if !out.threw && Middleware.IsWrite(req.verb) {
        var threw := LogAudit(entityType, Middleware.BodyEntityId(req.body),
                              Middleware.ActionText(req.verb.value, entityType),
                              user.user_id, req.body, env.now, env.auditAccepted);
        out := Outcome(out.reply, threw);
      }
    }

    /** `withRole`: look the user up, check the role name, then run the wrapped handler. */
    method WithRole(requiredRoles: seq<string>, inner: Rbac.Inner, req: Request, session: Option<Session>,
                    env: Middleware.Env) returns (out: Outcome, handledAs: Option<User>)
      modifies this
      ensures Served(State(), out, handledAs) == Rbac.WithRole(requiredRoles, inner, old(State()), req, session, env)
    {
      var gate := Rbac.RoleGate(requiredRoles, State(), session);
      if gate.Refuse? {
        return gate.out, None;
      }
      match inner
      case Audited(h, entityType) =>
        out, handledAs := WithAuditLogging(h, entityType, req, session, env);
      case Plain(h) =>
        out := Handle(h, req, gate.user, env.createAccepted);
        handledAs := Some(gate.user);
    }

    /** One request to one of the wrapped endpoints. */
    method Serve(route: Routes.Route, req: Request, session: Option<Session>, env: Middleware.Env)
      returns (out: Outcome, handledAs: Option<User>)
      modifies this
      ensures Served(State(), out, handledAs) == Routes.Serve(route, old(State()), req, session, env)
    {
      match route
      case RoleGated(requiredRoles, inner) =>
        out, handledAs := WithRole(requiredRoles, inner, req, session, env);
      case AuditedOnly(h, entityType) =>
        out, handledAs := WithAuditLogging(h, entityType, req, session, env);
    }

    /** The registration route: check, hash, insert; a failed insert is caught as 500. */
    method RegisterRoute(form: Accounts.RegisterForm, now: int) returns (out: Outcome)
      modifies this
      ensures Step(State(), out) == Accounts.RegisterRoute(old(State()), form, now)
    {
      if form.email in users {
        return Answer(Accounts.AlreadyExists);
      }
      var roleId := form.role_id.GetOr(Accounts.DefaultRoleId);
      if RoleById(roles, roleId).None? {
        return Answer(Accounts.ServerError);
      }
      var u := CreateUser(form.name, form.email, roleId, Some(BcryptHash(form.password, 12)));
      out := Answer(Reply(201, SessionBody(Accounts.PublicView(State(), u), SessionToken(u.user_id, now))));
    }

    /** The older register handler: an unconditional insert whose failure is not caught. */
    method LegacyRegister(verb: Option<string>, c: Accounts.Credentials) returns (out: Outcome)
      modifies this
      ensures Step(State(), out) == Accounts.LegacyRegister(old(State()), verb, c)
    {
      if verb != Some("POST") {
        return Answer(MethodNotAllowed);
      }
      if c.email in users || RoleById(roles, Accounts.LegacyRoleId).None? {
        return Thrown;
      }
      var u := CreateUser(c.name, c.email, Accounts.LegacyRoleId, Some(BcryptHash(c.password, 10)));
      out := Answer(Reply(201, UserBody("User registered", u)));
    }

    /** OAuth sign-in: find or create the user, then upsert the provider link with an empty update. */
    method OAuthSignIn(verb: Option<string>, p: Accounts.OAuthProfile) returns (out: Outcome)
      modifies this
      ensures Step(State(), out) == Accounts.OAuthSignIn(old(State()), verb, p)
    {
      if verb != Some("POST") {
        return Answer(MethodNotAllowed);
      }
      var user: User;
      if p.email in users {
        user := users[p.email];
      } else {
        var role := RoleByName(roles, Accounts.OAuthRoleName);
        if role.None? {
          return Thrown;
        }
        user := CreateUser(p.name, p.email, role.value.role_id, None);
      }
      var key := LinkKey(p.provider, p.provider_account_id);
      if key !in links {
        links := links[key := user.user_id];
      }
      out := Answer(Reply(200, UserBody("OAuth login successful", user)));
    }

    /** 2FA setup: upsert the caller's record with the new secret. */
    method SetupTwoFactor(verb: Option<string>, session: Option<Session>, secret: string, qrCode: string)
      returns (out: Outcome)
      modifies this
      ensures Step(State(), out) == TwoFactor.Setup(old(State()), verb, session, secret, qrCode)
    {
      var gate := TwoFactor.Preamble(State(), verb, session);
      if gate.Refuse? {
        return gate.out;
      }
      var id := gate.user.user_id;
      if id in twoFA {
        twoFA := twoFA[id := twoFA[id].(secret_key := secret)];
      } else {
        twoFA := twoFA[id := TwoFactorAuth(id, secret, false, [])];
      }
      out := Answer(Reply(200, QrBody(qrCode)));
    }

    /** 2FA verify: enable the caller's record when the code checks out. */
    method VerifyTwoFactor(verb: Option<string>, session: Option<Session>, code: Option<Json>,
                           accepts: (string, Option<Json>) -> bool) returns (out: Outcome)
      modifies this
      ensures Step(State(), out) == TwoFactor.Verify(old(State()), verb, session, code, accepts)
    {
      var gate := TwoFactor.Preamble(State(), verb, session);
      if gate.Refuse? {
        return gate.out;
      }
      var id := gate.user.user_id;
      if id !in twoFA || !accepts(twoFA[id].secret_key, code) {
        return Answer(TwoFactor.InvalidCode);
      }
      twoFA := twoFA[id := twoFA[id].(is_enabled := true)];
      out := Answer(TwoFactor.Verified);
    }

    /** 2FA disable: clear the caller's record, if there is one. */
    method DisableTwoFactor(verb: Option<string>, session: Option<Session>) returns (out: Outcome)
      modifies this
      ensures Step(State(), out) == TwoFactor.Disable(old(State()), verb, session)
    {
      var gate := TwoFactor.Preamble(State(), verb, session);
      if gate.Refuse? {
        return gate.out;
      }
      var id := gate.user.user_id;
      if id in twoFA {
        twoFA := twoFA[id := twoFA[id].(is_enabled := false, secret_key := "", backup_codes := [])];
      }
      out := Answer(TwoFactor.Disabled);
    }
  }
}
