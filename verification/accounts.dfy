/**
 * Account handlers: registration (both variants), password login (both variants)
 * and OAuth sign-in. The password hash, the tokens and the clock are symbolic
 * inputs; registration and OAuth sign-in insert into the user table, login only reads.
 */
module Accounts {
  import opened Wrappers
  import opened Schema
  import opened Http

  /** The destructured registration body of the route handler; `role_id` may be absent. */
  datatype RegisterForm = RegisterForm(name: Option<string>, email: string, password: string, role_id: Option<int>)

  /** The destructured body of the older handlers: `{ name, email, password }`. */
  datatype Credentials = Credentials(name: Option<string>, email: string, password: string)

  /** The destructured OAuth body: `{ provider, provider_account_id, email, name }`. */
  datatype OAuthProfile = OAuthProfile(provider: string, provider_account_id: string, email: string, name: Option<string>)

  /** `role_id = 4` when the body has none. */
  const DefaultRoleId: int := 4
  /** The older register handler's fixed `role_id: 1`. */
  const LegacyRoleId: int := 1
  /** The role every OAuth-created user is connected to. */
  const OAuthRoleName: string := "Scientific Officer"

  const AlreadyExists: Reply := Reply(400, ErrorBody("User already exists"))
  const ServerError: Reply := Reply(500, ErrorBody("Internal server error"))
  const InvalidCredentials: Reply := Reply(401, ErrorBody("Invalid credentials"))
  const InvalidEmailOrPassword: Reply := Reply(401, ErrorBody("Invalid email or password"))

  /** The user row as returned without its hash: `const { password_hash, ...rest } = user`. */
  function PublicView(t: Tables, u: User): (p: PublicUser)
    ensures p.user_id == u.user_id && p.email == u.email && p.name == u.name
    ensures p.role_id == u.role_id && p.two_factor_enabled == u.two_factor_enabled
    ensures p.role == RoleById(t.roles, u.role_id)
  {
    PublicUser(u.user_id, u.name, u.email, u.role_id, RoleById(t.roles, u.role_id), u.two_factor_enabled)
  }

  /**
   * `POST` of the registration route: refuse a known email with 400, otherwise hash
   * the password (cost 12) and insert the user; every exception is caught and becomes
   * 500. The role foreign key is the one insert failure modelled.
   */
  function RegisterRoute(t: Tables, form: RegisterForm, now: int): (s: Step)
    ensures !s.out.threw && s.out.reply.Some?
    ensures form.email in t.users ==> s == Step(t, Answer(AlreadyExists))
    ensures s.out.reply.value.status == 201 <==>
              form.email !in t.users && RoleById(t.roles, form.role_id.GetOr(DefaultRoleId)).Some?
    ensures s.out.reply.value.status == 201 ==>
              && s.store == InsertUser(t, form.name, form.email, form.role_id.GetOr(DefaultRoleId),
                                       Some(BcryptHash(form.password, 12)))
              && var u := s.store.users[form.email];
                 s.out.reply.value.body == SessionBody(PublicView(s.store, u), SessionToken(u.user_id, now))
    ensures s.out.reply.value.status != 201 ==> s.store == t
    ensures s.out.reply.value.status != 201 && form.email !in t.users ==> s.out.reply.value == ServerError
  {
    if form.email in t.users then
      Step(t, Answer(AlreadyExists))
    else
      var roleId := form.role_id.GetOr(DefaultRoleId);
      if RoleById(t.roles, roleId).None? then
        Step(t, Answer(ServerError))
      else
        var t' := InsertUser(t, form.name, form.email, roleId, Some(BcryptHash(form.password, 12)));
        var u := t'.users[form.email];
        Step(t', Answer(Reply(201, SessionBody(PublicView(t', u), SessionToken(u.user_id, now)))))
  }

  /**
   * `POST` of the login route. It only reads: the result is a response, never a new
   * store. An unknown email, a user without a hash and a wrong password all get the
   * same 401.
   */
  function LoginRoute(t: Tables, email: string, password: string, now: int): (o: Outcome)
    ensures !o.threw && o.reply.Some?
    ensures o.reply.value.status == 200 <==>
              email in t.users && t.users[email].password_hash.Some?
              && BcryptCompare(password, t.users[email].password_hash.value)
    ensures o.reply.value.status != 200 ==> o.reply.value == InvalidCredentials
    ensures o.reply.value.status == 200 ==>
              o.reply.value.body == SessionBody(PublicView(t, t.users[email]), SessionToken(t.users[email].user_id, now))
  {
    if email !in t.users || t.users[email].password_hash.None? then
      Answer(InvalidCredentials)
    else if !BcryptCompare(password, t.users[email].password_hash.value) then
      Answer(InvalidCredentials)
    else
      var u := t.users[email];
      Answer(Reply(200, SessionBody(PublicView(t, u), SessionToken(u.user_id, now))))
  }

  /**
   * The older login handler. Also read-only. Its token payload carries the user id
   * and role name, and it echoes the whole user row, `password_hash` included. A
   * user whose role row is missing makes `user.role.role_name` throw.
   */
  function LegacyLogin(t: Tables, verb: Option<string>, email: string, password: string): (o: Outcome)
    ensures verb != Some("POST") ==> o == Answer(MethodNotAllowed)
    ensures verb == Some("POST") && !(email in t.users && t.users[email].password_hash.Some?
                                      && BcryptCompare(password, t.users[email].password_hash.value)) ==>
              o == Answer(InvalidEmailOrPassword)
    // a passing check with an existing role row: 200, a token for the id and role name, and the whole row
    ensures verb == Some("POST") && email in t.users && t.users[email].password_hash.Some?
            && BcryptCompare(password, t.users[email].password_hash.value)
            && RoleById(t.roles, t.users[email].role_id).Some? ==>
              var u := t.users[email];
              var role := RoleById(t.roles, u.role_id).value;
              && o == Answer(Reply(200, JwtBody(JwtPayload(u.user_id, role.role_name), u, role)))
              && o.reply.value.body.user.password_hash == u.password_hash
    // and that is the only way to a 200
    ensures o.reply.Some? && o.reply.value.status == 200 ==>
              email in t.users && RoleById(t.roles, t.users[email].role_id).Some?
    ensures o.threw <==> verb == Some("POST") && email in t.users && t.users[email].password_hash.Some?
                         && BcryptCompare(password, t.users[email].password_hash.value)
                         && RoleById(t.roles, t.users[email].role_id).None?
  {
    if verb != Some("POST") then Answer(MethodNotAllowed)
    else if email !in t.users || t.users[email].password_hash.None? then Answer(InvalidEmailOrPassword)
    else if !BcryptCompare(password, t.users[email].password_hash.value) then Answer(InvalidEmailOrPassword)
    else
      var u := t.users[email];
      match RoleById(t.roles, u.role_id)
      case None => Thrown
      case Some(role) => Answer(Reply(200, JwtBody(JwtPayload(u.user_id, role.role_name), u, role)))
  }

  /**
   * The older register handler: no duplicate check and a fixed role 1, hash cost 10.
   * The database's unique email and the role foreign key still refuse the insert,
   * and that error is not caught.
   */
  function LegacyRegister(t: Tables, verb: Option<string>, c: Credentials): (s: Step)
    ensures verb != Some("POST") ==> s == Step(t, Answer(MethodNotAllowed))
    ensures verb == Some("POST") && (c.email in t.users || RoleById(t.roles, LegacyRoleId).None?) ==>
              s == Step(t, Thrown)
    ensures verb == Some("POST") && c.email !in t.users && RoleById(t.roles, LegacyRoleId).Some? ==>
              && s.store == InsertUser(t, c.name, c.email, LegacyRoleId, Some(BcryptHash(c.password, 10)))
              && s.out == Answer(Reply(201, UserBody("User registered", s.store.users[c.email])))
  {
    if verb != Some("POST") then Step(t, Answer(MethodNotAllowed))
    else if c.email in t.users || RoleById(t.roles, LegacyRoleId).None? then Step(t, Thrown)
    else
      var t' := InsertUser(t, c.name, c.email, LegacyRoleId, Some(BcryptHash(c.password, 10)));
      Step(t', Answer(Reply(201, UserBody("User registered", t'.users[c.email]))))
  }

  /**
   * OAuth sign-in: find the user by email or create one (role "Scientific Officer",
   * no password), then upsert the link keyed by (provider, account id) with an empty
   * update, so an existing link is kept even when it points at another user.
   */
  function OAuthSignIn(t: Tables, verb: Option<string>, p: OAuthProfile): (s: Step)
    ensures verb != Some("POST") ==> s == Step(t, Answer(MethodNotAllowed))
    ensures verb == Some("POST") && p.email !in t.users && RoleByName(t.roles, OAuthRoleName).None? ==>
              s == Step(t, Thrown)
    ensures verb == Some("POST") && (p.email in t.users || RoleByName(t.roles, OAuthRoleName).Some?) ==>
              var key := LinkKey(p.provider, p.provider_account_id);
              && p.email in s.store.users
              // an existing user is reused unchanged; otherwise exactly one is created
              && (p.email in t.users ==> s.store.users == t.users && s.store.nextUserId == t.nextUserId)
              && (p.email !in t.users ==>
                    s.store.(links := t.links) ==
                      InsertUser(t, p.name, p.email, RoleByName(t.roles, OAuthRoleName).value.role_id, None))
              // the link: kept if present, else pointing at the user found or created
              && (key in t.links ==> s.store.links == t.links)
              && (key !in t.links ==> s.store.links == t.links[key := s.store.users[p.email].user_id])
              && s.store == t.(users := s.store.users, nextUserId := s.store.nextUserId, links := s.store.links)
              && s.out == Answer(Reply(200, UserBody("OAuth login successful", s.store.users[p.email])))
  {
    if verb != Some("POST") then Step(t, Answer(MethodNotAllowed))
    else
      var found :=
        if p.email in t.users then Some(t)
        else match RoleByName(t.roles, OAuthRoleName)
          case None => None
          case Some(role) => Some(InsertUser(t, p.name, p.email, role.role_id, None));
      match found
      case None => Step(t, Thrown)
      case Some(t1) =>
        var user := t1.users[p.email];
        var key := LinkKey(p.provider, p.provider_account_id);
        var t2 := if key in t1.links then t1 else t1.(links := t1.links[key := user.user_id]);
        Step(t2, Answer(Reply(200, UserBody("OAuth login successful", user))))
  }

  /** Registering and then logging in with the same email and password succeeds, returning the same user view. */
  lemma RegisterThenLogin(t: Tables, form: RegisterForm, now: int, later: int)
    requires RegisterRoute(t, form, now).out.reply.value.status == 201
    ensures var t' := RegisterRoute(t, form, now).store;
            && LoginRoute(t', form.email, form.password, later).reply.value.status == 200
            && LoginRoute(t', form.email, form.password, later).reply.value.body.publicUser
               == RegisterRoute(t, form, now).out.reply.value.body.publicUser
  {
  }

  /** A second registration with the same email is refused with 400 and changes nothing. */
  lemma RegisterTwiceRefused(t: Tables, form: RegisterForm, again: RegisterForm, now: int, later: int)
    requires RegisterRoute(t, form, now).out.reply.value.status == 201
    requires again.email == form.email
    ensures var t' := RegisterRoute(t, form, now).store;
            RegisterRoute(t', again, later) == Step(t', Answer(AlreadyExists))
  {
  }

  /** A user created by OAuth has no password hash, so password login refuses it. */
  lemma OAuthUserCannotPasswordLogin(t: Tables, p: OAuthProfile, password: string, now: int)
    requires p.email !in t.users && RoleByName(t.roles, OAuthRoleName).Some?
    ensures var t' := OAuthSignIn(t, Some("POST"), p).store;
            LoginRoute(t', p.email, password, now) == Answer(InvalidCredentials)
  {
  }

  /** Repeating the same OAuth sign-in creates no further user or link. */
  lemma OAuthRepeatIsStable(t: Tables, p: OAuthProfile)
    requires !OAuthSignIn(t, Some("POST"), p).out.threw
    ensures var s1 := OAuthSignIn(t, Some("POST"), p);
            OAuthSignIn(s1.store, Some("POST"), p) == s1
  {
  }

  /** Registration keeps the store's integrity. */
  lemma RegisterPreservesValid(t: Tables, form: RegisterForm, now: int)
    requires Valid(t)
    ensures Valid(RegisterRoute(t, form, now).store)
  {
    if form.email !in t.users && RoleById(t.roles, form.role_id.GetOr(DefaultRoleId)).Some? {
      InsertUserPreservesValid(t, form.name, form.email, form.role_id.GetOr(DefaultRoleId), Some(BcryptHash(form.password, 12)));
    }
  }

  /** The older register handler keeps the store's integrity. */
  lemma LegacyRegisterPreservesValid(t: Tables, verb: Option<string>, c: Credentials)
    requires Valid(t)
    ensures Valid(LegacyRegister(t, verb, c).store)
  {
    if verb == Some("POST") && c.email !in t.users && RoleById(t.roles, LegacyRoleId).Some? {
      InsertUserPreservesValid(t, c.name, c.email, LegacyRoleId, Some(BcryptHash(c.password, 10)));
    }
  }

  /** OAuth sign-in keeps the store's integrity. */
  lemma OAuthPreservesValid(t: Tables, verb: Option<string>, p: OAuthProfile)
    requires Valid(t)
    ensures Valid(OAuthSignIn(t, verb, p).store)
  {
    if verb == Some("POST") && p.email !in t.users && RoleByName(t.roles, OAuthRoleName).Some? {
      var role := RoleByName(t.roles, OAuthRoleName).value;
      RoleByIdFindsListed(t.roles, role);
      InsertUserPreservesValid(t, p.name, p.email, role.role_id, None);
    }
  }

  /** A role row that is listed has its id found. */
  lemma {:induction false} RoleByIdFindsListed(roles: seq<Role>, role: Role)
    requires role in roles
    ensures RoleById(roles, role.role_id).Some?
  {
    if roles[0] != role {
      RoleByIdFindsListed(roles[1..], role);
    }
  }
}
