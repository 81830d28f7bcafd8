/**
 * The rows of the relational store that the access-control, audit and account
 * code reads and writes, and the store itself as one value (`Tables`).
 */
module Schema {
  import opened Wrappers
  import opened JsonValues

  /** A row of the role table: static reference data ("Admin", "Scientific Officer", ...). */
  datatype Role = Role(role_id: int, role_name: string)

  /**
   * A bcrypt hash, kept symbolic: the password it was computed from and its cost
   * factor. Salt and digest bytes are not modelled; `BcryptCompare` accepts exactly
   * the password the hash was made from, compared as a whole string (bcrypt's
   * truncation to 72 bytes is not modelled).
   */
  datatype Credential = BcryptHash(password: string, cost: nat)

  /** `bcrypt.compare(password, hash)` */
  predicate BcryptCompare(password: string, hash: Credential) {
    hash.password == password
  }

  datatype User = User(
    user_id: nat,
    name: Option<string>,
    email: string,
    role_id: int,
    password_hash: Option<Credential>,
    two_factor_enabled: bool)

  /** An audit-trail row; `entity_id` and `details` are stored as the JSON values they were given. */
  datatype AuditRow = AuditRow(
    entity_type: string,
    entity_id: Json,
    action: string,
    performed_by: nat,
    details: Json,
    timestamp: int)

  /** The per-user two-factor record, keyed by `user_id`. */
  datatype TwoFactorAuth = TwoFactorAuth(
    user_id: nat,
    secret_key: string,
    is_enabled: bool,
    backup_codes: seq<string>)

  /** The key of an OAuth account link: (provider, provider_account_id). */
  datatype LinkKey = LinkKey(provider: string, provider_account_id: string)

  /** The three tables that the plain list/create endpoints write. */
  datatype Table = Reports | StorageLocations | DnaSamples

  /**
   * The whole store. Users are keyed by their unique email; `nextUserId` is the
   * auto-increment counter of the user table; `twoFA` is keyed by user id and
   * `links` by (provider, provider account id), the unique keys the handlers use.
   */
  datatype Tables = Tables(
    roles: seq<Role>,
    users: map<string, User>,
    nextUserId: nat,
    reports: seq<Json>,
    locations: seq<Json>,
    samples: seq<Json>,
    audit: seq<AuditRow>,
    twoFA: map<nat, TwoFactorAuth>,
    links: map<LinkKey, nat>)

  function EmptyStore(roles: seq<Role>): Tables {
    Tables(roles, map[], 1, [], [], [], [], map[], map[])
  }

  function Rows(t: Tables, table: Table): seq<Json> {
    match table
    case Reports => t.reports
    case StorageLocations => t.locations
    case DnaSamples => t.samples
  }

  function WithRows(t: Tables, table: Table, rows: seq<Json>): (t': Tables)
    ensures Rows(t', table) == rows
    ensures forall other :: other != table ==> Rows(t', other) == Rows(t, other)
    ensures t'.audit == t.audit && t'.users == t.users && t'.twoFA == t.twoFA && t'.links == t.links
    ensures t'.roles == t.roles && t'.nextUserId == t.nextUserId
  {
    match table
    case Reports => t.(reports := rows)
    case StorageLocations => t.(locations := rows)
    case DnaSamples => t.(samples := rows)
  }

  /** The role row a user's `role_id` refers to (`include: { role: true }`). */
  function RoleById(roles: seq<Role>, id: int): (r: Option<Role>)
    ensures r.Some? ==> r.value in roles && r.value.role_id == id
    ensures r.None? ==> forall i :: 0 <= i < |roles| ==> roles[i].role_id != id
  {
    if roles == [] then None
    else if roles[0].role_id == id then Some(roles[0])
    else RoleById(roles[1..], id)
  }

  /** The role row with a given name (`connect: { role_name: ... }`). */
  function RoleByName(roles: seq<Role>, name: string): (r: Option<Role>)
    ensures r.Some? ==> r.value in roles && r.value.role_name == name
    ensures r.None? ==> forall i :: 0 <= i < |roles| ==> roles[i].role_name != name
  {
    if roles == [] then None
    else if roles[0].role_name == name then Some(roles[0])
    else RoleByName(roles[1..], name)
  }

  /** `dbUser.role?.role_name` */
  function RoleNameOf(t: Tables, u: User): Option<string> {
    match RoleById(t.roles, u.role_id)
    case Some(r) => Some(r.role_name)
    case None => None
  }

  /**
   * The integrity the database itself enforces: users are filed under their own
   * email, ids are below the auto-increment counter and distinct, every user's
   * role exists, and each two-factor record is filed under its own user id.
   */
  ghost predicate Valid(t: Tables) {
    && (forall e :: e in t.users ==> t.users[e].email == e)
    && (forall e :: e in t.users ==> t.users[e].user_id < t.nextUserId)
    && (forall e1, e2 :: e1 in t.users && e2 in t.users && t.users[e1].user_id == t.users[e2].user_id ==> e1 == e2)
    && (forall e :: e in t.users ==> RoleById(t.roles, t.users[e].role_id).Some?)
    && (forall id :: id in t.twoFA ==> t.twoFA[id].user_id == id)
  }

  /** The auto-increment insert shared by every user `create`. */
  function InsertUser(t: Tables, name: Option<string>, email: string, roleId: int, hash: Option<Credential>): (t': Tables)
    ensures email in t'.users && t'.users == t.users[email := t'.users[email]]
    ensures t'.users[email] == User(t.nextUserId, name, email, roleId, hash, false)
    ensures t'.nextUserId == t.nextUserId + 1
    ensures t' == t.(users := t'.users, nextUserId := t'.nextUserId)
  {
    t.(users := t.users[email := User(t.nextUserId, name, email, roleId, hash, false)],
       nextUserId := t.nextUserId + 1)
  }

  /** A fresh user inserted with an existing role and a fresh email keeps the store valid. */
  lemma InsertUserPreservesValid(t: Tables, name: Option<string>, email: string, roleId: int, hash: Option<Credential>)
    requires Valid(t)
    requires email !in t.users
    requires RoleById(t.roles, roleId).Some?
    ensures Valid(InsertUser(t, name, email, roleId, hash))
  {
    var t' := InsertUser(t, name, email, roleId, hash);
    forall e1, e2 | e1 in t'.users && e2 in t'.users && t'.users[e1].user_id == t'.users[e2].user_id
      ensures e1 == e2
    {
      if e1 != email && e2 != email {
        assert t'.users[e1] == t.users[e1] && t'.users[e2] == t.users[e2];
      }
    }
  }
}
