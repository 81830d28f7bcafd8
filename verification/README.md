# Forensic DNA archive: access control, audit trail and accounts

This project models the server-side core of a forensic DNA case-management
archive and proves properties of that model. The archive's endpoints are
built from two wrappers:

- `withRole` looks up the user row for the session email and lets the
  request through only when the row's role name is in the endpoint's list;
- `withAuditLogging` looks up the same row, runs the business handler, and
  after a POST, PUT or DELETE that returned, appends one row to the audit
  trail through `logAudit`.

The model covers:

- both wrappers and `logAudit`;
- the four endpoints composed from them (reports, storage locations, DNA
  samples, audit log);
- the three two-factor endpoints (setup, verify, disable);
- the account endpoints (the current register and login routes, the older
  register and login handlers, OAuth sign-in);
- the required-fields validator;
- the barcode generator.

Layout, one module per file unless noted:

- `wrappers.dfy`: `Option`.
- `json.dfy`: JSON values and JavaScript truthiness.
- `schema.dfy`: the tables, and the integrity predicate `Valid` that the database enforces.
- `http.dfy`: requests, sessions, responses, and the shared user lookup.
- `audit.dfy`: `logAudit`.
- `audit_read.dfy`: the audit-log reader and its handler.
- `crud.dfy`: the list/create handler of the three data endpoints.
- `middleware.dfy`: `withAuditLogging`.
- `rbac.dfy`: `withRole`.
- `routes.dfy`: the four endpoint compositions.
- `accounts.dfy`: the account endpoints.
- `two_factor.dfy`: the two-factor endpoints.
- `validators.dfy`: the required-fields validator.
- `barcode.dfy`: the barcode generator.
- `database.dfy`: the class `Db.Database`.

Every handler is first a function from a store value (`Schema.Tables`) to a
new store and an outcome. The outcome is a response, no response, or an
exception that propagated. The class `Db.Database` holds one field per table.
Its methods perform the handlers' steps in order: lookups, early returns,
inserts and in-place updates. Each method's postcondition equates the new
state and the outcome with the specification function applied to the old
state. The properties are proved as lemmas about those functions.

Outside behaviour is taken as input:

- the session is an `Option<Session>`;
- the clock reading and `Math.random()` are parameters;
- the generated 2FA secret and QR code are parameters;
- whether the database accepts an insert of a request body, or of an audit row, is a boolean of `Middleware.Env`;
- the TOTP check is a function parameter `accepts(secret, code)`.

bcrypt hashes are the symbolic value `BcryptHash(password, cost)`. `bcrypt.compare`
holds exactly when the password equals the hashed one, as a whole string (see
"Left out" for bcrypt's 72-byte limit). Session tokens and JWTs are
symbolic records of their payload.

The Prisma schema is not part of this model. The model assumes what the
handlers rely on:

- email is unique;
- a (provider, provider account id) pair is unique;
- a user's `role_id` must name an existing role;
- user ids come from an auto-increment counter starting at 1;
- `two_factor_enabled`, `is_enabled` and `backup_codes` default to `false`, `false` and `[]`.

## Model

| member | source | states |
|---|---|---|
| Http.Identify | src/lib/rbac.ts:8-9 | a session is refused outright when it is absent or has no user, and stops without a response when the user has no email or an empty one; otherwise that email is used |
| Http.Authenticate | src/lib/apiHandler.ts:9-19 | the request goes on exactly when the session email names a user row, and then with that row; no session gives 401, an unknown email 401 "User not found", a missing email no response; never 403 and never a throw |
| Rbac.Includes | src/lib/rbac.ts:23 | `requiredRoles.includes(name)` holds exactly when the name occurs in the list |
| Rbac.Authorize | src/lib/rbac.ts:21-23 | allowed exactly when the role name is present, non-empty and in the list; an empty list refuses everyone, and a user without a role is refused |
| Rbac.RoleGate | src/lib/rbac.ts:8-25 | refusals of the user lookup are kept; an admitted user whose role name fails `Authorize` gets 403 "Forbidden: Insufficient permissions"; otherwise the same user row goes on |
| Rbac.RunInner | src/lib/rbac.ts:27 | a bare handler runs as the row `withRole` fetched and writes no audit row; an audit-wrapped one runs exactly when its own lookup of the session email finds a row, and as that row |
| Rbac.WithRole | src/lib/rbac.ts:6-29 | a refused request is answered by the gate with the store unchanged and no handler run; an admitted one is exactly the wrapped handler run with the fetched user row |
| Audit.Entry | src/lib/audit.ts:17-25 | entity type, action and user id stored verbatim; a falsy entity id stored as 0; falsy details stored as `{}`, anything else unchanged; the stored details are never falsy |
| Audit.LogAudit | src/lib/audit.ts:4-26 | an accepted insert appends exactly one row, that entry, keeping every earlier row and every other table; a rejected one writes nothing and propagates the error |
| Audit.DefaultEntityIdIdempotent | src/lib/audit.ts:20 | applying the `|| 0` default to an id that was already defaulted changes nothing |
| Audit.DefaultEntityId | src/lib/audit.ts:20 | a truthy id is kept and every falsy one, `undefined` included, becomes 0, so the result is truthy exactly when the id was |
| Audit.DefaultDetails | src/lib/audit.ts:23 | a truthy payload is kept and every falsy one becomes `{}`, so the stored payload is never falsy |
| Middleware.Handle | src/lib/apiHandler.ts:21 | no business handler writes to the audit table |
| Middleware.IsWrite | src/lib/apiHandler.ts:24 | a write always has a method; a missing method and GET are never writes |
| Middleware.BodyEntityId | src/lib/apiHandler.ts:27 | the body's `id` when truthy, otherwise 0 (no body, a non-object body or no `id`); the default `logAudit` applies again changes nothing |
| Middleware.WriteEntry | src/lib/apiHandler.ts:25-31 | the audit row of a write carries the entity type, "method entityType", the user's id, the timestamp, the body's `id` when truthy or 0, and an object body verbatim as details |
| Middleware.ActionText | src/lib/apiHandler.ts:28 | the action is the method, one space, then the entity type, with nothing else |
| Middleware.WithAuditLogging | src/lib/apiHandler.ts:7-34 | a refused lookup runs nothing and writes nothing; a handler that throws, or a read, has only the handler's effect; a POST/PUT/DELETE that returned appends exactly one audit row when the insert is accepted, whatever status the handler set, and throws otherwise |
| Crud.ListOrCreate | src/app/api/reports/index.ts:6-20 | GET lists the table and writes nothing; a POST that is inserted adds exactly the body as one row of that table and answers 201 with it; a POST whose insert fails throws and writes nothing; any other method answers 405; the audit table is never touched |
| AuditLogRead.InsertByTime | src/app/api/audit/index.ts:8 | inserting into a newest-first sequence keeps it newest-first and adds exactly that row |
| AuditLogRead.SortNewestFirst | src/app/api/audit/index.ts:8 | the result is ordered newest timestamp first and is a permutation of the log |
| AuditLogRead.TailNotNewer | src/app/api/audit/index.ts:7-9 | in a newest-first sequence no row past a cut is newer than a row before it |
| AuditLogRead.Newest | src/app/api/audit/index.ts:7-10 | at most 100 rows (all of them when fewer), newest first, taken from the log, and no row left out is strictly newer than a row returned |
| AuditLogHandler.ReadAuditLog | src/app/api/audit/index.ts:5-16 | the store is unchanged; GET answers the newest rows, any other method 405 |
| Routes.Serve | src/lib/rbac.ts:6-29 | whenever the handler runs, it runs as the row found for the session email; a request it never saw leaves the store unchanged and does not throw |
| Routes.ServeRunsHandlerIffAdmitted | src/lib/rbac.ts:6-29 | on every route the handler runs exactly when the session is admitted by every gate, and with the row found for the session email; a refusal writes nothing and is answered by the gate that refused: 401, no response, or 403 |
| Routes.CrudRouteEffects | src/lib/apiHandler.ts:21-32 | for an admitted request on the three data endpoints: GET writes nothing; a successful POST adds the body and one audit row; a failing POST writes nothing; PUT and DELETE answer 405 yet are audited; other methods write nothing |
| Routes.ReportsAccess | src/app/api/reports/index.ts:23 | the report handler runs exactly for known users whose role is "Admin" or "Scientific Officer" |
| Routes.StorageAccess | src/app/api/storage/index.ts:22 | the storage-location handler runs exactly for known "Admin" users |
| Routes.SamplesAccess | src/app/api/samples/index.ts:19 | the sample handler runs for every known user, whatever the role |
| Routes.AuditLogRouteReads | src/app/api/audit/index.ts:18 | only "Admin" reaches the reader; the route never writes, not even an audit row; GET returns the newest rows, other methods 405 |
| Routes.ArchiveInChargeRefusedReports | src/app/api/reports/index.ts:23 | an "Archive In-Charge" user gets 403 from the report endpoint and nothing is written |
| Routes.ScientificOfficerRefusedStorage | src/app/api/storage/index.ts:22 | a "Scientific Officer" gets 403 from the storage endpoint and nothing is written |
| Routes.ReportPutStillAudited | src/app/api/reports/index.ts:19 | a PUT to the report endpoint answers 405 and leaves the reports alone, but appends one "PUT Report" audit row |
| Routes.ReportPostBloodSample | src/app/api/reports/index.ts:13-16 | a POST of a body without `id` adds that report and the audit row ("Report", 0, "POST Report", the user's id, the body) |
| Schema.WithRows | src/app/api/reports/index.ts:14 | replacing one data table leaves the other tables as they were |
| Schema.RoleById | src/lib/rbac.ts:12-15 | the role found by `include: { role: true }` is a listed role with that id; none is found only when no listed role has it |
| Schema.RoleByName | src/app/api/auth/oauth.ts:17 | the role found by `connect: { role_name }` is a listed role with that name; none only when no role has it |
| Schema.InsertUser | src/app/api/auth/register/route.ts:22-31 | a user create adds exactly one row under the email, with the next id and `two_factor_enabled` false, and advances the counter |
| Schema.InsertUserPreservesValid | src/app/api/auth/register/route.ts:22-31 | creating a new email's user with an existing role keeps the store's integrity |
| Accounts.PublicView | src/app/api/auth/register/route.ts:37 | the returned user carries the row's fields and its role, but no password hash |
| Accounts.RegisterRoute | src/app/api/auth/register/route.ts:5-48 | never throws; a known email gets 400 and no change; otherwise 201 exactly when the role exists, with one user inserted under the cost-12 hash, `role_id` defaulting to 4, and the hash-free view plus a token returned; every failure is 500 and changes nothing |
| Accounts.LoginRoute | src/app/api/auth/login/route.ts:5-41 | only reads; 200 exactly when the email is known, has a hash and the password matches, answering the hash-free view and a token; every other case gets the same 401 "Invalid credentials" |
| Accounts.LegacyLogin | src/app/api/auth/login.ts:9-27 | non-POST gets 405; an unknown email, a missing hash or a wrong password gets 401 "Invalid email or password"; a passing check answers 200 with a token signed over the user id and role name and the whole row, hash included, and is the only way to a 200; a user without a role row throws |
| Accounts.LegacyRegister | src/app/api/auth/register.ts:6-17 | non-POST gets 405; without a duplicate check, a known email or a missing role 1 makes the insert throw; otherwise one user with role 1 and a cost-10 hash, answered 201 "User registered" |
| Accounts.OAuthSignIn | src/app/api/auth/oauth.ts:5-33 | non-POST gets 405; an existing user is reused unchanged, else exactly one "Scientific Officer" user without a password is created (a missing role throws); an existing link is kept, a new one points at that user |
| Accounts.RegisterThenLogin | src/app/api/auth/login/route.ts:10-35 | after a successful registration, logging in with the same email and password succeeds and returns the same user view |
| Accounts.RegisterTwiceRefused | src/app/api/auth/register/route.ts:10-16 | registering the same email again gets 400 "User already exists" and changes nothing |
| Accounts.OAuthUserCannotPasswordLogin | src/app/api/auth/login/route.ts:15-17 | a user created by OAuth has no hash, so password login answers 401 |
| Accounts.OAuthRepeatIsStable | src/app/api/auth/oauth.ts:10-30 | repeating the same OAuth sign-in creates no further user or link and answers the same |
| Accounts.RegisterPreservesValid | src/app/api/auth/register/route.ts:10-31 | registration keeps the store's integrity: emails unique, ids distinct and below the counter, roles existing |
| Accounts.LegacyRegisterPreservesValid | src/app/api/auth/register.ts:11-14 | the older register keeps the store's integrity |
| Accounts.OAuthPreservesValid | src/app/api/auth/oauth.ts:10-30 | OAuth sign-in keeps the store's integrity, the created user's role included |
| Accounts.RoleByIdFindsListed | src/app/api/auth/oauth.ts:17 | the role connected by name can also be found by its id |
| TwoFactor.Preamble | src/app/api/auth/2fa/setup.ts:8-20 | non-POST gets 405 before any lookup; otherwise the shared user lookup decides |
| TwoFactor.Setup | src/app/api/auth/2fa/setup.ts:7-30 | afterwards the user has a record with the new secret: an existing record gets only the new secret, a new one starts disabled with no backup codes; no other record or table changes; the response is the QR code alone |
| TwoFactor.Verify | src/app/api/auth/2fa/verify.ts:7-38 | with a record whose secret accepts the code, only `is_enabled` becomes true; a missing record or a rejected code gets 400 "Invalid 2FA code" and no change |
| TwoFactor.Disable | src/app/api/auth/2fa/disable.ts:6-27 | the user's record gets `is_enabled` false, an empty secret and no backup codes; without a record nothing changes; the success message is sent either way |
| TwoFactor.OnlyOwnRecordChanges | src/app/api/auth/2fa/disable.ts:21-24 | none of the three endpoints changes another user's record or any other table |
| TwoFactor.DisableIdempotent | src/app/api/auth/2fa/disable.ts:21-24 | disabling twice is the same as disabling once |
| TwoFactor.VerifyIdempotent | src/app/api/auth/2fa/verify.ts:32-35 | verifying again after a successful verification changes nothing |
| TwoFactor.SetupThenVerifyEnables | src/app/api/auth/2fa/verify.ts:24-37 | after setup, a code accepted for the new secret enables the record under that secret |
| TwoFactor.SetupPreservesValid | src/app/api/auth/2fa/setup.ts:23-27 | setup keeps every record filed under its own user id |
| TwoFactor.VerifyPreservesValid | src/app/api/auth/2fa/verify.ts:32-35 | verify keeps every record filed under its own user id |
| TwoFactor.DisablePreservesValid | src/app/api/auth/2fa/disable.ts:21-24 | disable keeps every record filed under its own user id |
| JsonValues.Truthy | src/utils/validators.ts:5 | `undefined` and `null` are never truthy; every array and every object, even an empty one, is |
| JsonValues.Member | src/lib/apiHandler.ts:27 | `body?.id` is a value exactly when the body is an object with that key, and then it is that member |
| Validators.MissingFields | src/utils/validators.ts:2-8 | the fields whose value is falsy, never more than the fields listed |
| Validators.ValidateRequiredFields | src/utils/validators.ts:2-8 | the loop computes exactly `MissingFields` of the whole list |
| Validators.MissingFieldsMembers | src/utils/validators.ts:4-5 | a field is reported exactly when it is listed and its value is falsy |
| Validators.MissingFieldsAppend | src/utils/validators.ts:4-5 | order is kept: the result for a concatenation is the concatenation of the results |
| Validators.MissingFieldsCount | src/utils/validators.ts:4-5 | a falsy field listed n times is reported n times, a truthy one never |
| Validators.MissingFieldsEmptyBody | src/utils/validators.ts:3-7 | against an empty body every listed field is reported, in order |
| Barcode.Decimal | src/utils/barcode.ts:3 | `toString()` of a natural number is a non-empty string of digits |
| Barcode.DecimalNoLeadingZero | src/utils/barcode.ts:3 | the decimal string starts with '0' exactly when the number is 0 |
| Barcode.DecimalLengthAtLeast | src/utils/barcode.ts:3 | a number of at least 10^k has more than k digits |
| Barcode.TimePartWidth | src/utils/barcode.ts:3 | the time part is exactly six characters for a clock of at least 100000, and the whole decimal string for one below 1000000 |
| Barcode.Last | src/utils/barcode.ts:3 | for k > 0, `slice(-k)` is the last k characters, or the whole string when it is shorter |
| Barcode.PadStart | src/utils/barcode.ts:4 | `padStart` keeps the string at the end and fills the front with the pad character up to the width |
| Barcode.RandomNumber | src/utils/barcode.ts:4 | `Math.floor(Math.random() * 9999)` lies in 0..9998 |
| Barcode.ValueOfDecimal | src/utils/barcode.ts:3 | the decimal string reads back as the number |
| Barcode.DecimalLength | src/utils/barcode.ts:4 | a number below 10^k has at most k digits |
| Barcode.LeadingZeros | src/utils/barcode.ts:4 | left-padding with '0' keeps the numeric value |
| Barcode.LastDigitsValue | src/utils/barcode.ts:3 | the last k characters of a number's decimal string read back as its low k digits |
| Barcode.LowDigitsMod | src/utils/barcode.ts:3 | the k low decimal digits of a number are its remainder modulo 10^k |
| Barcode.TimePartDigits | src/utils/barcode.ts:3 | the time part is one to six digits reading as the clock modulo 1000000 |
| Barcode.RandomPartDigits | src/utils/barcode.ts:4 | the random part is exactly four digits reading as the random number |
| Barcode.BarcodeLayout | src/utils/barcode.ts:2-6 | the barcode is the prefix unchanged, '-', 1 to 6 digits worth the clock modulo 1000000 (exactly 6 from 100000 on), '-', then exactly 4 digits worth the random number |
| Db.Database.CreateUser | src/app/api/auth/register.ts:12-14 | the user create, in place: the new state is `InsertUser` of the old |
| Db.Database.LogAudit | src/lib/audit.ts:17-25 | the in-place append equals `Audit.LogAudit` of the old state |
| Db.Database.ListOrCreate | src/app/api/reports/index.ts:6-20 | the in-place handler equals `Crud.ListOrCreate` of the old state |
| Db.Database.ReadAuditLog | src/app/api/audit/index.ts:5-16 | the reader changes nothing and answers what `AuditLogHandler.ReadAuditLog` does |
| Db.Database.Handle | src/lib/apiHandler.ts:21 | dispatching to the business handler in place equals `Middleware.Handle` of the old state |
| Db.Database.WithAuditLogging | src/lib/apiHandler.ts:7-34 | the step-by-step wrapper equals `Middleware.WithAuditLogging` of the old state |
| Db.Database.WithRole | src/lib/rbac.ts:6-29 | the step-by-step wrapper equals `Rbac.WithRole` of the old state |
| Db.Database.Serve | src/app/api/samples/index.ts:19 | a request to a composed endpoint equals `Routes.Serve` of the old state |
| Db.Database.RegisterRoute | src/app/api/auth/register/route.ts:5-48 | check, hash and insert in place equal `Accounts.RegisterRoute` of the old state |
| Db.Database.LegacyRegister | src/app/api/auth/register.ts:6-17 | equals `Accounts.LegacyRegister` of the old state |
| Db.Database.OAuthSignIn | src/app/api/auth/oauth.ts:5-33 | find-or-create then link upsert in place equal `Accounts.OAuthSignIn` of the old state |
| Db.Database.SetupTwoFactor | src/app/api/auth/2fa/setup.ts:7-30 | the in-place upsert equals `TwoFactor.Setup` of the old state |
| Db.Database.VerifyTwoFactor | src/app/api/auth/2fa/verify.ts:7-38 | the in-place update equals `TwoFactor.Verify` of the old state |
| Db.Database.DisableTwoFactor | src/app/api/auth/2fa/disable.ts:6-27 | the in-place `updateMany` equals `TwoFactor.Disable` of the old state |

## Left out

- Session retrieval (`requireAuth` over next-auth) is not part of this model. Its result is the `Option<Session>` input. Its 401 for a missing session or session user is modelled as the answer `Unauthorized`.
- Schema.BcryptCompare, Accounts.LoginRoute, Accounts.LegacyLogin: bcrypt hashes and compares only the first 72 UTF-8 bytes of a password, so two passwords that agree on those bytes both pass `compare` against the same hash. The model compares whole strings, so its "200 exactly when the password matches" holds as stated only for passwords of at most 72 bytes.
- JSON numbers in request bodies and stored payloads are integers. Fractional values, such as a fractional report field or a fractional `id` that would become an audit row's `entity_id`, are not representable.
- Password hashing and comparison, JWT signing and base64 token minting are symbolic values. Their cryptography and the JWT expiry are not modelled.
- TOTP generation and verification and QR rendering are not part of this model. The verifier is a function parameter; the secret and the QR code are inputs.
- Column types and constraints of the report, storage-location and sample tables are not modelled. A body insert succeeds exactly when the body is an object and the `createAccepted` input says so. The audit insert is decided by `auditAccepted`.
- Database read failures are not modelled: the user lookups of `withRole`, `withAuditLogging`, the two-factor endpoints and the login routes, and the `findMany` of the list handlers, always return.
- Validators.MissingFields: the body is a map of its own keys. In JavaScript `body[field]` also finds inherited members such as `constructor` or `toString`, which are truthy and so never reported; the model reports them when the body lacks them. A `null` or missing body, on which the source throws, cannot be expressed.
- TwoFactor.Verify: the code is an `Option<Json>` read from the body. Destructuring `const { code } = req.body` throws on a `null` or missing body; that exception is not modelled.
- Database failures of the two-factor writes and of the OAuth link upsert (connectivity, constraint violations) are not modelled; those writes always succeed.
- The ids and defaults that the database assigns to report, location, sample and audit rows are not modelled. A created row is the request body itself.
- Request bodies of the account endpoints are typed inputs. Destructuring a missing body, and the `catch` that would turn it into a 500 in the register and login routes, are not modelled. The form's `role_id` is either absent, and then defaults to 4, or an integer. A `null` there, which the default would not replace, is not represented.
- Barcode.Decimal: `Date.now().toString()` is modelled for non-negative integers only. Negative clock values and the exponent notation that JavaScript uses for very large numbers are not modelled.
- Barcode.RandomNumber: `Math.random()` is an exact real in [0, 1), not a binary floating-point number.
- The ordering of audit rows with equal timestamps is the database's choice. `AuditLogRead.Newest` fixes one such order and states only what holds for every order.
- Concurrent requests are not modelled. Each request runs alone against one store, so the second user lookup in a composed route sees the same row as the first.
- Logging to the console, the remaining endpoints, the React pages, the seeding script and the error-handler utility are not part of this model.
