/**
 * The two-factor endpoints: set up (store a fresh secret), verify (enable on an
 * accepted code) and disable (clear the record). The secret and QR code come from
 * the generator and the code check from the TOTP verifier; both are inputs here.
 */
module TwoFactor {
  import opened Wrappers
  import opened JsonValues
  import opened Schema
  import opened Http

  const InvalidCode: Reply := Reply(400, ErrorBody("Invalid 2FA code"))
  const Verified: Reply := Reply(200, MessageBody("2FA verified successfully"))
  const Disabled: Reply := Reply(200, MessageBody("Two-factor authentication disabled successfully"))

  /** The preamble of all three: 405 for any method but POST, then the session and user lookup. */
  function Preamble(t: Tables, verb: Option<string>, session: Option<Session>): (g: Gate)
    ensures verb != Some("POST") ==> g == Refuse(Answer(MethodNotAllowed))
    ensures verb == Some("POST") ==> g == Authenticate(t, session)
  {
    if verb != Some("POST") then Refuse(Answer(MethodNotAllowed)) else Authenticate(t, session)
  }

  /**
   * Setup: upsert the user's record with the freshly generated secret. A new record
   * starts disabled with no backup codes; an existing one only gets the new secret,
   * so an enabled record stays enabled. The response carries the QR code only.
   */
  function Setup(t: Tables, verb: Option<string>, session: Option<Session>, secret: string, qrCode: string): (s: Step)
    ensures Preamble(t, verb, session).Refuse? ==> s == Step(t, Preamble(t, verb, session).out)
    ensures Preamble(t, verb, session).Admit? ==>
              var id := Preamble(t, verb, session).user.user_id;
              && id in s.store.twoFA
              && s.store.twoFA[id].secret_key == secret
              && (id in t.twoFA ==> s.store.twoFA[id] == t.twoFA[id].(secret_key := secret))
              && (id !in t.twoFA ==> s.store.twoFA[id] == TwoFactorAuth(id, secret, false, []))
              && s.store == t.(twoFA := t.twoFA[id := s.store.twoFA[id]])
              && s.out == Answer(Reply(200, QrBody(qrCode)))
  {
    match Preamble(t, verb, session)
    case Refuse(out) => Step(t, out)
    case Admit(user) =>
      var id := user.user_id;
      var record := if id in t.twoFA then t.twoFA[id].(secret_key := secret) else TwoFactorAuth(id, secret, false, []);
      Step(t.(twoFA := t.twoFA[id := record]), Answer(Reply(200, QrBody(qrCode))))
  }

  /**
   * Verify: with a record whose secret the verifier accepts `code` for, set
   * `is_enabled`; a missing record and a rejected code get the same 400 and no change.
   */
  function Verify(t: Tables, verb: Option<string>, session: Option<Session>, code: Option<Json>,
                  accepts: (string, Option<Json>) -> bool): (s: Step)
    ensures Preamble(t, verb, session).Refuse? ==> s == Step(t, Preamble(t, verb, session).out)
    ensures Preamble(t, verb, session).Admit? ==>
              var id := Preamble(t, verb, session).user.user_id;
              if id in t.twoFA && accepts(t.twoFA[id].secret_key, code) then
                s == Step(t.(twoFA := t.twoFA[id := t.twoFA[id].(is_enabled := true)]), Answer(Verified))
              else
                s == Step(t, Answer(InvalidCode))
  {
    match Preamble(t, verb, session)
    case Refuse(out) => Step(t, out)
    case Admit(user) =>
      var id := user.user_id;
      if id !in t.twoFA || !accepts(t.twoFA[id].secret_key, code) then Step(t, Answer(InvalidCode))
      else Step(t.(twoFA := t.twoFA[id := t.twoFA[id].(is_enabled := true)]), Answer(Verified))
  }

  /**
   * Disable: `updateMany` over the user's records, clearing all three fields. A user
   * without a record gets the same success message and nothing changes.
   */
  function Disable(t: Tables, verb: Option<string>, session: Option<Session>): (s: Step)
    ensures Preamble(t, verb, session).Refuse? ==> s == Step(t, Preamble(t, verb, session).out)
    ensures Preamble(t, verb, session).Admit? ==>
              var id := Preamble(t, verb, session).user.user_id;
              && s.out == Answer(Disabled)
              && (id in t.twoFA ==> s.store == t.(twoFA := t.twoFA[id := TwoFactorAuth(t.twoFA[id].user_id, "", false, [])]))
              && (id !in t.twoFA ==> s.store == t)
  {
    match Preamble(t, verb, session)
    case Refuse(out) => Step(t, out)
    case Admit(user) =>
      var id := user.user_id;
      if id in t.twoFA then
        Step(t.(twoFA := t.twoFA[id := t.twoFA[id].(is_enabled := false, secret_key := "", backup_codes := [])]), Answer(Disabled))
      else
        Step(t, Answer(Disabled))
  }

  /** None of the three touches another user's record, or any table but the 2FA one. */
  lemma OnlyOwnRecordChanges(t: Tables, verb: Option<string>, session: Option<Session>, secret: string, qrCode: string,
                             code: Option<Json>, accepts: (string, Option<Json>) -> bool, other: nat)
    requires Preamble(t, verb, session).Admit? ==> other != Preamble(t, verb, session).user.user_id
    ensures var s := Setup(t, verb, session, secret, qrCode).store;
            s == t.(twoFA := s.twoFA) && (other in t.twoFA <==> other in s.twoFA) && (other in t.twoFA ==> s.twoFA[other] == t.twoFA[other])
    ensures var s := Verify(t, verb, session, code, accepts).store;
            s == t.(twoFA := s.twoFA) && (other in t.twoFA <==> other in s.twoFA) && (other in t.twoFA ==> s.twoFA[other] == t.twoFA[other])
    ensures var s := Disable(t, verb, session).store;
            s == t.(twoFA := s.twoFA) && (other in t.twoFA <==> other in s.twoFA) && (other in t.twoFA ==> s.twoFA[other] == t.twoFA[other])
  {
  }

  /** Disabling twice has the same effect as disabling once. */
  lemma DisableIdempotent(t: Tables, session: Option<Session>)
    ensures var once := Disable(t, Some("POST"), session);
            Disable(once.store, Some("POST"), session) == once
  {
    var once := Disable(t, Some("POST"), session);
    assert once.store.users == t.users;
    assert Authenticate(once.store, session) == Authenticate(t, session);
  }

  /** Verifying an enabled record again with an accepted code changes nothing. */
  lemma VerifyIdempotent(t: Tables, session: Option<Session>, code: Option<Json>, accepts: (string, Option<Json>) -> bool)
    requires Verify(t, Some("POST"), session, code, accepts).out == Answer(Verified)
    ensures var once := Verify(t, Some("POST"), session, code, accepts);
            Verify(once.store, Some("POST"), session, code, accepts) == once
  {
    var once := Verify(t, Some("POST"), session, code, accepts);
    assert once.store.users == t.users;
    assert Authenticate(once.store, session) == Authenticate(t, session);
  }

  /**
   * Setting up and then verifying a code the verifier accepts for the new secret
   * leaves the user with an enabled record under that secret.
   */
  lemma SetupThenVerifyEnables(t: Tables, session: Option<Session>, secret: string, qrCode: string,
                               code: Option<Json>, accepts: (string, Option<Json>) -> bool)
    requires Authenticate(t, session).Admit?
    requires accepts(secret, code)
    ensures var id := Authenticate(t, session).user.user_id;
            var s := Verify(Setup(t, Some("POST"), session, secret, qrCode).store, Some("POST"), session, code, accepts);
            && s.out == Answer(Verified)
            && id in s.store.twoFA && s.store.twoFA[id].is_enabled && s.store.twoFA[id].secret_key == secret
  {
    var s1 := Setup(t, Some("POST"), session, secret, qrCode);
    assert s1.store.users == t.users;
    assert Authenticate(s1.store, session) == Authenticate(t, session);
  }

  /** Setup keeps every record filed under its own user id. */
  lemma SetupPreservesValid(t: Tables, verb: Option<string>, session: Option<Session>, secret: string, qrCode: string)
    requires Valid(t)
    ensures Valid(Setup(t, verb, session, secret, qrCode).store)
  {
  }

  /** Verify keeps every record filed under its own user id. */
  lemma VerifyPreservesValid(t: Tables, verb: Option<string>, session: Option<Session>, code: Option<Json>,
                             accepts: (string, Option<Json>) -> bool)
    requires Valid(t)
    ensures Valid(Verify(t, verb, session, code, accepts).store)
  {
  }

  /** Disable keeps every record filed under its own user id. */
  lemma DisablePreservesValid(t: Tables, verb: Option<string>, session: Option<Session>)
    requires Valid(t)
    ensures Valid(Disable(t, verb, session).store)
  {
  }
}
