/**
 * The `/users` endpoints that carry logic of their own
 * (http/UserController.java): the registration guard chain and the outcome
 * mapping of the two confirmation links.
 */
module UserController {
  import opened Wrappers
  import opened Http
  import opened JavaText
  import opened TokenModel
  import opened UserModel
  import opened GeocodingService
  import opened Repositories
  import UserService

  const BarRequired := "El nombre del bar es obligatorio"
  const SignatureRequired := "La firma del propietario es obligatoria."
  const AddressRequired := "La dirección del bar es obligatoria para la geolocalización."
  const SpotifyKeysRequired := "Las claves de Spotify (Client Id/Secret) son obligatorias"
  const PasswordsDiffer := "Las contraseñas no coinciden"
  const PasswordTooShort := "La contraseña debe tener al menos 8 caracteres"
  const InvalidEmail := "Dirección de email inválida"
  const EncodingFailed := "Fallo al codificar la URL."
  const UnexpectedConfirmation := "Error inesperado en la confirmación: "

  /** `body.get(key)` on the request's `Map<String, String>`. */
  function Field(body: map<string, string>, key: string): (r: Option<string>)
    ensures r.Some? <==> key in body
    ensures r.Some? ==> r.value == body[key]
  {
    if key in body then Some(body[key]) else None
  }

  /** The arguments `register` hands to the service once every check passed. */
  datatype Registration = Registration(
    bar: string, email: string, pwd: string, clientId: string,
    clientSecret: string, address: string, signature: string)

  /** One guard of the chain: whether the request breaks it, and what the
      NOT_ACCEPTABLE answer then says. */
  datatype Rule = Rule(violated: bool, message: string)

  /** The guards of `register` as a table, in the order the code tests them. */
  function RegistrationRules(body: map<string, string>): (rules: seq<Rule>)
    ensures |rules| == 7
  {
    var pwd1, pwd2, email := Field(body, "pwd1"), Field(body, "pwd2"), Field(body, "email");
    [ Rule(MissingOrBlank(Field(body, "bar")), BarRequired),
      Rule(MissingOrBlank(Field(body, "signature")), SignatureRequired),
      Rule(MissingOrBlank(Field(body, "address")), AddressRequired),
      Rule(MissingOrBlank(Field(body, "clientId")) || MissingOrBlank(Field(body, "clientSecret")),
           SpotifyKeysRequired),
      Rule(pwd1.None? || pwd2.None? || pwd1 != pwd2, PasswordsDiffer),
      Rule(pwd1.Some? && Utf16Length(pwd1.value) < 8, PasswordTooShort),
      Rule(email.None? || '@' !in email.value || '.' !in email.value, InvalidEmail) ]
  }

  /** The message of the first rule the request breaks, if any. */
  function FirstViolation(rules: seq<Rule>): (m: Option<string>)
    ensures m.None? <==> forall i | 0 <= i < |rules| :: !rules[i].violated
    ensures m.Some? ==> exists i | 0 <= i < |rules| ::
              rules[i].violated && rules[i].message == m.value
              && forall j | 0 <= j < i :: !rules[j].violated
  {
    if rules == [] then None
    else if rules[0].violated then Some(rules[0].message)
    else
      var m := FirstViolation(rules[1..]);
      if m.Some? then
        var i :| 0 <= i < |rules[1..]| && rules[1..][i].violated && rules[1..][i].message == m.value
                 && forall j | 0 <= j < i :: !rules[1..][j].violated;
        assert rules[i + 1].violated && rules[i + 1].message == m.value;
        assert forall j | 0 <= j < i + 1 :: !rules[j].violated by {
          forall j | 0 <= j < i + 1 ensures !rules[j].violated {
            if j > 0 { assert rules[j] == rules[1..][j - 1]; }
          }
        }
        m
      else
        assert forall i | 0 <= i < |rules| :: !rules[i].violated by {
          forall i | 0 <= i < |rules| ensures !rules[i].violated {
            if i > 0 { assert rules[i] == rules[1..][i - 1]; }
          }
        }
        m
  }

  /** `register`'s guard chain: NOT_ACCEPTABLE at the first check that fails,
      otherwise the service arguments, with `pwd1` as the password. */
  function CheckRegistration(body: map<string, string>): (r: Result<Registration, Failure>)
    ensures r.Err? ==> r.error.StatusFailure? && r.error.status == NotAcceptable
    ensures r.Ok? ==> && "bar" in body && !IsBlank(body["bar"])
                      && "signature" in body && !IsBlank(body["signature"])
                      && "address" in body && !IsBlank(body["address"])
                      && "clientId" in body && !IsBlank(body["clientId"])
                      && "clientSecret" in body && !IsBlank(body["clientSecret"])
                      && "pwd1" in body && "pwd2" in body && body["pwd1"] == body["pwd2"]
                      && Utf16Length(body["pwd1"]) >= 8
                      && "email" in body && '@' in body["email"] && '.' in body["email"]
    ensures r.Ok? ==> r.value == Registration(body["bar"], body["email"], body["pwd1"],
                                              body["clientId"], body["clientSecret"],
                                              body["address"], body["signature"])
  {
    var bar, email := Field(body, "bar"), Field(body, "email");
    var pwd1, pwd2 := Field(body, "pwd1"), Field(body, "pwd2");
    var clientId, clientSecret := Field(body, "clientId"), Field(body, "clientSecret");
    var address, signature := Field(body, "address"), Field(body, "signature");
    if MissingOrBlank(bar) then Err(StatusFailure(NotAcceptable, BarRequired))
    else if MissingOrBlank(signature) then Err(StatusFailure(NotAcceptable, SignatureRequired))
    else if MissingOrBlank(address) then Err(StatusFailure(NotAcceptable, AddressRequired))
    else if MissingOrBlank(clientId) || MissingOrBlank(clientSecret) then
      Err(StatusFailure(NotAcceptable, SpotifyKeysRequired))
    else if pwd1.None? || pwd2.None? || pwd1.value != pwd2.value then
      Err(StatusFailure(NotAcceptable, PasswordsDiffer))
    else if Utf16Length(pwd1.value) < 8 then Err(StatusFailure(NotAcceptable, PasswordTooShort))
    else if email.None? || '@' !in email.value || '.' !in email.value then
      Err(StatusFailure(NotAcceptable, InvalidEmail))
    else Ok(Registration(bar.value, email.value, pwd1.value, clientId.value, clientSecret.value,
                         address.value, signature.value))
  }

  /** The guard chain answers with the first broken rule of the table, and
      accepts exactly the requests that break none. */
  lemma {:induction false} CheckRegistrationIsFirstViolation(body: map<string, string>)
    ensures CheckRegistration(body).Ok? <==> FirstViolation(RegistrationRules(body)).None?
    ensures CheckRegistration(body).Err? ==>
              CheckRegistration(body).error
                == StatusFailure(NotAcceptable, FirstViolation(RegistrationRules(body)).value)
  {
    var r0 := RegistrationRules(body);
    var r1, r2, r3 := r0[1..], r0[2..], r0[3..];
    var r4, r5, r6 := r0[4..], r0[5..], r0[6..];
    assert r1[1..] == r2 && r2[1..] == r3 && r3[1..] == r4 && r4[1..] == r5 && r5[1..] == r6;
    assert r6[1..] == [];
    assert FirstViolation(r6) == if r0[6].violated then Some(r0[6].message) else None;
    assert FirstViolation(r5) == if r0[5].violated then Some(r0[5].message) else FirstViolation(r6);
    assert FirstViolation(r4) == if r0[4].violated then Some(r0[4].message) else FirstViolation(r5);
    assert FirstViolation(r3) == if r0[3].violated then Some(r0[3].message) else FirstViolation(r4);
    assert FirstViolation(r2) == if r0[2].violated then Some(r0[2].message) else FirstViolation(r3);
    assert FirstViolation(r1) == if r0[1].violated then Some(r0[1].message) else FirstViolation(r2);
    assert FirstViolation(r0) == if r0[0].violated then Some(r0[0].message) else FirstViolation(r1);
  }

  /** `register`: 204 when the checks pass and the service stores the
      account built from the checked fields, next to the untouched rows of
      the other users; a rejected request leaves the tables untouched. */
  method Register(db: Database, body: map<string, string>, sha256: string -> Digest,
                  fetch: string -> Option<Coordinates>, freshId: Uuid, now: Millis)
      returns (r: Result<int, Failure>)
    requires db.Valid()
    requires freshId !in db.tokens
    modifies db`users, db`tokens
    ensures db.Valid()
    ensures CheckRegistration(body).Err? ==>
              r == Err(CheckRegistration(body).error) && unchanged(db)
    ensures CheckRegistration(body).Ok? ==>
              (r.Ok? <==> CheckRegistration(body).value.email !in old(db.users))
    ensures r.Ok? ==> r.value == 204 && CheckRegistration(body).value.email in db.users
    ensures r.Ok? ==> db.users[CheckRegistration(body).value.email].pwd
                        == EncryptedPassword(body["pwd1"], sha256)
    ensures r.Ok? ==> var a := CheckRegistration(body).value;
                      var u := db.users[a.email];
                      && fresh(u) && db.users == old(db.users)[a.email := u]
                      && u.email == a.email && u.bar == a.bar && u.clientId == a.clientId
                      && u.clientSecret == a.clientSecret && u.address == Some(a.address)
                      && u.signature == a.signature && u.spotifyAccessToken.None?
                      && u.lat == (if UserService.Geolocate(Some(a.address), fetch).Some?
                                   then Some(UserService.Geolocate(Some(a.address), fetch).value.lat) else None)
                      && u.lng == (if UserService.Geolocate(Some(a.address), fetch).Some?
                                   then Some(UserService.Geolocate(Some(a.address), fetch).value.lng) else None)
                      && u.creationToken != null && fresh(u.creationToken)
                      && u.creationToken.State() == TokenState(freshId, now, 0)
                      && db.tokens == old(db.tokens)[freshId := u.creationToken]
    ensures r.Err? && CheckRegistration(body).Ok? ==>
              r.error == StatusFailure(Conflict, UserService.EmailTaken) && unchanged(db)
  {
    var checked := CheckRegistration(body);
    if checked.Err? {
      return Err(checked.error);
    }
    var a := checked.value;
    var outcome := UserService.Register(db, a.bar, a.email, a.pwd, a.clientId, a.clientSecret,
                                        Some(a.address), a.signature, sha256, fetch, freshId, now);
    if outcome.Fail? {
      return Err(outcome.error);
    }
    return Ok(204);
  }

  /** An HTTP 302 answer. */
  datatype Redirect = Redirect(status: int, location: string)

  /** `confirmToken`: confirms the account, then redirects to the payment
      page with the URL-encoded token. The service's refusals pass through
      unchanged; a failing encoder is a 500 raised after the token is
      already consumed. */
  method ConfirmTokenLink(db: Database, frontUrl: string, email: string, token: string,
                          now: Millis, encode: string -> Option<string>)
      returns (r: Result<Redirect, Failure>)
    requires db.Valid()
    modifies db.CreationTokenFrame(email)
    ensures db.Valid()
    ensures r.Err? ==> r.error.StatusFailure?
    ensures email !in db.users ==> r == Err(StatusFailure(NotFound, UserService.NoSuchUser))
    ensures email in db.users && db.users[email].creationToken == null ==>
              r == Err(StatusFailure(NotAcceptable, UserService.NoCreationToken))
    ensures email in db.users && db.users[email].creationToken != null
            && old(db.users[email].creationToken.id) != token ==>
              r == Err(StatusFailure(NotAcceptable, UserService.WrongToken))
    ensures email in db.users && db.OwnsToken(email, token)
            && UserService.TokenCheck(old(db.users[email].creationToken.State()), now).Fail? ==>
              r == Err(UserService.TokenCheck(old(db.users[email].creationToken.State()), now).error)
    ensures email in db.users && db.OwnsToken(email, token)
            && UserService.TokenCheck(old(db.users[email].creationToken.State()), now).Pass?
            && encode(token).None? ==>
              r == Err(StatusFailure(InternalServerError, EncodingFailed))
    ensures r.Ok? <==> email in db.users && db.OwnsToken(email, token)
                       && UserService.TokenCheck(old(db.users[email].creationToken.State()), now).Pass?
                       && encode(token).Some?
    ensures r.Ok? ==> r.value == Redirect(302, frontUrl + "/payments?token=" + encode(token).value)
    ensures email in db.users && db.users[email].creationToken != null ==>
              db.users[email].creationToken.State()
                == if db.OwnsToken(email, token)
                      && UserService.TokenCheck(old(db.users[email].creationToken.State()), now).Pass?
                   then old(db.users[email].creationToken.State()).(useTime := now)
                   else old(db.users[email].creationToken.State())
  {
    var outcome := UserService.ConfirmToken(db, email, token, now);
    if outcome.Fail? {
      return Err(Translate(outcome.error, InternalServerError, UnexpectedConfirmation));
    }
    var enc := encode(token);
    if enc.None? {
      return Err(StatusFailure(InternalServerError, EncodingFailed));
    }
    return Ok(Redirect(302, frontUrl + "/payments?token=" + enc.value));
  }

  /** `confirm`: the JSON variant of the confirmation link, with the
      service's refusals passed through unchanged. */
  method Confirm(db: Database, email: string, token: string, now: Millis)
      returns (r: Result<map<string, string>, Failure>)
    requires db.Valid()
    modifies db.CreationTokenFrame(email)
    ensures db.Valid()
    ensures r.Err? ==> r.error.StatusFailure?
    ensures email !in db.users ==> r == Err(StatusFailure(NotFound, UserService.NoSuchUser))
    ensures email in db.users && db.users[email].creationToken == null ==>
              r == Err(StatusFailure(NotAcceptable, UserService.NoCreationToken))
    ensures email in db.users && db.users[email].creationToken != null
            && old(db.users[email].creationToken.id) != token ==>
              r == Err(StatusFailure(NotAcceptable, UserService.WrongToken))
    ensures email in db.users && db.OwnsToken(email, token)
            && UserService.TokenCheck(old(db.users[email].creationToken.State()), now).Fail? ==>
              r == Err(UserService.TokenCheck(old(db.users[email].creationToken.State()), now).error)
    ensures r.Ok? <==> email in db.users && db.OwnsToken(email, token)
                       && UserService.TokenCheck(old(db.users[email].creationToken.State()), now).Pass?
    ensures r.Ok? ==> r.value == map["status" := "ok", "message" := "Usuario confirmado"]
    ensures email in db.users && db.users[email].creationToken != null ==>
              db.users[email].creationToken.State()
                == if db.OwnsToken(email, token)
                      && UserService.TokenCheck(old(db.users[email].creationToken.State()), now).Pass?
                   then old(db.users[email].creationToken.State()).(useTime := now)
                   else old(db.users[email].creationToken.State())
  {
    var outcome := UserService.ConfirmToken(db, email, token, now);
    if outcome.Fail? {
      return Err(Translate(outcome.error, BadRequest, ""));
    }
    return Ok(map["status" := "ok", "message" := "Usuario confirmado"]);
  }
}
