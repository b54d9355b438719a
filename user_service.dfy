/**
 * Account life cycle of a bar (services/UserService.java): registration with
 * geolocation, login, deletion, e-mail confirmation and password reset. Every
 * rejection is a `ResponseStatusException`, modelled as a `StatusFailure`.
 */
module UserService {
  import opened Wrappers
  import opened Http
  import opened JavaText
  import opened TokenModel
  import opened UserModel
  import opened GeocodingService
  import opened Repositories

  const EmailTaken := "El email ya está registrado"
  const BadCredentials := "No existe el usuario o la contraseña es incorrecta"
  const NotConfirmed := "El usuario no ha confirmado su email"
  const NoSuchUser := "No existe el usuario"
  const NoCreationToken := "El usuario no tiene token de creación"
  const WrongToken := "Token incorrecto"
  const TokenExpired := "Token caducado"
  const TokenUsed := "Token ya usado"
  const NoUserWithEmail := "No existe un usuario con ese email"
  const InvalidToken := "Token no válido"

  /** A confirmation or reset link is valid for 30 minutes. */
  const ExpiryMs := 30 * 60 * 1000

  /** The expiry and single-use checks shared by `confirmToken` and
      `resetPassword`; expiry is tested first. */
  function TokenCheck(t: TokenState, now: Millis): (r: Outcome<Failure>)
    ensures r.Pass? <==> now - ExpiryMs <= t.creationTime && !t.Used()
    ensures r.Fail? ==> r.error.StatusFailure? && r.error.status == Gone
    ensures r.Fail? ==> (r.error.reason == TokenExpired <==> t.creationTime < now - ExpiryMs)
    ensures !t.Used() ==> (r.Pass? <==> now <= t.creationTime + ExpiryMs)
  {
    if t.creationTime < now - ExpiryMs then Fail(StatusFailure(Gone, TokenExpired))
    else if t.Used() then Fail(StatusFailure(Gone, TokenUsed))
    else Pass
  }

  /** A token that has been consumed is refused by every later check, and
      an expired one stays expired. */
  lemma TokenCheckAfterUse(t: TokenState, usedAt: Millis, later: Millis)
    requires TokenCheck(t, usedAt).Pass?
    requires usedAt <= later
    ensures TokenCheck(t.(useTime := usedAt), later).Fail?
    ensures later - ExpiryMs <= t.creationTime ==>
              TokenCheck(t.(useTime := usedAt), later) == Fail(StatusFailure(Gone, TokenUsed))
  {
  }

  /** What registration stores as the bar's position: the geocoder's answer,
      asked only for an address that is present and not blank. */
  function Geolocate(address: Option<string>, fetch: string -> Option<Coordinates>): (r: Option<Coordinates>)
    ensures r.Some? ==> address.Some? && !IsBlank(address.value)
    ensures address.Some? && !IsBlank(address.value) ==> r == GetCoordinates(address.value, fetch)
  {
    if address.Some? && !IsBlank(address.value) then GetCoordinates(address.value, fetch) else None
  }

  /** The account `register` builds before saving it: the plain fields, the
      hashed password, the coordinates when found, and the new token. */
  method NewAccount(bar: string, email: string, pwd: string, clientId: string,
                    clientSecret: string, address: Option<string>, signature: string,
                    sha256: string -> Digest, fetch: string -> Option<Coordinates>,
                    freshId: Uuid, now: Millis)
      returns (u: User)
    ensures fresh(u) && u.creationToken != null && fresh(u.creationToken)
    ensures u.email == email && u.bar == bar && u.clientId == clientId
    ensures u.clientSecret == clientSecret && u.address == address && u.signature == signature
    ensures u.pwd == EncryptedPassword(pwd, sha256)
    ensures u.spotifyAccessToken.None?
    ensures u.lat == (if Geolocate(address, fetch).Some? then Some(Geolocate(address, fetch).value.lat) else None)
    ensures u.lng == (if Geolocate(address, fetch).Some? then Some(Geolocate(address, fetch).value.lng) else None)
    ensures u.creationToken.State() == TokenState(freshId, now, 0)
  {
    var creationToken := new Token(freshId, now);
    u := new User(email, bar, clientId, clientSecret, address, signature, creationToken);
    u.SetPwd(pwd, sha256);
    var coords := Geolocate(address, fetch);
    if coords.Some? {
      u.SetLat(Some(coords.value.lat));
      u.SetLng(Some(coords.value.lng));
    }
  }

  /** `register`: a new account with a hashed password, the address's
      coordinates when they can be found, and a fresh unused creation token
      saved with it. An e-mail that is already taken is a CONFLICT. */
  method Register(db: Database, bar: string, email: string, pwd: string, clientId: string,
                  clientSecret: string, address: Option<string>, signature: string,
                  sha256: string -> Digest, fetch: string -> Option<Coordinates>,
                  freshId: Uuid, now: Millis)
      returns (r: Outcome<Failure>)
    requires db.Valid()
    requires freshId !in db.tokens
    modifies db`users, db`tokens
    ensures db.Valid()
    ensures r.Fail? <==> email in old(db.users)
    ensures r.Fail? ==> r.error == StatusFailure(Conflict, EmailTaken)
    ensures r.Fail? ==> db.users == old(db.users) && db.tokens == old(db.tokens)
    ensures r.Pass? ==> email in db.users && fresh(db.users[email])
    ensures r.Pass? ==> db.users == old(db.users)[email := db.users[email]]
    ensures r.Pass? ==> db.users[email].creationToken != null
    ensures r.Pass? ==> db.tokens == old(db.tokens)[freshId := db.users[email].creationToken]
    ensures r.Pass? ==> var u := db.users[email];
      && u.email == email && u.bar == bar && u.clientId == clientId
      && u.clientSecret == clientSecret && u.address == address && u.signature == signature
      && u.pwd == EncryptedPassword(pwd, sha256)
      && u.spotifyAccessToken.None?
      && u.lat == (if Geolocate(address, fetch).Some? then Some(Geolocate(address, fetch).value.lat) else None)
      && u.lng == (if Geolocate(address, fetch).Some? then Some(Geolocate(address, fetch).value.lng) else None)
      && fresh(u.creationToken)
      && u.creationToken.State() == TokenState(freshId, now, 0)
  {
    if email in db.users {
      return Fail(StatusFailure(Conflict, EmailTaken));
    }
    var user := NewAccount(bar, email, pwd, clientId, clientSecret, address, signature,
                           sha256, fetch, freshId, now);
    db.users := db.users[email := user];
    db.tokens := db.tokens[freshId := user.creationToken];
    forall e | e in db.users && db.users[e].creationToken != null
      ensures db.users[e].creationToken in db.tokens.Values
    {
      assert db.tokens[db.users[e].creationToken.id] == db.users[e].creationToken;
    }
    return Pass;
  }

  /** `login`: the same FORBIDDEN answer for an unknown e-mail and for a
      wrong password, then NOT_ACCEPTABLE while the e-mail is unconfirmed. */
  method Login(db: Database, email: string, pwd: string, sha256: string -> Digest)
      returns (r: Result<User, Failure>)
    requires db.Valid()
    ensures r.Ok? <==> email in db.users && db.users[email].pwd == EncryptedPassword(pwd, sha256)
                       && (db.users[email].creationToken == null || db.users[email].creationToken.IsUsed())
    ensures r.Ok? ==> r.value == db.users[email]
    ensures email !in db.users ==> r == Err(StatusFailure(Forbidden, BadCredentials))
    ensures email in db.users && db.users[email].pwd != EncryptedPassword(pwd, sha256) ==>
              r == Err(StatusFailure(Forbidden, BadCredentials))
    ensures r.Err? && r.error != StatusFailure(Forbidden, BadCredentials) ==>
              r.error == StatusFailure(NotAcceptable, NotConfirmed)
  {
    if email !in db.users {
      return Err(StatusFailure(Forbidden, BadCredentials));
    }
    var user := db.users[email];
    var encryptedPwd := user.EncryptPassword(pwd, sha256);
    if encryptedPwd != user.pwd {
      return Err(StatusFailure(Forbidden, BadCredentials));
    }
    var token := user.creationToken;
    if token != null && !token.IsUsed() {
      return Err(StatusFailure(NotAcceptable, NotConfirmed));
    }
    return Ok(user);
  }

  /** Two passwords give the same stored hash exactly when their digests
      agree, so login accepts precisely the passwords whose digest is the
      registered one. */
  lemma SameHashIffSameDigest(a: string, b: string, sha256: string -> Digest)
    ensures EncryptedPassword(a, sha256) == EncryptedPassword(b, sha256) <==> sha256(a) == sha256(b)
  {
    if EncryptedPassword(a, sha256) == EncryptedPassword(b, sha256) {
      HexEncodeInjective(sha256(a), sha256(b));
    }
  }

  /** `delete`: NOT_FOUND for an unknown e-mail; otherwise the account goes,
      and with it (cascade) its creation token. */
  method Delete(db: Database, email: string) returns (r: Outcome<Failure>)
    requires db.Valid()
    modifies db`users, db`tokens
    ensures db.Valid()
    ensures r.Fail? <==> email !in old(db.users)
    ensures r.Fail? ==> r.error == StatusFailure(NotFound, NoSuchUser)
    ensures r.Fail? ==> db.users == old(db.users) && db.tokens == old(db.tokens)
    ensures r.Pass? ==> db.users == old(db.users) - {email}
    ensures r.Pass? && old(db.users[email].creationToken) != null ==>
              db.tokens == old(db.tokens) - {old(db.users[email].creationToken.id)}
    ensures r.Pass? && old(db.users[email].creationToken) == null ==> db.tokens == old(db.tokens)
  {
    if email !in db.users {
      return Fail(StatusFailure(NotFound, NoSuchUser));
    }
    var token := db.users[email].creationToken;
    db.TokenRowsOfOthers(email);
    db.users := db.users - {email};
    if token != null {
      db.tokens := db.tokens - {token.id};
    }
    forall e | e in db.users && db.users[e].creationToken != null
      ensures db.users[e].creationToken in db.tokens.Values
    {
      assert db.tokens[db.users[e].creationToken.id] == db.users[e].creationToken;
    }
    return Pass;
  }

  /** `confirmToken`: the link's id must be the user's own creation token,
      unexpired and unused; it is then stamped as used, and nothing else
      changes. */
  method ConfirmToken(db: Database, email: string, tokenId: string, now: Millis)
      returns (r: Outcome<Failure>)
    requires db.Valid()
    modifies db.CreationTokenFrame(email)
    ensures db.Valid()
    ensures r.Fail? ==> r.error.StatusFailure?
    ensures email !in db.users ==> r == Fail(StatusFailure(NotFound, NoSuchUser))
    ensures email in db.users && db.users[email].creationToken == null ==>
              r == Fail(StatusFailure(NotAcceptable, NoCreationToken))
    ensures email in db.users && db.users[email].creationToken != null
            && old(db.users[email].creationToken.id) != tokenId ==>
              r == Fail(StatusFailure(NotAcceptable, WrongToken))
    ensures r.Pass? <==> email in db.users && db.OwnsToken(email, tokenId)
                         && TokenCheck(old(db.users[email].creationToken.State()), now).Pass?
    ensures email in db.users && db.OwnsToken(email, tokenId)
            && TokenCheck(old(db.users[email].creationToken.State()), now).Fail? ==>
              r == TokenCheck(old(db.users[email].creationToken.State()), now)
    ensures r.Pass? ==> db.users[email].creationToken.State()
                          == old(db.users[email].creationToken.State()).(useTime := now)
    ensures r.Fail? ==> email in db.users && db.users[email].creationToken != null ==>
              db.users[email].creationToken.State() == old(db.users[email].creationToken.State())
  {
    if email !in db.users {
      return Fail(StatusFailure(NotFound, NoSuchUser));
    }
    var user := db.users[email];
    var userToken := user.creationToken;
    if userToken == null {
      return Fail(StatusFailure(NotAcceptable, NoCreationToken));
    }
    if userToken.id != tokenId {
      return Fail(StatusFailure(NotAcceptable, WrongToken));
    }
    var check := TokenCheck(userToken.State(), now);
    if check.Fail? {
      return check;
    }
    userToken.Use(now);
    return Pass;
  }

  /** `createPasswordResetToken`: a fresh unused token, not tied to any
      user, whose id is returned for the reset link. */
  method CreatePasswordResetToken(db: Database, email: string, freshId: Uuid, now: Millis)
      returns (r: Result<Uuid, Failure>)
    requires db.Valid()
    requires freshId !in db.tokens
    modifies db`tokens
    ensures db.Valid()
    ensures r.Err? <==> email !in db.users
    ensures r.Err? ==> r.error == StatusFailure(NotFound, NoUserWithEmail) && db.tokens == old(db.tokens)
    ensures r.Ok? ==>
      && r.value == freshId && freshId in db.tokens && fresh(db.tokens[freshId])
      && db.tokens == old(db.tokens)[freshId := db.tokens[freshId]]
      && db.tokens[freshId].State() == TokenState(freshId, now, 0)
  {
    if email !in db.users {
      return Err(StatusFailure(NotFound, NoUserWithEmail));
    }
    var token := new Token(freshId, now);
    db.tokens := db.tokens[freshId := token];
    forall e | e in db.users && db.users[e].creationToken != null
      ensures db.users[e].creationToken in db.tokens.Values
    {
      assert db.tokens[db.users[e].creationToken.id] == db.users[e].creationToken;
    }
    return Ok(freshId);
  }

  /** `resetPassword`: any unexpired, unused row of the token table
      authorises a new password for the given user, and is consumed. */
  method ResetPassword(db: Database, email: string, tokenId: string, newPwd: string,
                       sha256: string -> Digest, now: Millis)
      returns (r: Outcome<Failure>)
    requires db.Valid()
    modifies (if email in db.users then {db.users[email]} else {})`pwd
    modifies (if tokenId in db.tokens then {db.tokens[tokenId]} else {})`useTime
    ensures db.Valid()
    ensures email !in db.users ==> r == Fail(StatusFailure(NotFound, NoUserWithEmail))
    ensures email in db.users && tokenId !in db.tokens ==> r == Fail(StatusFailure(NotFound, InvalidToken))
    ensures r.Pass? <==> email in db.users && tokenId in db.tokens
                         && TokenCheck(old(db.tokens[tokenId].State()), now).Pass?
    ensures email in db.users && tokenId in db.tokens
            && TokenCheck(old(db.tokens[tokenId].State()), now).Fail? ==>
              r == TokenCheck(old(db.tokens[tokenId].State()), now)
    ensures r.Pass? ==> db.users[email].pwd == EncryptedPassword(newPwd, sha256)
    ensures r.Pass? ==> db.tokens[tokenId].State() == old(db.tokens[tokenId].State()).(useTime := now)
    ensures r.Pass? ==> forall e | e in db.users && db.OwnsToken(e, tokenId) ::
                          db.users[e].creationToken.IsUsed()
    ensures r.Fail? && email in db.users ==> db.users[email].pwd == old(db.users[email].pwd)
    ensures r.Fail? && tokenId in db.tokens ==> db.tokens[tokenId].State() == old(db.tokens[tokenId].State())
  {
    if email !in db.users {
      return Fail(StatusFailure(NotFound, NoUserWithEmail));
    }
    var user := db.users[email];
    if tokenId !in db.tokens {
      return Fail(StatusFailure(NotFound, InvalidToken));
    }
    var token := db.tokens[tokenId];
    var check := TokenCheck(token.State(), now);
    if check.Fail? {
      return check;
    }
    user.SetPwd(newPwd, sha256);
    token.Use(now);
    forall e | e in db.users && db.OwnsToken(e, tokenId)
      ensures db.users[e].creationToken.IsUsed()
    {
      db.TokenRow(db.users[e].creationToken);
    }
    return Pass;
  }
}
