/**
 * The last step of the Spotify OAuth flow (services/SpotyService.java
 * `getAuthorizationToken`): the authorisation code is exchanged for an
 * access token with the bar's own client credentials, and the token is
 * stored on every account that shares the client id. The HTTP exchange is
 * an oracle.
 */
module SpotyService {
  import opened Wrappers
  import opened Http
  import opened Json
  import opened UserModel
  import opened Repositories

  const UnknownClientId := "Client ID de Spotify no registrado en el sistema."
  const SpotifyUnreachable := "Error de comunicación con Spotify."

  /** What is sent to the token endpoint: Basic credentials and the form. */
  datatype TokenRequest = TokenRequest(clientId: string, clientSecret: string, code: string, redirectUri: string)

  /** The exchange: an exception, or an answer whose status is or is not
      200 OK and whose body may be empty. A body that is not a JSON object
      is `NotAnObject`. */
  datatype Exchange = Threw | Responded(ok: bool, body: Option<JsonText>)

  /** The value the accounts receive, when the body yields one: a body
      holding the key `access_token`, whose value casts to a string (a JSON
      null stores null). Any other body updates nobody. */
  function TokenToStore(body: JsonText): (t: Option<Option<string>>)
    ensures t.Some? <==> body.Object? && "access_token" in body.fields
                         && !body.fields["access_token"].JOther?
    ensures t.Some? ==> t.value == GetString(body.fields, "access_token")
  {
    if body.Object? && "access_token" in body.fields then
      match CastString(body.fields, "access_token")
      case Ok(v) => Some(v)
      case Err(_) => None
    else None
  }

  /** How many of the found accounts are written: all of them, or up to and
      including the one whose save throws. */
  function WrittenCount(n: nat, saveFailsAt: Option<nat>): (k: nat)
    ensures k <= n
    ensures saveFailsAt.None? || saveFailsAt.value >= n ==> k == n
    ensures saveFailsAt.Some? && saveFailsAt.value < n ==> k == saveFailsAt.value + 1
  {
    if saveFailsAt.Some? && saveFailsAt.value < n then saveFailsAt.value + 1 else n
  }

  /** `getAuthorizationToken`. `found` is the answer of `findByClientId`;
      `saveFailsAt` names the save, if any, that throws, which ends the
      fan-out but not the call. With no account for the client id the
      answer is FORBIDDEN and Spotify is not contacted; every failure of
      the exchange is BAD_GATEWAY. */
  method GetAuthorizationToken(db: Database, code: string, clientId: string, redirectUri: string,
                               found: seq<User>, exchange: TokenRequest -> Exchange,
                               saveFailsAt: Option<nat>)
      returns (r: Result<JsonText, Failure>)
    requires db.IsClientIdQuery(clientId, found)
    modifies set u | u in found :: u`spotifyAccessToken
    ensures found == [] ==> r == Err(StatusFailure(Forbidden, UnknownClientId))
    ensures found != [] ==>
              var answer := exchange(TokenRequest(clientId, found[0].clientSecret, code, redirectUri));
              && (r.Ok? <==> answer.Responded? && answer.ok && answer.body.Some?)
              && (r.Ok? ==> r.value == answer.body.value)
              && (r.Err? ==> r.error == StatusFailure(BadGateway, SpotifyUnreachable))
    ensures r.Err? ==> forall u | u in found :: u.spotifyAccessToken == old(u.spotifyAccessToken)
    ensures r.Ok? && TokenToStore(r.value).None? ==>
              forall u | u in found :: u.spotifyAccessToken == old(u.spotifyAccessToken)
    ensures r.Ok? && TokenToStore(r.value).Some? ==>
              var k := WrittenCount(|found|, saveFailsAt);
              && (forall i | 0 <= i < k :: found[i].spotifyAccessToken == TokenToStore(r.value).value)
              && (forall i | k <= i < |found| :: found[i].spotifyAccessToken == old(found[i].spotifyAccessToken))
    ensures r.Ok? && TokenToStore(r.value).Some? && saveFailsAt.None? ==>
              forall e | e in db.users && db.users[e].clientId == clientId ::
                db.users[e].spotifyAccessToken == TokenToStore(r.value).value
    ensures forall e | e in db.users && db.users[e].clientId != clientId ::
              db.users[e].spotifyAccessToken == old(db.users[e].spotifyAccessToken)
  {
    if |found| == 0 {
      return Err(StatusFailure(Forbidden, UnknownClientId));
    }
    var clientSecret := found[0].clientSecret;
    var answer := exchange(TokenRequest(clientId, clientSecret, code, redirectUri));
    if !answer.Responded? || !answer.ok || answer.body.None? {
      return Err(StatusFailure(BadGateway, SpotifyUnreachable));
    }
    var body := answer.body.value;
    var token := TokenToStore(body);
    if token.Some? {
      var k := WrittenCount(|found|, saveFailsAt);
      var i := 0;
      while i < k
        invariant 0 <= i <= k
        invariant forall j | 0 <= j < i :: found[j].spotifyAccessToken == token.value
        invariant forall j | i <= j < |found| :: found[j].spotifyAccessToken == old(found[j].spotifyAccessToken)
      {
        found[i].SetSpotifyAccessToken(token.value);
        i := i + 1;
      }
    }
    return Ok(body);
  }
}
