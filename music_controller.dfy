/**
 * `POST /music/add` (http/MusicController.java): default-filling of the
 * request fields, the one required field, and the error mapping around
 * the history service.
 */
module MusicController {
  import opened Wrappers
  import opened Http
  import opened Json
  import opened TokenModel
  import opened Repositories
  import MusicService

  const Unknown := "Desconocido"
  const Anonymous := "anonimo"
  const MissingSpotifyId := "Falta el ID de Spotify"
  const InternalFailure := "Error interno al registrar la canción"

  /** The arguments handed to `saveTrack`. */
  datatype TrackRequest = TrackRequest(spotifyId: string, title: string, artist: string, email: string)

  /** `value != null ? value.toString() : fallback`. */
  function FieldOr(info: JsonObject, key: string, fallback: string): (s: string)
    ensures GetString(info, key).Some? ==> s == GetString(info, key).value
    ensures GetString(info, key).None? ==> s == fallback
  {
    var v := GetString(info, key);
    if v.Some? then v.value else fallback
  }

  /** The request read from the body: 400 without an `id`, defaults for
      the other fields, present fields forwarded as their text. */
  function ReadTrackRequest(info: JsonObject): (r: Result<TrackRequest, Failure>)
    ensures r.Err? <==> GetString(info, "id").None?
    ensures r.Err? ==> r.error == StatusFailure(BadRequest, MissingSpotifyId)
    ensures r.Ok? ==> r.value.spotifyId == GetString(info, "id").value
    ensures r.Ok? && GetString(info, "title").None? ==> r.value.title == Unknown
    ensures r.Ok? && GetString(info, "artist").None? ==> r.value.artist == Unknown
    ensures r.Ok? && GetString(info, "email").None? ==> r.value.email == Anonymous
    ensures r.Ok? && GetString(info, "title").Some? ==> r.value.title == GetString(info, "title").value
    ensures r.Ok? && GetString(info, "artist").Some? ==> r.value.artist == GetString(info, "artist").value
    ensures r.Ok? && GetString(info, "email").Some? ==> r.value.email == GetString(info, "email").value
  {
    var id := GetString(info, "id");
    var title := FieldOr(info, "title", Unknown);
    var artist := FieldOr(info, "artist", Unknown);
    var email := FieldOr(info, "email", Anonymous);
    if id.None? then Err(StatusFailure(BadRequest, MissingSpotifyId))
    else Ok(TrackRequest(id.value, title, artist, email))
  }

  /** The handler's `catch` clauses: status failures pass through, anything
      else becomes a 500 with a fixed reason. */
  function MapFailure(f: Failure): (r: Failure)
    ensures r.StatusFailure?
    ensures f.StatusFailure? ==> r == f
    ensures !f.StatusFailure? ==> r == StatusFailure(InternalServerError, InternalFailure)
  {
    if f.StatusFailure? then f else StatusFailure(InternalServerError, InternalFailure)
  }

  /** `addTrack`: `saveTrack` is called only for a request with an id;
      the history grows by one track exactly when the call succeeds. */
  method AddTrack(db: Database, info: JsonObject, now: Millis) returns (r: Outcome<Failure>)
    modifies db`tracks
    ensures r.Fail? ==> r.error.StatusFailure? && db.tracks == old(db.tracks)
    ensures ReadTrackRequest(info).Err? ==> r == Fail(ReadTrackRequest(info).error)
    ensures ReadTrackRequest(info).Ok? ==>
              var q := ReadTrackRequest(info).value;
              var h := MusicService.HistoryAfter(old(db.tracks), db.plans, q.spotifyId, q.title,
                                                 q.artist, q.email, now);
              && (h.Err? ==> r == Fail(h.error))
              && (h.Ok? ==> r.Pass? && db.tracks == h.value)
  {
    var request := ReadTrackRequest(info);
    if request.Err? {
      return Fail(request.error);
    }
    var q := request.value;
    var saved := MusicService.SaveTrack(db, q.spotifyId, q.title, q.artist, q.email, now);
    if saved.Fail? {
      return Fail(MapFailure(saved.error));
    }
    return Pass;
  }
}
