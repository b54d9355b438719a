/**
 * The paid-song history (services/MusicService.java): every request is
 * appended with the price the SONG plan has at that moment.
 */
module MusicService {
  import opened Wrappers
  import opened Http
  import opened Records
  import opened TokenModel
  import opened Repositories

  const NoSongPrice := "No se ha definido el precio de las canciones en la BD"

  /** The history after one `saveTrack`, or the 500 it raises when no SONG
      plan is stored. */
  function HistoryAfter(tracks: seq<Track>, plans: map<string, SubscriptionPlan>, spotifyId: string,
                        title: string, artist: string, userEmail: string, now: Millis)
      : (r: Result<seq<Track>, Failure>)
    ensures r.Err? <==> "SONG" !in plans
    ensures r.Err? ==> r.error == StatusFailure(InternalServerError, NoSongPrice)
    ensures r.Ok? ==> |r.value| == |tracks| + 1 && r.value[..|tracks|] == tracks
    ensures r.Ok? ==> var t := r.value[|tracks|];
                      && t.spotifyId == spotifyId && t.title == title && t.artist == artist
                      && t.userEmail == userEmail && t.requestedAt == now
                      && t.amountPaid == plans["SONG"].price
  {
    if "SONG" !in plans then Err(StatusFailure(InternalServerError, NoSongPrice))
    else Ok(tracks + [Track(spotifyId, title, artist, userEmail, now, plans["SONG"].price)])
  }

  /** Nothing is deduplicated: the same request saved twice is in the
      history twice, at the same price. */
  lemma SavedTwiceIsListedTwice(tracks: seq<Track>, plans: map<string, SubscriptionPlan>,
                                spotifyId: string, title: string, artist: string, userEmail: string,
                                now: Millis, later: Millis)
    requires HistoryAfter(tracks, plans, spotifyId, title, artist, userEmail, now).Ok?
    ensures var once := HistoryAfter(tracks, plans, spotifyId, title, artist, userEmail, now).value;
            var twice := HistoryAfter(once, plans, spotifyId, title, artist, userEmail, later);
            && twice.Ok? && |twice.value| == |tracks| + 2
            && twice.value[|tracks|].(requestedAt := later) == twice.value[|tracks| + 1]
  {
  }

  /** `saveTrack`: appends exactly one track to the history, reading the
      price table and writing nothing else. */
  method SaveTrack(db: Database, spotifyId: string, title: string, artist: string,
                   userEmail: string, now: Millis)
      returns (r: Outcome<Failure>)
    modifies db`tracks
    ensures var h := HistoryAfter(old(db.tracks), db.plans, spotifyId, title, artist, userEmail, now);
            && (h.Err? ==> r == Fail(h.error) && db.tracks == old(db.tracks))
            && (h.Ok? ==> r.Pass? && db.tracks == h.value)
    ensures db.plans == old(db.plans)
  {
    if "SONG" !in db.plans {
      return Fail(StatusFailure(InternalServerError, NoSongPrice));
    }
    var price := db.plans["SONG"].price;
    var track := Track(spotifyId, title, artist, userEmail, now, price);
    db.tracks := db.tracks + [track];
    return Pass;
  }
}
