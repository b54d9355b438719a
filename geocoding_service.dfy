/**
 * Address to coordinates with a one-step fallback
 * (services/GeocodingService.java). The HTTP lookup `fetchCoordinates` is an
 * oracle: it yields the first hit's coordinates or null.
 */
module GeocodingService {
  import opened Wrappers
  import opened Records
  import opened JavaText

  datatype Coordinates = Coordinates(lat: Double, lng: Double)

  /** The simplified query: the text after the last comma, trimmed. */
  function FallbackQuery(address: string): (q: string)
    requires ',' in address
    ensures ',' !in q
    ensures |q| < |address|
    ensures q == Trim(address[LastIndexOf(address, ',') + 1..])
  {
    var tail := address[LastIndexOf(address, ',') + 1..];
    assert forall k | 0 <= k < |tail| :: tail[k] == address[LastIndexOf(address, ',') + 1 + k];
    Trim(tail)
  }

  /** The queries `getCoordinates` sends, in order. */
  function Lookups(address: string, fetch: string -> Option<Coordinates>): (qs: seq<string>)
    ensures 1 <= |qs| <= 2
    ensures qs[0] == address
    ensures |qs| == 2 <==> fetch(address).None? && ',' in address
    ensures |qs| == 2 ==> qs[1] == FallbackQuery(address)
  {
    if fetch(address).None? && ',' in address then [address, FallbackQuery(address)] else [address]
  }

  /** `getCoordinates`: the full address first, the fallback only when that
      found nothing and the address has a comma. */
  function GetCoordinates(address: string, fetch: string -> Option<Coordinates>): (r: Option<Coordinates>)
    ensures fetch(address).Some? ==> r == fetch(address)
    ensures r.None? <==> forall q | q in Lookups(address, fetch) :: fetch(q).None?
    ensures r.Some? ==> r == fetch(Lookups(address, fetch)[|Lookups(address, fetch)| - 1])
  {
    var coords := fetch(address);
    if coords.None? && ',' in address then fetch(FallbackQuery(address)) else coords
  }
}
