/**
 * The plain records of the back end: subscription plans
 * (model/SubscriptionPlan.java) and the track history (model/Track.java).
 */
module Records {

  /** A Java `double`. Prices and coordinates are only copied, never computed with. */
  type Double = real

  /** A priced product code, the only source of prices. */
  datatype SubscriptionPlan = SubscriptionPlan(id: string, price: Double, description: string)

  /** One paid-for song in the history. Its database identity is its position
      in the history sequence. */
  datatype Track = Track(
    spotifyId: string,
    title: string,
    artist: string,
    userEmail: string,
    requestedAt: int,
    amountPaid: Double)
}
