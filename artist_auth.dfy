/** The `requireArtist` middleware: given what the store answered for the
    caller's id, either respond (and stop) or pass the artist on to the next
    handler. Exactly one of the two happens, by construction of `Gate`. */
module ArtistAuth {
  import opened Common
  import opened Models

  /** Respond with a failure and stop, or call `next` once with `req.artist` set. */
  datatype Gate = Respond(failure: Failure) | Next(artist: User)

  function RequireArtist(lookup: Lookup<User>): (g: Gate)
    ensures g == Respond(Unauthorized(UserNotFound)) <==> lookup.Missing?
    ensures g == Respond(Forbidden(ArtistRequired)) <==> lookup.Found? && lookup.record.role != Artist
    ensures g.Respond? && g.failure.ServerError? <==> lookup.LookupFailed?
    ensures lookup.LookupFailed? ==> g == Respond(ServerError(lookup.error))
    ensures g.Next? <==> lookup.Found? && lookup.record.role == Artist
    ensures g.Next? ==> g.artist == lookup.record
  {
    match lookup
    case LookupFailed(error) => Respond(ServerError(error))
    case Missing => Respond(Unauthorized(UserNotFound))
    case Found(user) =>
      if user.role != Artist then Respond(Forbidden(ArtistRequired)) else Next(user)
  }
}
