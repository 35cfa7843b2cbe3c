/** Shared vocabulary of the service: identifiers, optional values, and the
    outcome of a request handler (a payload, or one status with its message). */
module Common {

  /** Document identifiers. Every collection draws from one space of ids. */
  type Id = nat

  datatype Option<T> = None | Some(value: T) {
    function GetOr(default: T): T {
      if Some? then value else default
    }
  }

  /** A stored document together with its identifier. */
  datatype Entry<T> = Entry(id: Id, doc: T)

  /** The messages a handler can answer with. `Invalid` stands for every
      validation or cast error of the store, whose text is not modelled. */
  datatype Message =
    | QueryRequired
    | SongNotFound
    | PlaylistNotFound
    | ArtistNotFound
    | AlreadyInPlaylist
    | UserExists
    | CredentialsRequired
    | IncorrectCredentials
    | UserNotFound
    | ArtistRequired
    | Invalid

  /** A failed request: 400, 401, 403, 404 or 500. A 500 carries the text
      of the error the store raised. */
  datatype Failure =
    | BadRequest(message: Message)
    | Unauthorized(message: Message)
    | Forbidden(message: Message)
    | NotFound(message: Message)
    | ServerError(detail: string)

  function StatusCode(f: Failure): nat {
    match f
    case BadRequest(_) => 400
    case Unauthorized(_) => 401
    case Forbidden(_) => 403
    case NotFound(_) => 404
    case ServerError(_) => 500
  }

  /** What a handler sends back. */
  datatype Result<T> = Ok(value: T) | Err(failure: Failure)

  /** The answer of a lookup by id in the store: the record, none, or an
      error the store raised, with its message. */
  datatype Lookup<T> = Found(record: T) | Missing | LookupFailed(error: string)

  /** A request value that JavaScript treats as present: given and not the
      empty string. Mongoose's `required` rule for strings is the same test. */
  predicate Given(s: Option<string>) {
    s.Some? && s.value != ""
  }

  function Min(a: int, b: int): int {
    if a <= b then a else b
  }

  function Max(a: int, b: int): int {
    if a >= b then a else b
  }
}
