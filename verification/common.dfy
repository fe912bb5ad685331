/** Types shared by every controller of the gym backend: timestamps, optional
    values and the typed error results that the Express handlers turn into
    HTTP responses. */
module Common {

  /** A JavaScript `Date` reduced to its time value: milliseconds since the epoch. */
  type Timestamp = int

  /** Milliseconds in one day (`setDate(getDate() + 1)` away from a DST change). */
  const DayMs: int := 86_400_000

  datatype Option<T> = None | Some(value: T)

  /** The failures a handler answers with, each with its own message in the source. */
  datatype ApiError =
    | MemberNotFound      // 'Member profile not found' / 'Member not found'
    | MembershipInactive  // 'Your membership is not active...'
    | ClassNotFound       // 'Class not found'
    | ClassFull           // 'Class is fully booked'
    | Duplicate           // 'You have already booked this class at this time'
    | NotFound            // 'Booking not found'
    | Forbidden           // 'Not authorized'
    | ServerError         // anything caught by the final `catch`: a validation error, a null dereference

  datatype Result<T> = Ok(value: T) | Err(error: ApiError)

  /** The HTTP status each handler sends for an error. */
  function HttpStatus(e: ApiError): (code: int)
    ensures code in {400, 403, 404, 500}
    ensures code == 500 <==> e == ServerError
    ensures code == 403 <==> e in {MembershipInactive, Forbidden}
    ensures code == 400 <==> e in {ClassFull, Duplicate}
  {
    match e
    case MemberNotFound => 404
    case MembershipInactive => 403
    case ClassNotFound => 404
    case ClassFull => 400
    case Duplicate => 400
    case NotFound => 404
    case Forbidden => 403
    case ServerError => 500
  }
}
