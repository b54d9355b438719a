/**
 * The exceptions the back end raises and the HTTP statuses they carry.
 * A `ResponseStatusException` is a `StatusFailure`; the other variants are
 * the plain Java exceptions that controllers translate into a status.
 */
module Http {

  datatype HttpStatus =
    | BadRequest          // 400
    | Forbidden           // 403
    | NotFound            // 404
    | NotAcceptable       // 406
    | Conflict            // 409
    | Gone                // 410
    | InternalServerError // 500
    | BadGateway          // 502
  {
    /** The numeric status line of the response. */
    function Code(): int {
      match this
      case BadRequest => 400
      case Forbidden => 403
      case NotFound => 404
      case NotAcceptable => 406
      case Conflict => 409
      case Gone => 410
      case InternalServerError => 500
      case BadGateway => 502
    }
  }

  datatype Failure =
    | StatusFailure(status: HttpStatus, reason: string)  // ResponseStatusException
    | IllegalState(message: string)                      // IllegalStateException
    | IllegalArgument(message: string)                   // IllegalArgumentException
    | ProviderFailure(message: string)                   // StripeException from the payment provider
    | ClassCast                                          // ClassCastException (its JVM text is not modelled)

  /** `e.getMessage()` for the exceptions that controllers wrap into a new status. */
  function Message(f: Failure): string {
    match f
    case StatusFailure(_, reason) => reason
    case IllegalState(m) => m
    case IllegalArgument(m) => m
    case ProviderFailure(m) => m
    case ClassCast => ""
  }

  /**
   * The controllers' `catch (ResponseStatusException rse) { throw rse; }
   * catch (Exception e) { throw new ResponseStatusException(status, prefix + e.getMessage()); }`.
   */
  function Translate(f: Failure, status: HttpStatus, prefix: string): (r: Failure)
    ensures r.StatusFailure?
    ensures f.StatusFailure? ==> r == f
    ensures !f.StatusFailure? ==> r.status == status && r.reason == prefix + Message(f)
  {
    if f.StatusFailure? then f else StatusFailure(status, prefix + Message(f))
  }
}
