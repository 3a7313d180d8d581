/**
 * What the two callable handlers share: the classified error they throw,
 * the values foreign code can throw at them, JavaScript truthiness of an
 * optional string, and the outer `catch` that turns whatever was thrown into
 * a classified error.
 */
module Callable {
  import opened Wrappers

  /** The error kinds the handlers use. */
  datatype ErrorCode =
    | Unauthenticated
    | InvalidArgument
    | FailedPrecondition
    | PermissionDenied
    | Internal

  /** A classified error: what the handlers throw and the client receives. */
  datatype HttpsError = HttpsError(code: ErrorCode, message: string)

  /**
   * A value thrown by code the handler calls (the HTTP client, a body
   * reader, the credential provider): an `Error` instance with its message,
   * or some other value.
   */
  datatype Foreign = ErrorInstance(message: string) | NonErrorValue

  /** Anything a handler body can throw. */
  datatype Thrown = Classified(error: HttpsError) | Unclassified(foreign: Foreign)

  /** How a handler body ends: it returns a value or it throws. */
  datatype Completion<+T> = Returned(value: T) | Threw(thrown: Thrown)

  /** `throw new HttpsError(code, message)` */
  function Raise<T>(code: ErrorCode, message: string): Completion<T> {
    Threw(Classified(HttpsError(code, message)))
  }

  /** JavaScript truthiness of an optional string: defined and not empty. */
  predicate Truthy(s: Option<string>) {
    s.Some? && s.value != ""
  }

  /** `s || fallback` for an optional string. */
  function OrElse(s: Option<string>, fallback: string): (r: string)
    ensures Truthy(s) ==> r == s.value
    ensures !Truthy(s) ==> r == fallback
  {
    if Truthy(s) then s.value else fallback
  }

  /**
   * The outer `catch` of a handler: an error that is already classified is
   * rethrown unchanged; anything else becomes `internal`, carrying the
   * message of an `Error` instance or, for any other value, `fallback`.
   */
  function Catch<T>(c: Completion<T>, fallback: string): (r: Result<T, HttpsError>)
    ensures r.Success? <==> c.Returned?
    ensures c.Returned? ==> r.value == c.value
    ensures c.Threw? && c.thrown.Classified? ==> r.error == c.thrown.error
    ensures c.Threw? && c.thrown.Unclassified? ==> r.error.code == Internal
    ensures c == Threw(Unclassified(NonErrorValue)) ==> r.error.message == fallback
    ensures forall m :: c == Threw(Unclassified(ErrorInstance(m))) ==> r.error.message == m
  {
    match c
    case Returned(v) => Success(v)
    case Threw(Classified(e)) => Failure(e)
    case Threw(Unclassified(ErrorInstance(m))) => Failure(HttpsError(Internal, m))
    case Threw(Unclassified(NonErrorValue)) => Failure(HttpsError(Internal, fallback))
  }
}
